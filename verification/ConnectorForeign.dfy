/** Which foreign commands are listed, and that a removal keeps every foreign value as it is. */
module ConnectorForeign {
  import opened Json
  import opened Options
  import opened Sequences
  import Lex
  import opened ConnectorMerge

  // ---------------------------------------------------------------- the list shown to the user

  /** A command is given, and it is not one of the managed ones. */
  predicate IsForeign(command: Option<string>) { command.Some? && !IsManagedCommand(command.value) }

  predicate ListsEntry(event: string, e: Value, s: string) {
    IsForeign(EntryCommand(e)) && s == event + ":" + EntryCommand(e).value
  }

  predicate ListsHook(prefix: string, h: Value, s: string) {
    IsForeign(GetString(h, "command")) && s == prefix + GetString(h, "command").value
  }

  predicate ListsGroup(event: string, g: Value, s: string) {
    && GetArray(g, "hooks").Some?
    && exists h :: h in GetArray(g, "hooks").value && ListsHook(event + ":" + MatcherOf(g) + ":", h, s)
  }

  /** `event:command` of a foreign entry, or `event:matcher:command` of a foreign hook in a group. */
  predicate ListsSlot(shape: Shape, event: string, slot: seq<Value>, s: string) {
    match shape
    case HooksJson => exists e :: e in slot && ListsEntry(event, e, s)
    case ClaudeSettings => exists g :: g in slot && ListsGroup(event, g, s)
  }

  predicate Lists(shape: Shape, hooks: map<string, Value>, event: string, s: string) {
    event in hooks && hooks[event].Array? && ListsSlot(shape, event, hooks[event].items, s)
  }

  lemma InEither<T>(x: T, a: seq<T>, b: seq<T>)
    ensures x in a + b <==> x in a || x in b
  {
  }

  lemma {:induction false} EntriesExactly(event: string, entries: seq<Value>, s: string)
    ensures s in ForeignEntries(event, entries) <==> exists e :: e in entries && ListsEntry(event, e, s)
  {
    if entries != [] {
      var init, last := entries[..|entries| - 1], entries[|entries| - 1];
      assert entries == init + [last];
      assert forall x :: x in entries <==> x in init || x == last;
      EntriesExactly(event, init, s);
      var own := if IsForeign(EntryCommand(last)) then [event + ":" + EntryCommand(last).value] else [];
      assert ForeignEntries(event, entries) == ForeignEntries(event, init) + own;
      assert s in own <==> ListsEntry(event, last, s);
      InEither(s, ForeignEntries(event, init), own);
    }
  }

  lemma {:induction false} HooksExactly(prefix: string, hooks: seq<Value>, s: string)
    ensures s in ForeignHooks(prefix, hooks) <==> exists h :: h in hooks && ListsHook(prefix, h, s)
  {
    if hooks != [] {
      var init, last := hooks[..|hooks| - 1], hooks[|hooks| - 1];
      assert hooks == init + [last];
      assert forall x :: x in hooks <==> x in init || x == last;
      HooksExactly(prefix, init, s);
      var own := if IsForeign(GetString(last, "command")) then [prefix + GetString(last, "command").value] else [];
      assert ForeignHooks(prefix, hooks) == ForeignHooks(prefix, init) + own;
      assert s in own <==> ListsHook(prefix, last, s);
      InEither(s, ForeignHooks(prefix, init), own);
    }
  }

  lemma {:induction false} GroupsExactly(event: string, groups: seq<Value>, s: string)
    ensures s in ForeignGroups(event, groups) <==> exists g :: g in groups && ListsGroup(event, g, s)
  {
    if groups != [] {
      var init, last := groups[..|groups| - 1], groups[|groups| - 1];
      assert groups == init + [last];
      assert forall x :: x in groups <==> x in init || x == last;
      GroupsExactly(event, init, s);
      InEither(s, ForeignGroups(event, init), ForeignInGroup(event, last));
      GroupExactly(event, last, s);
    }
  }

  lemma GroupExactly(event: string, g: Value, s: string)
    ensures s in ForeignInGroup(event, g) <==> ListsGroup(event, g, s)
  {
    if GetArray(g, "hooks").Some? {
      HooksExactly(event + ":" + MatcherOf(g) + ":", GetArray(g, "hooks").value, s);
    }
  }

  lemma {:induction false} GatheredExactly(keys: set<string>, lists: map<string, seq<string>>, s: string)
    requires keys <= lists.Keys
    ensures s in Lex.Gather(keys, lists) <==> exists k :: k in keys && s in lists[k]
    decreases |keys|
  {
    if keys != {} {
      var m := Lex.Min(keys);
      GatheredExactly(keys - {m}, lists, s);
      Lex.GatherFirst(keys, lists);
    }
  }

  lemma SlotExactly(shape: Shape, hooks: map<string, Value>, event: string, s: string)
    requires event in hooks
    ensures s in ForeignLists(shape, hooks)[event] <==> Lists(shape, hooks, event, s)
  {
    var slot := SlotEntries(hooks, event);
    match shape
    case HooksJson => EntriesExactly(event, slot, s);
    case ClaudeSettings => GroupsExactly(event, slot, s);
  }

  /** The preserved list names every foreign command of every slot, and nothing else. */
  lemma ForeignExactly(shape: Shape, v: Value, s: string)
    ensures s in CollectForeign(shape, v) <==> exists event :: Lists(shape, HooksOf(v), event, s)
  {
    var hooks := HooksOf(v);
    GatheredExactly(hooks.Keys, ForeignLists(shape, hooks), s);
    forall event | event in hooks ensures s in ForeignLists(shape, hooks)[event] <==> Lists(shape, hooks, event, s) {
      SlotExactly(shape, hooks, event, s);
    }
  }

  // ---------------------------------------------------------------- values kept by a removal

  /** `after` is `before` with exactly its foreign hooks left, in order, of which there is one at least. */
  predicate Reduced(before: Value, after: Value) {
    && GetArray(before, "hooks").Some? && GetArray(after, "hooks").Some?
    && GetArray(after, "hooks").value == Filter(GetArray(before, "hooks").value, ForeignHook)
    && GetArray(after, "hooks").value != []
    && before.Object? && after.Object? && after.fields - {"hooks"} == before.fields - {"hooks"}
  }

  predicate HoldsForeign(group: Value) {
    GetArray(group, "hooks").Some? && exists h :: h in GetArray(group, "hooks").value && ForeignHook(h)
  }

  /** The groups that hold foreign hooks, each reduced to them, and no others, in order. */
  ghost predicate GroupsReduced(before: seq<Value>, after: seq<Value>) {
    var held := Filter(before, HoldsForeign);
    |after| == |held| && forall i :: 0 <= i < |after| ==> Reduced(held[i], after[i])
  }

  ghost predicate SlotReduced(shape: Shape, before: seq<Value>, after: seq<Value>) {
    match shape
    case HooksJson => after == Filter(before, ForeignEntry)
    case ClaudeSettings => GroupsReduced(before, after)
  }

  lemma GroupStripped(group: Value)
    ensures if HoldsForeign(group) then |StripGroup(group)| == 1 && Reduced(group, StripGroup(group)[0])
            else StripGroup(group) == []
  {
    if GetArray(group, "hooks").Some? {
      var hooks := GetArray(group, "hooks").value;
      var kept := Filter(hooks, ForeignHook);
      assert kept != [] ==> kept[0] in kept;
      assert HoldsForeign(group) <==> kept != [];
    }
  }

  lemma {:induction false} GroupsStripped(groups: seq<Value>)
    ensures GroupsReduced(groups, StripGroups(groups))
  {
    if groups != [] {
      var init, last := groups[..|groups| - 1], groups[|groups| - 1];
      assert groups == init + [last];
      GroupsStripped(init);
      GroupStripped(last);
      FilterSnoc(init, last, HoldsForeign);
    }
  }

  lemma SlotStripped(shape: Shape, entries: seq<Value>)
    ensures SlotReduced(shape, entries, StripSlot(shape, entries))
  {
    if shape.ClaudeSettings? { GroupsStripped(entries); }
  }

  /** Slots that are no arrays and members other than `hooks` stay; an array slot keeps exactly its foreign
      part and goes when there is none. */
  ghost predicate KeepsForeignPart(shape: Shape, before: Value, after: Value) {
    && before.Object? && after.Object? && after.fields - {"hooks"} == before.fields - {"hooks"}
    && forall event :: SlotKept(shape, HooksOf(before), HooksOf(after), event)
  }

  ghost predicate SlotKept(shape: Shape, before: map<string, Value>, after: map<string, Value>, event: string) {
    if event !in before then event !in after
    else if !before[event].Array? then event in after && after[event] == before[event]
    else
      && SlotReduced(shape, before[event].items, SlotEntries(after, event))
      && (event in after <==> SlotEntries(after, event) != [])
  }

  lemma SlotIsKept(shape: Shape, hooks: map<string, Value>, event: string)
    ensures SlotKept(shape, hooks, StripHooksMap(shape, hooks), event)
  {
    if event in hooks && hooks[event].Array? { SlotStripped(shape, hooks[event].items); }
  }

  /** A removal takes managed hooks and nothing else, for every document with a `hooks` object and both shapes;
      any other document stays as it is. */
  lemma RemoveTakesOnlyManaged(shape: Shape, target: Value)
    ensures if HasHooksObject(target) then KeepsForeignPart(shape, target, Remove(shape, target))
            else Remove(shape, target) == target
  {
    if HasHooksObject(target) {
      var hooks := HooksOf(target);
      forall event ensures SlotKept(shape, hooks, HooksOf(Remove(shape, target)), event) {
        SlotIsKept(shape, hooks, event);
      }
    }
  }
}
