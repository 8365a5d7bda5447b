/** Algebra of merge, remove and repair, for both config shapes at once. */
module ConnectorLaws {
  import opened Json
  import opened Options
  import opened Sequences
  import Lex
  import opened ConnectorMerge

  // ---------------------------------------------------------------- slots

  lemma MergeThenStripSlot(shape: Shape, entries: seq<Value>, templates: seq<Value>)
    ensures StripSlot(shape, MergeSlot(shape, entries, templates)) == StripSlot(shape, entries)
  {
    match shape
    case HooksJson => MergeEntriesKeepsForeign(entries, Filter(templates, ManagedEntry));
    case ClaudeSettings => MergeGroupsStrips(entries, templates);
  }

  lemma MergeSlotTwice(shape: Shape, entries: seq<Value>, templates: seq<Value>)
    ensures MergeSlot(shape, MergeSlot(shape, entries, templates), templates) == MergeSlot(shape, entries, templates)
  {
    match shape
    case HooksJson =>
      var managed := Filter(templates, ManagedEntry);
      MergeEntriesGrows(entries, managed);
      MergeEntriesNothingMissing(MergeEntries(entries, managed), managed);
    case ClaudeSettings =>
      MergeGroupsSettles(entries, templates);
      MergeGroupsNothingMissing(MergeGroups(entries, templates), templates);
  }

  lemma StripGroupTwice(group: Value)
    ensures forall g :: g in StripGroup(group) ==> StripGroup(g) == [g]
  {
    match GetArray(group, "hooks")
    case None =>
    case Some(hooks) =>
      FilterTwice(hooks, ForeignHook);
      StripWith(group.fields, Filter(hooks, ForeignHook));
  }

  lemma {:induction false} StripGroupsTwice(groups: seq<Value>)
    ensures StripGroups(StripGroups(groups)) == StripGroups(groups)
  {
    if groups != [] {
      var init, last := groups[..|groups| - 1], groups[|groups| - 1];
      StripGroupsTwice(init);
      StripGroupTwice(last);
      var kept := StripGroup(last);
      if kept == [] {
        assert StripGroups(init) + kept == StripGroups(init);
      } else {
        assert kept == [kept[0]];
        assert (StripGroups(init) + kept)[..|StripGroups(init)|] == StripGroups(init);
      }
    }
  }

  lemma StripSlotTwice(shape: Shape, entries: seq<Value>)
    ensures StripSlot(shape, StripSlot(shape, entries)) == StripSlot(shape, entries)
  {
    match shape
    case HooksJson => FilterTwice(entries, ForeignEntry);
    case ClaudeSettings => StripGroupsTwice(entries);
  }

  /** No managed entry, and in the grouped shape no group without foreign hooks. */
  predicate CleanGroup(group: Value) {
    GetArray(group, "hooks").Some? && GetArray(group, "hooks").value != [] &&
    forall h :: h in GetArray(group, "hooks").value ==> ForeignHook(h)
  }

  predicate CleanSlot(shape: Shape, entries: seq<Value>) {
    match shape
    case HooksJson => forall e :: e in entries ==> ForeignEntry(e)
    case ClaudeSettings => forall g :: g in entries ==> CleanGroup(g)
  }

  lemma StripGroupFixpoint(group: Value)
    ensures |StripGroup(group)| <= 1
    ensures StripGroup(group) == [group] <==> CleanGroup(group)
  {
    match GetArray(group, "hooks")
    case None =>
    case Some(hooks) =>
      FilterShrinks(hooks, ForeignHook);
      SameHooks(group, hooks, Filter(hooks, ForeignHook));
  }

  /** Putting hooks into a group gives the group back exactly when they are its own. */
  lemma SameHooks(group: Value, hooks: seq<Value>, kept: seq<Value>)
    requires GetArray(group, "hooks") == Some(hooks)
    ensures [Object(group.fields["hooks" := Array(kept)])] == [group] <==> kept == hooks
  {
    ReplaceMember(group.fields, "hooks", Array(kept));
    var stripped := Object(group.fields["hooks" := Array(kept)]);
    assert [stripped] == [group] <==> stripped == group;
  }

  lemma {:induction false} StripGroupsFixpoint(groups: seq<Value>)
    ensures |StripGroups(groups)| <= |groups|
    ensures StripGroups(groups) == groups <==> forall g :: g in groups ==> CleanGroup(g)
  {
    if groups != [] {
      var init, last := groups[..|groups| - 1], groups[|groups| - 1];
      StripGroupsFixpoint(init);
      StripGroupFixpoint(last);
      assert groups == init + [last];
      assert forall g :: g in groups <==> g in init || g == last;
      if StripGroups(groups) == groups {
        assert |StripGroup(last)| == 1;
        assert StripGroups(init) == StripGroups(groups)[..|init|] == init;
        assert StripGroup(last) == StripGroups(groups)[|init|..] == [last];
      }
    }
  }

  lemma StripSlotFixpoint(shape: Shape, entries: seq<Value>)
    ensures StripSlot(shape, entries) == entries <==> CleanSlot(shape, entries)
  {
    match shape
    case HooksJson => FilterShrinks(entries, ForeignEntry);
    case ClaudeSettings => StripGroupsFixpoint(entries);
  }

  // ---------------------------------------------------------------- hooks maps

  lemma StripMapEntries(shape: Shape, hooks: map<string, Value>, event: string)
    ensures SlotEntries(StripHooksMap(shape, hooks), event) == StripSlot(shape, SlotEntries(hooks, event))
  {
  }

  lemma MergeMapEntries(shape: Shape, hooks: map<string, Value>, template: map<string, Value>, event: string)
    ensures SlotEntries(MergeHooksMap(shape, hooks, template), event) ==
            if event in VisitedEvents(shape, template)
            then MergeSlot(shape, SlotEntries(hooks, event), template[event].items)
            else SlotEntries(hooks, event)
  {
  }

  lemma MergeMapTwice(shape: Shape, hooks: map<string, Value>, template: map<string, Value>)
    ensures MergeHooksMap(shape, MergeHooksMap(shape, hooks, template), template) ==
              MergeHooksMap(shape, hooks, template)
  {
    var once := MergeHooksMap(shape, hooks, template);
    var twice := MergeHooksMap(shape, once, template);
    assert twice.Keys == once.Keys;
    forall e | e in twice
      ensures twice[e] == once[e]
    {
      if e in VisitedEvents(shape, template) {
        MergeSlotTwice(shape, SlotEntries(hooks, e), template[e].items);
      }
    }
  }

  /** The slots a merge destroys: they hold something other than an array. */
  function Overwritten(shape: Shape, hooks: map<string, Value>, template: map<string, Value>): set<string> {
    set e | e in hooks && !hooks[e].Array? && e in VisitedEvents(shape, template)
  }

  /** Removing after a merge leaves what removing alone leaves, less the overwritten slots. */
  lemma MergeThenStripMap(shape: Shape, hooks: map<string, Value>, template: map<string, Value>)
    ensures StripHooksMap(shape, MergeHooksMap(shape, hooks, template)) ==
            StripHooksMap(shape, hooks) - Overwritten(shape, hooks, template)
  {
    var merged := MergeHooksMap(shape, hooks, template);
    var left := StripHooksMap(shape, merged);
    var right := StripHooksMap(shape, hooks) - Overwritten(shape, hooks, template);
    forall e
      ensures e in left <==> e in right
      ensures e in left ==> left[e] == right[e]
    {
      if e in VisitedEvents(shape, template) {
        MergeThenStripSlot(shape, SlotEntries(hooks, e), template[e].items);
      }
    }
  }

  lemma StripMapTwice(shape: Shape, hooks: map<string, Value>)
    ensures StripHooksMap(shape, StripHooksMap(shape, hooks)) == StripHooksMap(shape, hooks)
  {
    forall e | e in hooks && hooks[e].Array? { StripSlotTwice(shape, hooks[e].items); }
    var once := StripHooksMap(shape, hooks);
    var twice := StripHooksMap(shape, once);
    forall e
      ensures e in twice <==> e in once
      ensures e in twice ==> twice[e] == once[e]
    {
    }
  }

  /** Merging reads a hooks map only through its keys, its unvisited slots and its slot entries. */
  lemma MergeMapAgrees(shape: Shape, a: map<string, Value>, b: map<string, Value>, template: map<string, Value>)
    requires forall e :: e in VisitedEvents(shape, template) ==> SlotEntries(a, e) == SlotEntries(b, e)
    requires forall e :: e !in VisitedEvents(shape, template) ==> (e in a <==> e in b)
    requires forall e :: e !in VisitedEvents(shape, template) && e in a ==> a[e] == b[e]
    ensures MergeHooksMap(shape, a, template) == MergeHooksMap(shape, b, template)
  {
    var left := MergeHooksMap(shape, a, template);
    var right := MergeHooksMap(shape, b, template);
    assert left.Keys == right.Keys;
    forall e | e in left ensures left[e] == right[e] {
      if e !in VisitedEvents(shape, template) { assert left[e] == a[e]; }
    }
  }

  /** A stale install is repaired to what repairing the original gives, exactly when every
      slot it overwrote is one the new template visits too. */
  lemma RepairMapConverges(shape: Shape, hooks: map<string, Value>, stale: map<string, Value>,
                           template: map<string, Value>)
    ensures MergeHooksMap(shape, StripHooksMap(shape, MergeHooksMap(shape, hooks, stale)), template) ==
            MergeHooksMap(shape, StripHooksMap(shape, hooks), template)
            <==> Overwritten(shape, hooks, stale) <= VisitedEvents(shape, template)
  {
    var a := StripHooksMap(shape, MergeHooksMap(shape, hooks, stale));
    var b := StripHooksMap(shape, hooks);
    MergeThenStripMap(shape, hooks, stale);
    if Overwritten(shape, hooks, stale) <= VisitedEvents(shape, template) {
      forall e | e in VisitedEvents(shape, template) ensures SlotEntries(a, e) == SlotEntries(b, e) { }
      MergeMapAgrees(shape, a, b, template);
    } else {
      var e :| e in Overwritten(shape, hooks, stale) && e !in VisitedEvents(shape, template);
      assert e !in MergeHooksMap(shape, a, template);
      assert e in MergeHooksMap(shape, b, template);
    }
  }

  // ---------------------------------------------------------------- documents

  /** Installing twice is installing once, whatever the baseline. */
  lemma MergeIdempotent(shape: Shape, target: Value, template: Value)
    ensures Merge(shape, Merge(shape, target, template), template) == Merge(shape, target, template)
  {
    if HasHooksObject(template) && Mergeable(target) {
      var once := Merge(shape, target, template);
      var hooks := MergeHooksMap(shape, HooksOf(target), HooksOf(template));
      MergeMapTwice(shape, HooksOf(target), HooksOf(template));
      assert HooksOf(once) == hooks;
      assert once.fields["hooks" := Object(hooks)] == once.fields;
    }
  }

  lemma RemoveIdempotent(shape: Shape, target: Value)
    ensures Remove(shape, Remove(shape, target)) == Remove(shape, target)
  {
    if HasHooksObject(target) {
      StripMapTwice(shape, HooksOf(target));
      var hooks := StripHooksMap(shape, HooksOf(target));
      assert target.fields["hooks" := Object(hooks)]["hooks" := Object(hooks)] ==
          target.fields["hooks" := Object(hooks)];
    }
  }

  /** What a merge leaves even when it is undone: a `hooks` object and a version. */
  function WithDefaults(shape: Shape, target: Value, template: Value): Value
    requires Mergeable(target)
  {
    Object(WithVersion(shape, target.fields["hooks" := Object(HooksOf(target))], template))
  }

  /** A baseline free of managed entries and of slots that removal or merge would drop. */
  predicate PristineSlot(shape: Shape, slot: Value, visited: bool) {
    if slot.Array? then slot.items != [] && CleanSlot(shape, slot.items) else !visited
  }

  predicate Pristine(shape: Shape, hooks: map<string, Value>, template: map<string, Value>) {
    forall e :: e in hooks ==> PristineSlot(shape, hooks[e], e in VisitedEvents(shape, template))
  }

  /** Uninstalling right after installing gives the baseline back, exactly for pristine baselines. */
  lemma RemoveUndoesMerge(shape: Shape, target: Value, template: Value)
    requires Mergeable(target) && HasHooksObject(template)
    ensures Remove(shape, Merge(shape, target, template)) == WithDefaults(shape, target, template)
            <==> Pristine(shape, HooksOf(target), HooksOf(template))
  {
    var hooks, events := HooksOf(target), HooksOf(template);
    var back := StripHooksMap(shape, hooks) - Overwritten(shape, hooks, events);
    RemovedFields(shape, target, template, back);
    PristineIsFixpoint(shape, hooks, events);
  }

  /** Removal after a merge leaves the defaults with the hooks that survive both. */
  lemma RemovedFields(shape: Shape, target: Value, template: Value, back: map<string, Value>)
    requires Mergeable(target) && HasHooksObject(template)
    requires back == StripHooksMap(shape, HooksOf(target)) - Overwritten(shape, HooksOf(target), HooksOf(template))
    ensures Remove(shape, Merge(shape, target, template)) == WithDefaults(shape, target, template)
            <==> back == HooksOf(target)
  {
    var base := WithDefaults(shape, target, template).fields;
    var hooks := MergeHooksMap(shape, HooksOf(target), HooksOf(template));
    MergedFields(shape, target, template);
    MergeThenStripMap(shape, HooksOf(target), HooksOf(template));
    RemoveFrom(shape, base, hooks);
    ReplaceMember(base, "hooks", Object(back));
  }

  lemma RemoveFrom(shape: Shape, base: map<string, Value>, hooks: map<string, Value>)
    ensures Remove(shape, Object(base["hooks" := Object(hooks)])) ==
              Object(base["hooks" := Object(StripHooksMap(shape, hooks))])
  {
    var left := StripHooksMap(shape, hooks);
    assert base["hooks" := Object(hooks)]["hooks" := Object(left)] == base["hooks" := Object(left)];
  }

  /** A merge differs from the defaults in the `hooks` member only. */
  lemma MergedFields(shape: Shape, target: Value, template: Value)
    requires Mergeable(target) && HasHooksObject(template)
    ensures var hooks := MergeHooksMap(shape, HooksOf(target), HooksOf(template));
            && Merge(shape, target, template) ==
               Object(WithDefaults(shape, target, template).fields["hooks" := Object(hooks)])
            && HooksOf(Merge(shape, target, template)) == hooks
    ensures Get(WithDefaults(shape, target, template), "hooks") == Some(Object(HooksOf(target)))
  {
    var hooks := MergeHooksMap(shape, HooksOf(target), HooksOf(template));
    assert Merge(shape, target, template).fields ==
        WithDefaults(shape, target, template).fields["hooks" := Object(hooks)];
  }

  lemma ReplaceMember(fields: map<string, Value>, key: string, v: Value)
    requires key in fields
    ensures fields[key := v] == fields <==> v == fields[key]
  {
    assert fields[key := v][key] == v;
    if v == fields[key] { assert fields[key := v] == fields; }
  }

  lemma PristineIsFixpoint(shape: Shape, hooks: map<string, Value>, events: map<string, Value>)
    ensures StripHooksMap(shape, hooks) - Overwritten(shape, hooks, events) == hooks <==> Pristine(shape, hooks, events)
  {
    var back := StripHooksMap(shape, hooks) - Overwritten(shape, hooks, events);
    forall e | e in hooks
      ensures PristineSlot(shape, hooks[e], e in VisitedEvents(shape, events)) <==> e in back && back[e] == hooks[e]
    {
      PristineSlotIsFixpoint(shape, hooks[e]);
    }
    if Pristine(shape, hooks, events) { assert back.Keys == hooks.Keys; }
  }

  lemma PristineSlotIsFixpoint(shape: Shape, slot: Value)
    ensures PristineSlot(shape, slot, false) <==> Survives(shape, slot) && StripValue(shape, slot) == slot
  {
    if slot.Array? { StripSlotFixpoint(shape, slot.items); }
  }

  /** Whether a stale version field written by an earlier template agrees with the current one. */
  predicate VersionKept(shape: Shape, target: Value, stale: Value, template: Value)
    requires target.Object?
  {
    || shape.ClaudeSettings?
    || "version" in target.fields
    || Get(stale, "version").None?
    || (HasHooksObject(template) && Get(template, "version") == Get(stale, "version"))
  }

  predicate StaleInstallHarmless(shape: Shape, target: Value, stale: Value, template: Value) {
    || !HasHooksObject(stale)
    || !Mergeable(target)
    || (Overwritten(shape, HooksOf(target), HooksOf(stale)) <= VisitedEvents(shape, HooksOf(template))
        && VersionKept(shape, target, stale, template)
        && (HasHooksObject(template) || "hooks" in target.fields))
  }

  /** Repair converges: repairing an install made by any older template gives the config that
      repairing the original gives, exactly when the stale install was harmless. */
  lemma RepairConverges(shape: Shape, target: Value, stale: Value, template: Value)
    ensures Repair(shape, Merge(shape, target, stale), template) == Repair(shape, target, template)
            <==> StaleInstallHarmless(shape, target, stale, template)
  {
    if HasHooksObject(stale) && Mergeable(target) {
      var installed := Merge(shape, target, stale);
      InstalledMembers(shape, target, stale);
      RepairMapConverges(shape, HooksOf(target), HooksOf(stale), HooksOf(template));
      StrippedMapsAgree(shape, HooksOf(target), HooksOf(stale));
      RepairedMembers(shape, installed, template);
      RepairedMembers(shape, target, template);
      SameMembers(Repair(shape, installed, template), Repair(shape, target, template));
    }
  }

  lemma StrippedMapsAgree(shape: Shape, hooks: map<string, Value>, stale: map<string, Value>)
    ensures StripHooksMap(shape, MergeHooksMap(shape, hooks, stale)) == StripHooksMap(shape, hooks)
            <==> Overwritten(shape, hooks, stale) == {}
  {
    MergeThenStripMap(shape, hooks, stale);
    var kept := StripHooksMap(shape, hooks);
    if Overwritten(shape, hooks, stale) == {} {
      assert kept - Overwritten(shape, hooks, stale) == kept;
    } else {
      var e :| e in Overwritten(shape, hooks, stale);
      assert e in kept && e !in kept - Overwritten(shape, hooks, stale);
    }
  }

  lemma SameMembers(a: Value, b: Value)
    requires a.Object? && b.Object?
    requires forall k :: k != "hooks" && k != "version" ==> Get(a, k) == Get(b, k)
    ensures a == b <==> Get(a, "hooks") == Get(b, "hooks") && Get(a, "version") == Get(b, "version")
  {
    if Get(a, "hooks") == Get(b, "hooks") && Get(a, "version") == Get(b, "version") {
      forall k ensures Get(a, k) == Get(b, k) { }
      assert forall k :: (k in a.fields <==> Get(a, k).Some?) && (k in b.fields <==> Get(b, k).Some?);
      assert a.fields == b.fields;
    }
  }

  lemma InstalledMembers(shape: Shape, target: Value, template: Value)
    requires Mergeable(target) && HasHooksObject(template)
    ensures var r := Merge(shape, target, template);
      && Mergeable(r) && "hooks" in r.fields
      && (forall k :: k != "hooks" && k != "version" ==> Get(r, k) == Get(target, k))
      && Get(r, "version") == (if "version" in target.fields || shape.ClaudeSettings?
                               then Get(target, "version") else Get(template, "version"))
      && HooksOf(r) == MergeHooksMap(shape, HooksOf(target), HooksOf(template))
  {
  }

  /** The members of a repaired document. */
  lemma RepairedMembers(shape: Shape, target: Value, template: Value)
    requires Mergeable(target)
    ensures Repair(shape, target, template).Object?
    ensures var r := Repair(shape, target, template);
      && (forall k :: k != "hooks" && k != "version" ==> Get(r, k) == Get(target, k))
      && Get(r, "version") == (if "version" in target.fields || !HasHooksObject(template) || shape.ClaudeSettings?
                               then Get(target, "version") else Get(template, "version"))
      && Get(r, "hooks") == (if HasHooksObject(template)
                             then Some(Object(MergeHooksMap(shape, StripHooksMap(shape, HooksOf(target)),
                                                            HooksOf(template))))
                             else if "hooks" in target.fields
                             then Some(Object(StripHooksMap(shape, HooksOf(target))))
                             else None)
  {
    var stripped := Remove(shape, target);
    assert Mergeable(stripped);
    assert HooksOf(stripped) == StripHooksMap(shape, HooksOf(target)) by {
      if !HasHooksObject(target) { assert StripHooksMap(shape, map[]) == map[]; }
    }
  }

  /** Repairing twice is repairing once, whatever the baseline. */
  lemma RepairIdempotent(shape: Shape, target: Value, template: Value)
    ensures Repair(shape, Repair(shape, target, template), template) == Repair(shape, target, template)
  {
    RepairConverges(shape, Remove(shape, target), template, template);
    RemoveIdempotent(shape, target);
  }

  /** A version bump in the template is not picked up by repairing an install that wrote one. */
  lemma RepairKeepsStaleVersion()
    ensures var stale1 := Object(map["hooks" := Object(map[]), "version" := Number(1)]);
            var current := Object(map["hooks" := Object(map[]), "version" := Number(2)]);
            Repair(HooksJson, Merge(HooksJson, Object(map[]), stale1), current)
            != Repair(HooksJson, Object(map[]), current)
  {
    var stale1 := Object(map["hooks" := Object(map[]), "version" := Number(1)]);
    var current := Object(map["hooks" := Object(map[]), "version" := Number(2)]);
    RepairConverges(HooksJson, Object(map[]), stale1, current);
  }

  // ---------------------------------------------------------------- foreign entries

  lemma {:induction false} ForeignEntriesFiltered(event: string, entries: seq<Value>)
    ensures ForeignEntries(event, Filter(entries, ForeignEntry)) == ForeignEntries(event, entries)
  {
    if entries != [] {
      var init, last := entries[..|entries| - 1], entries[|entries| - 1];
      ForeignEntriesFiltered(event, init);
      var kept := Filter(init, ForeignEntry);
      assert kept + [] == kept && (kept + [last])[..|kept|] == kept;
    }
  }

  lemma {:induction false} ForeignHooksFiltered(prefix: string, hooks: seq<Value>)
    ensures ForeignHooks(prefix, Filter(hooks, ForeignHook)) == ForeignHooks(prefix, hooks)
  {
    if hooks != [] {
      var init, last := hooks[..|hooks| - 1], hooks[|hooks| - 1];
      ForeignHooksFiltered(prefix, init);
      var kept := Filter(init, ForeignHook);
      assert kept + [] == kept && (kept + [last])[..|kept|] == kept;
    }
  }

  lemma ForeignGroupStripped(event: string, group: Value)
    ensures ForeignGroups(event, StripGroup(group)) == ForeignInGroup(event, group)
  {
    match GetArray(group, "hooks")
    case None =>
    case Some(hooks) =>
      var prefix := event + ":" + MatcherOf(group) + ":";
      ForeignHooksFiltered(prefix, hooks);
      var kept := Filter(hooks, ForeignHook);
      if kept != [] { ForeignInOne(event, group.fields, kept); }
  }

  lemma ForeignInOne(event: string, fields: map<string, Value>, kept: seq<Value>)
    ensures var stripped := Object(fields["hooks" := Array(kept)]);
            ForeignGroups(event, [stripped]) == ForeignHooks(event + ":" + MatcherOf(Object(fields)) + ":", kept)
  {
    var stripped := Object(fields["hooks" := Array(kept)]);
    assert MatcherOf(stripped) == MatcherOf(Object(fields));
    assert [stripped][..0] == [];
    assert ForeignGroups(event, [stripped]) == ForeignGroups(event, []) + ForeignInGroup(event, stripped);
  }

  lemma {:induction false} ForeignGroupsLast(event: string, groups: seq<Value>, init: seq<Value>, last: Value)
    requires groups == init + [last]
    ensures ForeignGroups(event, groups) == ForeignGroups(event, init) + ForeignInGroup(event, last)
  {
    assert groups[..|groups| - 1] == init;
  }

  lemma {:induction false} ForeignGroupsAppend(event: string, kept: seq<Value>, one: seq<Value>)
    requires |one| <= 1
    ensures ForeignGroups(event, kept + one) == ForeignGroups(event, kept) + ForeignGroups(event, one)
  {
    if one == [] {
      assert kept + one == kept;
    } else {
      assert one == [one[0]] && [] + one == one;
      ForeignGroupsLast(event, kept + one, kept, one[0]);
      ForeignGroupsLast(event, one, [], one[0]);
    }
  }

  lemma {:induction false} ForeignGroupsStripped(event: string, groups: seq<Value>)
    ensures ForeignGroups(event, StripGroups(groups)) == ForeignGroups(event, groups)
  {
    if groups != [] {
      var init, last := groups[..|groups| - 1], groups[|groups| - 1];
      ForeignGroupsStripped(event, init);
      ForeignGroupStripped(event, last);
      ForeignGroupsLast(event, groups, init, last);
      ForeignGroupsAppend(event, StripGroups(init), StripGroup(last));
    }
  }

  lemma ForeignSlotStripped(shape: Shape, event: string, entries: seq<Value>)
    ensures ForeignInSlot(shape, event, StripSlot(shape, entries)) == ForeignInSlot(shape, event, entries)
  {
    match shape
    case HooksJson => ForeignEntriesFiltered(event, entries);
    case ClaudeSettings => ForeignGroupsStripped(event, entries);
  }

  lemma ForeignSlotMerged(shape: Shape, event: string, entries: seq<Value>, templates: seq<Value>)
    ensures ForeignInSlot(shape, event, MergeSlot(shape, entries, templates)) == ForeignInSlot(shape, event, entries)
  {
    ForeignSlotStripped(shape, event, entries);
    ForeignSlotStripped(shape, event, MergeSlot(shape, entries, templates));
    MergeThenStripSlot(shape, entries, templates);
  }

  /** A merge neither drops nor adds nor reorders a foreign command, whatever the baseline. */
  lemma MergeKeepsForeign(shape: Shape, target: Value, template: Value)
    ensures CollectForeign(shape, Merge(shape, target, template)) == CollectForeign(shape, target)
  {
    if HasHooksObject(template) && Mergeable(target) {
      var hooks, events := HooksOf(target), HooksOf(template);
      var merged := MergeHooksMap(shape, hooks, events);
      InstalledMembers(shape, target, template);
      forall e | e in merged
        ensures ForeignLists(shape, merged)[e] == ForeignInSlot(shape, e, SlotEntries(hooks, e))
      {
        MergeMapEntries(shape, hooks, events, e);
        if e in VisitedEvents(shape, events) {
          ForeignSlotMerged(shape, e, SlotEntries(hooks, e), events[e].items);
        }
      }
      Lex.GatherSkipsEmpty(hooks.Keys, merged.Keys, ForeignLists(shape, hooks), ForeignLists(shape, merged));
    }
  }

  lemma RemoveKeepsForeign(shape: Shape, target: Value)
    ensures CollectForeign(shape, Remove(shape, target)) == CollectForeign(shape, target)
  {
    if HasHooksObject(target) {
      var hooks := HooksOf(target);
      var kept := StripHooksMap(shape, hooks);
      forall e | e in hooks
        ensures ForeignLists(shape, hooks)[e] == ForeignInSlot(shape, e, SlotEntries(kept, e))
      {
        StripMapEntries(shape, hooks, e);
        ForeignSlotStripped(shape, e, SlotEntries(hooks, e));
      }
      Lex.GatherSkipsEmpty(kept.Keys, hooks.Keys, ForeignLists(shape, kept), ForeignLists(shape, hooks));
    }
  }

  lemma RepairKeepsForeign(shape: Shape, target: Value, template: Value)
    ensures CollectForeign(shape, Repair(shape, target, template)) == CollectForeign(shape, target)
  {
    RemoveKeepsForeign(shape, target);
    MergeKeepsForeign(shape, Remove(shape, target), template);
  }
}
