/** Merge, removal and repair of llm_notch hook entries in connector configs. */
module ConnectorMerge {
  import opened Json
  import opened Options
  import opened Sequences
  import Lex

  const MANAGED_MARKER := "llm-notch-hook"

  /** The two nested config shapes: flat entry lists under each event (Cursor, Codex)
      and matcher groups holding hook lists (Claude Code). */
  datatype Shape = HooksJson | ClaudeSettings

  predicate MarkerAt(command: string, i: nat) {
    i + |MANAGED_MARKER| <= |command| && command[i..i + |MANAGED_MARKER|] == MANAGED_MARKER
  }

  predicate IsManagedCommand(command: string) {
    exists i :: 0 <= i <= |command| && MarkerAt(command, i)
  }

  /** An entry's own command, or else the command of its first nested hook. */
  function EntryCommand(entry: Value): Option<string> {
    match GetString(entry, "command")
    case Some(c) => Some(c)
    case None =>
      match GetArray(entry, "hooks")
      case Some(hooks) => if hooks == [] then None else GetString(hooks[0], "command")
      case None => None
  }

  predicate ManagedEntry(entry: Value) {
    EntryCommand(entry).Some? && IsManagedCommand(EntryCommand(entry).value)
  }

  predicate ForeignEntry(entry: Value) { !ManagedEntry(entry) }

  predicate ManagedHook(hook: Value) {
    GetString(hook, "command").Some? && IsManagedCommand(GetString(hook, "command").value)
  }

  predicate ForeignHook(hook: Value) { !ManagedHook(hook) }

  // ---------------------------------------------------------------- flat entry lists

  predicate HasCommand(entries: seq<Value>, command: Option<string>) {
    exists e :: e in entries && EntryCommand(e) == command
  }

  function MergeEntry(entries: seq<Value>, t: Value): seq<Value> {
    if HasCommand(entries, EntryCommand(t)) then entries else entries + [t]
  }

  function MergeEntries(entries: seq<Value>, managed: seq<Value>): seq<Value> {
    if managed == [] then entries
    else MergeEntry(MergeEntries(entries, managed[..|managed| - 1]), managed[|managed| - 1])
  }

  // ---------------------------------------------------------------- matcher groups

  function MatcherOf(group: Value): string {
    match GetString(group, "matcher")
    case Some(m) => m
    case None => ""
  }

  predicate HasHook(hooks: seq<Value>, command: Option<string>) {
    exists h :: h in hooks && GetString(h, "command") == command
  }

  function MergeHook(hooks: seq<Value>, t: Value): seq<Value> {
    if HasHook(hooks, GetString(t, "command")) then hooks else hooks + [t]
  }

  function MergeHooks(hooks: seq<Value>, managed: seq<Value>): seq<Value> {
    if managed == [] then hooks
    else MergeHook(MergeHooks(hooks, managed[..|managed| - 1]), managed[|managed| - 1])
  }

  /** Adds hooks to a group. A group that is no object, or whose `hooks` is no array, is left alone. */
  function AddHooks(group: Value, managed: seq<Value>): Value {
    if !group.Object? then group
    else if "hooks" !in group.fields then
      Object(group.fields["hooks" := Array(MergeHooks([], managed))])
    else match group.fields["hooks"]
      case Array(items) => Object(group.fields["hooks" := Array(MergeHooks(items, managed))])
      case _ => group
  }

  function NewGroup(matcher: string, managed: seq<Value>): Value {
    Object((if matcher == "" then map[] else map["matcher" := String(matcher)])["hooks" := Array(managed)])
  }

  /** Index of the first group with this matcher, or the length when there is none. */
  function FirstMatch(groups: seq<Value>, matcher: string): (i: nat)
    ensures i <= |groups|
    ensures i < |groups| ==> MatcherOf(groups[i]) == matcher
    ensures forall j :: 0 <= j < i ==> MatcherOf(groups[j]) != matcher
  {
    if groups == [] then 0
    else if MatcherOf(groups[0]) == matcher then 0
    else 1 + FirstMatch(groups[1..], matcher)
  }

  function ManagedHooksOf(group: Value): (r: seq<Value>)
    ensures forall h :: h in r ==> ManagedHook(h)
  {
    match GetArray(group, "hooks")
    case Some(hooks) => Filter(hooks, ManagedHook)
    case None => []
  }

  function MergeGroup(groups: seq<Value>, t: Value): seq<Value> {
    var managed := ManagedHooksOf(t);
    if managed == [] then groups else
      var i := FirstMatch(groups, MatcherOf(t));
      if i < |groups| then groups[i := AddHooks(groups[i], managed)]
      else groups + [NewGroup(MatcherOf(t), managed)]
  }

  function MergeGroups(groups: seq<Value>, templates: seq<Value>): seq<Value> {
    if templates == [] then groups
    else MergeGroup(MergeGroups(groups, templates[..|templates| - 1]), templates[|templates| - 1])
  }

  /** What is left of one group: nothing unless foreign hooks remain in it. */
  function StripGroup(group: Value): seq<Value> {
    match GetArray(group, "hooks")
    case None => []
    case Some(hooks) =>
      var kept := Filter(hooks, ForeignHook);
      if kept == [] then [] else [Object(group.fields["hooks" := Array(kept)])]
  }

  function StripGroups(groups: seq<Value>): seq<Value> {
    if groups == [] then []
    else StripGroups(groups[..|groups| - 1]) + StripGroup(groups[|groups| - 1])
  }

  // ---------------------------------------------------------------- one event slot

  /** Whether the template makes the merge visit (create or overwrite) this event's slot. */
  predicate Visits(shape: Shape, slot: Value) {
    slot.Array? && (shape.ClaudeSettings? || Filter(slot.items, ManagedEntry) != [])
  }

  function MergeSlot(shape: Shape, entries: seq<Value>, templates: seq<Value>): seq<Value> {
    match shape
    case HooksJson => MergeEntries(entries, Filter(templates, ManagedEntry))
    case ClaudeSettings => MergeGroups(entries, templates)
  }

  function StripSlot(shape: Shape, entries: seq<Value>): seq<Value> {
    match shape
    case HooksJson => Filter(entries, ForeignEntry)
    case ClaudeSettings => StripGroups(entries)
  }

  /** The entries of a slot; an absent slot and a slot that is no array count as empty. */
  function SlotEntries(hooks: map<string, Value>, event: string): seq<Value> {
    if event in hooks && hooks[event].Array? then hooks[event].items else []
  }

  // ---------------------------------------------------------------- whole documents

  function VisitedEvents(shape: Shape, template: map<string, Value>): set<string> {
    set e | e in template && Visits(shape, template[e])
  }

  function MergeHooksMap(shape: Shape, hooks: map<string, Value>, template: map<string, Value>): map<string, Value> {
    map e | e in hooks.Keys + VisitedEvents(shape, template) ::
      if e in template && Visits(shape, template[e])
      then Array(MergeSlot(shape, SlotEntries(hooks, e), template[e].items))
      else hooks[e]
  }

  predicate Survives(shape: Shape, slot: Value) {
    slot.Array? ==> StripSlot(shape, slot.items) != []
  }

  function StripValue(shape: Shape, slot: Value): Value {
    if slot.Array? then Array(StripSlot(shape, slot.items)) else slot
  }

  function StripHooksMap(shape: Shape, hooks: map<string, Value>): map<string, Value> {
    map e | e in hooks && Survives(shape, hooks[e]) :: StripValue(shape, hooks[e])
  }

  /** A template the merge acts on: it has a `hooks` object. */
  predicate HasHooksObject(v: Value) {
    v.Object? && "hooks" in v.fields && v.fields["hooks"].Object?
  }

  /** A target the merge acts on: an object whose `hooks`, if any, is an object. */
  predicate Mergeable(v: Value) {
    v.Object? && ("hooks" in v.fields ==> v.fields["hooks"].Object?)
  }

  function HooksOf(v: Value): map<string, Value> {
    if HasHooksObject(v) then v.fields["hooks"].fields else map[]
  }

  /** Only the flat shape copies the template's version, and only where none is present. */
  function WithVersion(shape: Shape, fields: map<string, Value>, template: Value): map<string, Value> {
    match Get(template, "version")
    case Some(version) =>
      if shape.HooksJson? && "version" !in fields then fields["version" := version] else fields
    case None => fields
  }

  function Merge(shape: Shape, target: Value, template: Value): Value {
    if !HasHooksObject(template) || !Mergeable(target) then target
    else
      var hooks := MergeHooksMap(shape, HooksOf(target), HooksOf(template));
      Object(WithVersion(shape, target.fields["hooks" := Object(hooks)], template))
  }

  function Remove(shape: Shape, target: Value): Value {
    if HasHooksObject(target)
    then Object(target.fields["hooks" := Object(StripHooksMap(shape, HooksOf(target)))])
    else target
  }

  function Repair(shape: Shape, target: Value, template: Value): Value {
    Merge(shape, Remove(shape, target), template)
  }

  // ---------------------------------------------------------------- foreign entries shown to the user

  function ForeignEntries(event: string, entries: seq<Value>): seq<string> {
    if entries == [] then [] else
      var last := entries[|entries| - 1];
      ForeignEntries(event, entries[..|entries| - 1]) +
      (if EntryCommand(last).Some? && !ManagedEntry(last) then [event + ":" + EntryCommand(last).value] else [])
  }

  function ForeignHooks(prefix: string, hooks: seq<Value>): seq<string> {
    if hooks == [] then [] else
      var last := hooks[|hooks| - 1];
      ForeignHooks(prefix, hooks[..|hooks| - 1]) +
      (if GetString(last, "command").Some? && !ManagedHook(last)
       then [prefix + GetString(last, "command").value] else [])
  }

  function ForeignInGroup(event: string, group: Value): seq<string> {
    match GetArray(group, "hooks")
    case Some(hooks) => ForeignHooks(event + ":" + MatcherOf(group) + ":", hooks)
    case None => []
  }

  function ForeignGroups(event: string, groups: seq<Value>): seq<string> {
    if groups == [] then []
    else ForeignGroups(event, groups[..|groups| - 1]) + ForeignInGroup(event, groups[|groups| - 1])
  }

  function ForeignInSlot(shape: Shape, event: string, entries: seq<Value>): seq<string> {
    match shape
    case HooksJson => ForeignEntries(event, entries)
    case ClaudeSettings => ForeignGroups(event, entries)
  }

  function ForeignLists(shape: Shape, hooks: map<string, Value>): map<string, seq<string>> {
    map e | e in hooks :: ForeignInSlot(shape, e, SlotEntries(hooks, e))
  }

  /** The foreign commands of a document, events in key order. */
  function CollectForeign(shape: Shape, v: Value): seq<string> {
    Lex.Gather(HooksOf(v).Keys, ForeignLists(shape, HooksOf(v)))
  }

  // ---------------------------------------------------------------- lemmas: flat lists

  lemma {:induction false} MergeEntriesGrows(entries: seq<Value>, managed: seq<Value>)
    ensures entries <= MergeEntries(entries, managed)
    ensures forall t :: t in managed ==> HasCommand(MergeEntries(entries, managed), EntryCommand(t))
  {
    if managed != [] {
      var init, last := managed[..|managed| - 1], managed[|managed| - 1];
      var before := MergeEntries(entries, init);
      var after := MergeEntries(entries, managed);
      MergeEntriesGrows(entries, init);
      assert before <= after;
      assert HasCommand(after, EntryCommand(last)) by {
        if !HasCommand(before, EntryCommand(last)) { assert last in after; }
      }
      forall t | t in managed
        ensures HasCommand(after, EntryCommand(t))
      {
        if t != last {
          assert t in init;
          assert HasCommand(before, EntryCommand(t));
          var e :| e in before && EntryCommand(e) == EntryCommand(t);
          assert e in after;
        }
      }
    }
  }

  lemma {:induction false} MergeEntriesNothingMissing(entries: seq<Value>, managed: seq<Value>)
    requires forall t :: t in managed ==> HasCommand(entries, EntryCommand(t))
    ensures MergeEntries(entries, managed) == entries
  {
    if managed != [] { MergeEntriesNothingMissing(entries, managed[..|managed| - 1]); }
  }

  lemma {:induction false} MergeEntriesKeepsForeign(entries: seq<Value>, managed: seq<Value>)
    requires forall t :: t in managed ==> ManagedEntry(t)
    ensures Filter(MergeEntries(entries, managed), ForeignEntry) == Filter(entries, ForeignEntry)
  {
    if managed != [] {
      var init, last := managed[..|managed| - 1], managed[|managed| - 1];
      MergeEntriesKeepsForeign(entries, init);
      FilterSnoc(MergeEntries(entries, init), last, ForeignEntry);
    }
  }

  // ---------------------------------------------------------------- lemmas: groups

  lemma {:induction false} MergeHooksGrows(hooks: seq<Value>, managed: seq<Value>)
    ensures hooks <= MergeHooks(hooks, managed)
    ensures forall t :: t in managed ==> HasHook(MergeHooks(hooks, managed), GetString(t, "command"))
  {
    if managed != [] {
      var init, last := managed[..|managed| - 1], managed[|managed| - 1];
      var before := MergeHooks(hooks, init);
      var after := MergeHooks(hooks, managed);
      MergeHooksGrows(hooks, init);
      assert before <= after;
      assert HasHook(after, GetString(last, "command")) by {
        if !HasHook(before, GetString(last, "command")) { assert last in after; }
      }
      forall t | t in managed
        ensures HasHook(after, GetString(t, "command"))
      {
        if t != last {
          assert t in init;
          assert HasHook(before, GetString(t, "command"));
          var e :| e in before && GetString(e, "command") == GetString(t, "command");
          assert e in after;
        }
      }
    }
  }

  lemma {:induction false} MergeHooksNothingMissing(hooks: seq<Value>, managed: seq<Value>)
    requires forall t :: t in managed ==> HasHook(hooks, GetString(t, "command"))
    ensures MergeHooks(hooks, managed) == hooks
  {
    if managed != [] { MergeHooksNothingMissing(hooks, managed[..|managed| - 1]); }
  }

  lemma {:induction false} MergeHooksKeepsForeign(hooks: seq<Value>, managed: seq<Value>)
    requires forall t :: t in managed ==> ManagedHook(t)
    ensures Filter(MergeHooks(hooks, managed), ForeignHook) == Filter(hooks, ForeignHook)
  {
    if managed != [] {
      var init, last := managed[..|managed| - 1], managed[|managed| - 1];
      MergeHooksKeepsForeign(hooks, init);
      FilterSnoc(MergeHooks(hooks, init), last, ForeignHook);
    }
  }

  lemma AddHooksSettles(group: Value, managed: seq<Value>)
    ensures AddHooks(AddHooks(group, managed), managed) == AddHooks(group, managed)
  {
    if group.Object? && ("hooks" !in group.fields || group.fields["hooks"].Array?) {
      var items := if "hooks" in group.fields then group.fields["hooks"].items else [];
      var once := MergeHooks(items, managed);
      MergeHooksGrows(items, managed);
      MergeHooksNothingMissing(once, managed);
      var fields := group.fields["hooks" := Array(once)];
      assert fields["hooks" := Array(once)] == fields;
    }
  }

  /** A group that already holds `a` still does after `b` was added. */
  lemma AddHooksStaysSettled(group: Value, a: seq<Value>, b: seq<Value>)
    requires AddHooks(group, a) == group
    ensures AddHooks(AddHooks(group, b), a) == AddHooks(group, b)
  {
    if group.Object? && "hooks" in group.fields && group.fields["hooks"].Array? {
      var items := group.fields["hooks"].items;
      MergeHooksGrows(items, a);
      MergeHooksGrows(items, b);
      assert MergeHooks(items, a) == items by {
        assert group.fields["hooks" := Array(MergeHooks(items, a))]["hooks"] == group.fields["hooks"];
      }
      var more := MergeHooks(items, b);
      forall t | t in a
        ensures HasHook(more, GetString(t, "command"))
      {
        var e :| e in items && GetString(e, "command") == GetString(t, "command");
        assert e in more;
      }
      MergeHooksNothingMissing(more, a);
      var fields := group.fields["hooks" := Array(more)];
      assert fields["hooks" := Array(more)] == fields;
    }
  }

  lemma AddHooksKeepsMatcher(group: Value, managed: seq<Value>)
    ensures MatcherOf(AddHooks(group, managed)) == MatcherOf(group)
  {
  }

  /** What is left of a group with these hooks. */
  function Stripped(fields: map<string, Value>, hooks: seq<Value>): seq<Value> {
    var kept := Filter(hooks, ForeignHook);
    if kept == [] then [] else [Object(fields["hooks" := Array(kept)])]
  }

  lemma StripWith(fields: map<string, Value>, hooks: seq<Value>)
    ensures StripGroup(Object(fields["hooks" := Array(hooks)])) == Stripped(fields, hooks)
  {
    var kept := Filter(hooks, ForeignHook);
    assert fields["hooks" := Array(hooks)]["hooks" := Array(kept)] == fields["hooks" := Array(kept)];
  }

  lemma AddHooksStrips(group: Value, managed: seq<Value>)
    requires forall t :: t in managed ==> ManagedHook(t)
    ensures StripGroup(AddHooks(group, managed)) == StripGroup(group)
  {
    if group.Object? && ("hooks" !in group.fields || group.fields["hooks"].Array?) {
      var items := if "hooks" in group.fields then group.fields["hooks"].items else [];
      MergeHooksKeepsForeign(items, managed);
      StripWith(group.fields, MergeHooks(items, managed));
      assert StripGroup(group) == Stripped(group.fields, items);
    }
  }

  predicate Settled(groups: seq<Value>, t: Value) {
    var managed := ManagedHooksOf(t);
    var i := FirstMatch(groups, MatcherOf(t));
    managed == [] || (i < |groups| && AddHooks(groups[i], managed) == groups[i])
  }

  lemma FirstMatchIs(groups: seq<Value>, matcher: string, i: nat)
    requires i < |groups| && MatcherOf(groups[i]) == matcher
    requires forall j :: 0 <= j < i ==> MatcherOf(groups[j]) != matcher
    ensures FirstMatch(groups, matcher) == i
  {
  }

  lemma NewGroupSettled(matcher: string, managed: seq<Value>)
    ensures AddHooks(NewGroup(matcher, managed), managed) == NewGroup(matcher, managed)
    ensures MatcherOf(NewGroup(matcher, managed)) == matcher
  {
    forall t | t in managed ensures HasHook(managed, GetString(t, "command")) { }
    MergeHooksNothingMissing(managed, managed);
    var fields := NewGroup(matcher, managed).fields;
    assert fields["hooks" := Array(managed)] == fields;
  }

  lemma MergeGroupSettles(groups: seq<Value>, t: Value)
    ensures Settled(MergeGroup(groups, t), t)
  {
    var managed, matcher := ManagedHooksOf(t), MatcherOf(t);
    if managed != [] {
      var i := FirstMatch(groups, matcher);
      var after := MergeGroup(groups, t);
      if i < |groups| {
        AddHooksKeepsMatcher(groups[i], managed);
        AddHooksSettles(groups[i], managed);
      } else {
        NewGroupSettled(matcher, managed);
      }
      assert after[..i] == groups[..i];
      assert forall j :: 0 <= j < i ==> after[j] == after[..i][j] == groups[j];
      FirstMatchIs(after, matcher, i);
    }
  }

  lemma MergeGroupKeepsSettled(groups: seq<Value>, t: Value, other: Value)
    requires Settled(groups, other)
    ensures Settled(MergeGroup(groups, t), other)
  {
    var managed := ManagedHooksOf(t);
    if managed != [] && ManagedHooksOf(other) != [] {
      var i := FirstMatch(groups, MatcherOf(t));
      var k := FirstMatch(groups, MatcherOf(other));
      var after := MergeGroup(groups, t);
      if i < |groups| { AddHooksKeepsMatcher(groups[i], managed); }
      forall j | 0 <= j < |groups| ensures MatcherOf(after[j]) == MatcherOf(groups[j]) { }
      FirstMatchIs(after, MatcherOf(other), k);
      if i == k { AddHooksStaysSettled(groups[k], ManagedHooksOf(other), managed); }
    }
  }

  lemma {:induction false} MergeGroupsSettles(groups: seq<Value>, templates: seq<Value>)
    ensures forall t :: t in templates ==> Settled(MergeGroups(groups, templates), t)
  {
    if templates != [] {
      var init, last := templates[..|templates| - 1], templates[|templates| - 1];
      MergeGroupsSettles(groups, init);
      var before := MergeGroups(groups, init);
      MergeGroupSettles(before, last);
      forall t | t in templates
        ensures Settled(MergeGroups(groups, templates), t)
      {
        if t != last {
          assert t in init;
          MergeGroupKeepsSettled(before, last, t);
        }
      }
    }
  }

  lemma {:induction false} MergeGroupsNothingMissing(groups: seq<Value>, templates: seq<Value>)
    requires forall t :: t in templates ==> Settled(groups, t)
    ensures MergeGroups(groups, templates) == groups
  {
    if templates != [] {
      MergeGroupsNothingMissing(groups, templates[..|templates| - 1]);
      assert Settled(groups, templates[|templates| - 1]);
    }
  }

  lemma {:induction false} StripGroupsUpdate(groups: seq<Value>, i: nat, g: Value)
    requires i < |groups| && StripGroup(g) == StripGroup(groups[i])
    ensures StripGroups(groups[i := g]) == StripGroups(groups)
  {
    var n := |groups| - 1;
    if i < n {
      StripGroupsUpdate(groups[..n], i, g);
      assert groups[i := g][..n] == groups[..n][i := g];
    } else {
      assert groups[i := g][..n] == groups[..n];
    }
  }

  lemma MergeGroupStrips(groups: seq<Value>, t: Value)
    ensures StripGroups(MergeGroup(groups, t)) == StripGroups(groups)
  {
    var managed := ManagedHooksOf(t);
    if managed != [] {
      var i := FirstMatch(groups, MatcherOf(t));
      if i < |groups| {
        AddHooksStrips(groups[i], managed);
        StripGroupsUpdate(groups, i, AddHooks(groups[i], managed));
      } else {
        var added := NewGroup(MatcherOf(t), managed);
        FilterNone(managed, ForeignHook);
        assert StripGroup(added) == [];
        assert (groups + [added])[..|groups|] == groups;
      }
    }
  }

  lemma {:induction false} MergeGroupsStrips(groups: seq<Value>, templates: seq<Value>)
    ensures StripGroups(MergeGroups(groups, templates)) == StripGroups(groups)
  {
    if templates != [] {
      var init := templates[..|templates| - 1];
      MergeGroupsStrips(groups, init);
      MergeGroupStrips(MergeGroups(groups, init), templates[|templates| - 1]);
    }
  }
}
