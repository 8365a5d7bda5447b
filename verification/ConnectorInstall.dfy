/** What a merge puts where: every template hook ends up installed, and nothing else is added. */
module ConnectorInstall {
  import opened Json
  import opened Options
  import opened Sequences
  import opened ConnectorMerge
  import opened ConnectorLaws

  // ---------------------------------------------------------------- flat entry lists

  /** Each managed template entry has an entry with its command. */
  ghost predicate EntriesInstalled(slot: seq<Value>, templates: seq<Value>) {
    forall t :: t in templates && ManagedEntry(t) ==> exists e :: e in slot && EntryCommand(e) == EntryCommand(t)
  }

  /** The old entries stay in front; behind them stand managed template entries, each with a command
      not there before. */
  ghost predicate EntriesGrown(before: seq<Value>, slot: seq<Value>, templates: seq<Value>) {
    && before <= slot
    && forall k :: |before| <= k < |slot| ==>
         && slot[k] in templates && ManagedEntry(slot[k])
         && forall j :: 0 <= j < k ==> EntryCommand(slot[j]) != EntryCommand(slot[k])
  }

  lemma {:induction false} MergedEntriesGrown(before: seq<Value>, managed: seq<Value>)
    requires forall t :: t in managed ==> ManagedEntry(t)
    ensures EntriesGrown(before, MergeEntries(before, managed), managed)
  {
    if managed != [] {
      var init, last := managed[..|managed| - 1], managed[|managed| - 1];
      MergedEntriesGrown(before, init);
      var mid := MergeEntries(before, init);
      assert forall k :: 0 <= k < |mid| ==> mid[k] in mid;
    }
  }

  lemma FlatSlot(before: seq<Value>, templates: seq<Value>)
    ensures var slot := MergeSlot(HooksJson, before, templates);
            EntriesInstalled(slot, templates) && EntriesGrown(before, slot, templates)
  {
    var managed := Filter(templates, ManagedEntry);
    MergeEntriesGrows(before, managed);
    MergedEntriesGrown(before, managed);
    forall t | t in templates && ManagedEntry(t)
      ensures exists e :: e in MergeEntries(before, managed) && EntryCommand(e) == EntryCommand(t)
    {
      assert HasCommand(MergeEntries(before, managed), EntryCommand(t));
    }
  }

  // ---------------------------------------------------------------- matcher groups

  /** A group that takes no hooks: no object, or its `hooks` is no array. */
  predicate Unfit(group: Value) {
    !group.Object? || ("hooks" in group.fields && !group.fields["hooks"].Array?)
  }

  predicate IsFirst(groups: seq<Value>, matcher: string, i: nat) {
    && i < |groups| && MatcherOf(groups[i]) == matcher
    && forall j :: 0 <= j < i ==> MatcherOf(groups[j]) != matcher
  }

  /** A managed hook that some template group with this matcher brings. */
  ghost predicate Offered(templates: seq<Value>, matcher: string, hook: Value) {
    exists t :: t in templates && MatcherOf(t) == matcher && Brings(t, hook)
  }

  predicate Brings(t: Value, hook: Value) {
    GetArray(t, "hooks").Some? && hook in GetArray(t, "hooks").value && ManagedHook(hook)
  }

  predicate HoldsCommand(group: Value, command: Option<string>) {
    && GetArray(group, "hooks").Some?
    && exists h :: h in GetArray(group, "hooks").value && GetString(h, "command") == command
  }

  /** Every hook the template group brings is held by the first group with its matcher, unless that group
      was there before and takes no hooks. */
  ghost predicate GroupInstalled(before: seq<Value>, slot: seq<Value>, t: Value) {
    forall hook :: Brings(t, hook) ==> HookInstalled(before, slot, MatcherOf(t), GetString(hook, "command"))
  }

  ghost predicate HookInstalled(before: seq<Value>, slot: seq<Value>, matcher: string, command: Option<string>) {
    exists i: nat ::
      && IsFirst(slot, matcher, i)
      && (HoldsCommand(slot[i], command) || (i < |before| && slot[i] == before[i] && Unfit(before[i])))
  }

  /** The hooks of a group that takes hooks. */
  function HooksIn(group: Value): seq<Value> {
    match GetArray(group, "hooks")
    case Some(hooks) => hooks
    case None => []
  }

  /** A group is unchanged, or differs only in offered hooks behind its own. */
  ghost predicate GroupGrown(before: Value, after: Value, templates: seq<Value>) {
    || after == before
    || (&& !Unfit(before) && after.Object? && GetArray(after, "hooks").Some?
        && after.fields - {"hooks"} == before.fields - {"hooks"}
        && HooksIn(before) <= HooksIn(after)
        && forall k :: |HooksIn(before)| <= k < |HooksIn(after)| ==>
             Offered(templates, MatcherOf(before), HooksIn(after)[k]))
  }

  /** A new group has its matcher, if not empty, and offered hooks: nothing else. */
  ghost predicate GroupNew(group: Value, templates: seq<Value>) {
    && group.Object? && GetArray(group, "hooks").Some?
    && group.fields.Keys == (if MatcherOf(group) == "" then {"hooks"} else {"matcher", "hooks"})
    && forall k :: 0 <= k < |HooksIn(group)| ==> Offered(templates, MatcherOf(group), HooksIn(group)[k])
  }

  ghost predicate GroupsGrown(before: seq<Value>, slot: seq<Value>, templates: seq<Value>) {
    && |before| <= |slot|
    && (forall i :: 0 <= i < |before| ==> GroupGrown(before[i], slot[i], templates))
    && (forall i :: |before| <= i < |slot| ==> GroupNew(slot[i], templates))
  }

  // ---------------------------------------------------------------- proof: growth

  lemma OfferedMore(templates: seq<Value>, more: seq<Value>, matcher: string, hook: Value)
    requires Offered(templates, matcher, hook) && forall t :: t in templates ==> t in more
    ensures Offered(more, matcher, hook)
  {
  }

  lemma {:induction false} MergedHooksGrown(hooks: seq<Value>, managed: seq<Value>)
    ensures hooks <= MergeHooks(hooks, managed)
    ensures forall k :: |hooks| <= k < |MergeHooks(hooks, managed)| ==> MergeHooks(hooks, managed)[k] in managed
  {
    if managed != [] {
      MergedHooksGrown(hooks, managed[..|managed| - 1]);
      assert managed == managed[..|managed| - 1] + [managed[|managed| - 1]];
    }
  }

  lemma MergeableGroup(group: Value, managed: seq<Value>)
    requires !Unfit(group)
    ensures AddHooks(group, managed) == Object(group.fields["hooks" := Array(MergeHooks(HooksIn(group), managed))])
  {
  }

  lemma WithHooks(group: Value, hooks: seq<Value>)
    requires group.Object?
    ensures var after := Object(group.fields["hooks" := Array(hooks)]);
            && GetArray(after, "hooks") == Some(hooks) && MatcherOf(after) == MatcherOf(group)
            && after.fields - {"hooks"} == group.fields - {"hooks"}
            && after.fields.Keys == group.fields.Keys + {"hooks"}
  {
  }

  lemma ManagedAreOffered(t: Value, templates: seq<Value>)
    requires t in templates
    ensures forall h :: h in ManagedHooksOf(t) ==> Offered(templates, MatcherOf(t), h)
  {
    forall h | h in ManagedHooksOf(t) ensures Offered(templates, MatcherOf(t), h) { assert Brings(t, h); }
  }

  lemma AddedIsGrown(group: Value, t: Value, templates: seq<Value>)
    requires t in templates && MatcherOf(group) == MatcherOf(t)
    ensures GroupGrown(group, AddHooks(group, ManagedHooksOf(t)), templates)
  {
    var managed := ManagedHooksOf(t);
    if !Unfit(group) {
      var hooks := MergeHooks(HooksIn(group), managed);
      MergeableGroup(group, managed);
      MergedHooksGrown(HooksIn(group), managed);
      WithHooks(group, hooks);
      ManagedAreOffered(t, templates);
    }
  }

  lemma GrownKeepsMatcher(before: Value, after: Value, templates: seq<Value>)
    requires GroupGrown(before, after, templates)
    ensures MatcherOf(after) == MatcherOf(before) && (Unfit(after) <==> Unfit(before))
  {
    if after != before {
      assert Get(after, "matcher") == Get(before, "matcher") by {
        RestOfFields(before.fields, after.fields, "matcher");
      }
    }
  }

  lemma RestOfFields(a: map<string, Value>, b: map<string, Value>, key: string)
    requires a - {"hooks"} == b - {"hooks"} && key != "hooks"
    ensures (key in a <==> key in b) && (key in a ==> a[key] == b[key])
  {
    assert key in a <==> key in a - {"hooks"};
    assert key in b <==> key in b - {"hooks"};
  }

  lemma GrownTwice(a: Value, b: Value, c: Value, templates: seq<Value>)
    requires GroupGrown(a, b, templates) && GroupGrown(b, c, templates)
    ensures GroupGrown(a, c, templates)
  {
    if a != b && b != c {
      GrownKeepsMatcher(a, b, templates);
      var x, y, z := HooksIn(a), HooksIn(b), HooksIn(c);
      forall k | |x| <= k < |z| ensures Offered(templates, MatcherOf(a), z[k]) {
        if k < |y| { assert z[k] == y[k]; }
      }
    }
  }

  lemma NewThenGrown(a: Value, b: Value, templates: seq<Value>)
    requires GroupNew(a, templates) && GroupGrown(a, b, templates)
    ensures GroupNew(b, templates)
  {
    if a != b {
      GrownKeepsMatcher(a, b, templates);
      var x, y := HooksIn(a), HooksIn(b);
      forall k | 0 <= k < |y| ensures Offered(templates, MatcherOf(b), y[k]) {
        if k < |x| { assert y[k] == x[k]; }
      }
      SameKeys(a.fields, b.fields);
    }
  }

  lemma SameKeys(a: map<string, Value>, b: map<string, Value>)
    requires a - {"hooks"} == b - {"hooks"} && "hooks" in a && "hooks" in b
    ensures a.Keys == b.Keys
  {
    forall k ensures k in a <==> k in b { if k != "hooks" { RestOfFields(a, b, k); } }
  }

  lemma NewGroupIsNew(t: Value, templates: seq<Value>)
    requires t in templates
    ensures GroupNew(NewGroup(MatcherOf(t), ManagedHooksOf(t)), templates)
  {
    var g := NewGroup(MatcherOf(t), ManagedHooksOf(t));
    assert MatcherOf(g) == MatcherOf(t);
    ManagedAreOffered(t, templates);
  }

  lemma GrownMore(before: Value, after: Value, templates: seq<Value>, more: seq<Value>)
    requires GroupGrown(before, after, templates) && forall t :: t in templates ==> t in more
    ensures GroupGrown(before, after, more)
  {
  }

  lemma NewMore(group: Value, templates: seq<Value>, more: seq<Value>)
    requires GroupNew(group, templates) && forall t :: t in templates ==> t in more
    ensures GroupNew(group, more)
  {
  }

  lemma GroupsGrownMore(before: seq<Value>, slot: seq<Value>, templates: seq<Value>, more: seq<Value>)
    requires GroupsGrown(before, slot, templates) && forall t :: t in templates ==> t in more
    ensures GroupsGrown(before, slot, more)
  {
    forall i | 0 <= i < |before| ensures GroupGrown(before[i], slot[i], more) {
      GrownMore(before[i], slot[i], templates, more);
    }
    forall i | |before| <= i < |slot| ensures GroupNew(slot[i], more) { NewMore(slot[i], templates, more); }
  }

  /** One template group merged into groups already grown keeps them so. */
  lemma MergeGroupGrown(before: seq<Value>, mid: seq<Value>, t: Value, templates: seq<Value>)
    requires GroupsGrown(before, mid, templates) && t in templates
    ensures GroupsGrown(before, MergeGroup(mid, t), templates)
  {
    var managed := ManagedHooksOf(t);
    var i := FirstMatch(mid, MatcherOf(t));
    if managed != [] && i < |mid| {
      AddedIsGrown(mid[i], t, templates);
      if i < |before| {
        GrownTwice(before[i], mid[i], AddHooks(mid[i], managed), templates);
      } else {
        NewThenGrown(mid[i], AddHooks(mid[i], managed), templates);
      }
    } else if managed != [] {
      NewGroupIsNew(t, templates);
    }
  }

  lemma {:induction false} MergedGroupsGrown(before: seq<Value>, templates: seq<Value>)
    ensures GroupsGrown(before, MergeGroups(before, templates), templates)
  {
    if templates != [] {
      var init, last := templates[..|templates| - 1], templates[|templates| - 1];
      MergedGroupsGrown(before, init);
      assert templates == init + [last];
      GroupsGrownMore(before, MergeGroups(before, init), init, templates);
      MergeGroupGrown(before, MergeGroups(before, init), last, templates);
    }
  }

  // ---------------------------------------------------------------- proof: installation

  /** A group to which nothing needs adding holds the commands, or takes none. */
  lemma SettledHolds(group: Value, managed: seq<Value>, hook: Value)
    requires AddHooks(group, managed) == group && hook in managed && !Unfit(group)
    ensures HoldsCommand(group, GetString(hook, "command"))
  {
    var hooks := MergeHooks(HooksIn(group), managed);
    MergeableGroup(group, managed);
    WithHooks(group, hooks);
    MergeHooksGrows(HooksIn(group), managed);
    assert HasHook(hooks, GetString(hook, "command"));
  }

  lemma GroupSlot(before: seq<Value>, templates: seq<Value>, t: Value)
    requires t in templates
    ensures GroupInstalled(before, MergeSlot(ClaudeSettings, before, templates), t)
  {
    var slot := MergeGroups(before, templates);
    MergeGroupsSettles(before, templates);
    MergedGroupsGrown(before, templates);
    assert Settled(slot, t);
    forall hook | Brings(t, hook)
      ensures HookInstalled(before, slot, MatcherOf(t), GetString(hook, "command"))
    {
      assert hook in ManagedHooksOf(t);
      var i := FirstMatch(slot, MatcherOf(t));
      assert IsFirst(slot, MatcherOf(t), i);
      if !Unfit(slot[i]) {
        SettledHolds(slot[i], ManagedHooksOf(t), hook);
      } else {
        UnfitIsOld(before, slot, templates, i);
      }
    }
  }

  lemma UnfitIsOld(before: seq<Value>, slot: seq<Value>, templates: seq<Value>, i: nat)
    requires GroupsGrown(before, slot, templates) && i < |slot| && Unfit(slot[i])
    ensures i < |before| && slot[i] == before[i]
  {
    if i < |before| { assert GroupGrown(before[i], slot[i], templates); }
  }

  // ---------------------------------------------------------------- whole documents

  /** A slot after a merge, told from the slot before and the template's. */
  ghost predicate SlotInstalled(shape: Shape, before: seq<Value>, slot: seq<Value>, templates: seq<Value>) {
    match shape
    case HooksJson => EntriesInstalled(slot, templates) && EntriesGrown(before, slot, templates)
    case ClaudeSettings =>
      (forall t :: t in templates ==> GroupInstalled(before, slot, t)) && GroupsGrown(before, slot, templates)
  }

  /** Whether the template has anything for an event: the flat shape wants a managed entry. */
  predicate Addressed(shape: Shape, template: map<string, Value>, event: string) {
    && event in template && template[event].Array?
    && (shape.HooksJson? ==> exists t :: t in template[event].items && ManagedEntry(t))
  }

  /** The template installed into a document: addressed events hold it, everything else is as it was. */
  ghost predicate Installed(shape: Shape, target: Value, merged: Value, template: Value) {
    && Mergeable(merged) && HasHooksObject(merged)
    && (forall event :: EventInstalled(shape, HooksOf(target), HooksOf(merged), HooksOf(template), event))
    && (forall key :: key != "hooks" && key != "version" ==> Get(merged, key) == Get(target, key))
    && Get(merged, "version") == (if Get(target, "version").Some? || shape.ClaudeSettings?
                                  then Get(target, "version") else Get(template, "version"))
  }

  ghost predicate EventInstalled(shape: Shape, hooks: map<string, Value>, merged: map<string, Value>,
                                 template: map<string, Value>, event: string) {
    if Addressed(shape, template, event)
    then && event in merged && merged[event].Array?
         && SlotInstalled(shape, SlotEntries(hooks, event), merged[event].items, template[event].items)
    else (event in merged <==> event in hooks) && (event in hooks ==> merged[event] == hooks[event])
  }

  lemma AddressedIsVisited(shape: Shape, template: map<string, Value>, event: string)
    ensures Addressed(shape, template, event) <==> event in VisitedEvents(shape, template)
  {
    if event in template && template[event].Array? {
      var managed := Filter(template[event].items, ManagedEntry);
      if managed != [] { assert managed[0] in managed; }
    }
  }

  lemma SlotIsInstalled(shape: Shape, before: seq<Value>, templates: seq<Value>)
    ensures SlotInstalled(shape, before, MergeSlot(shape, before, templates), templates)
  {
    match shape
    case HooksJson => FlatSlot(before, templates);
    case ClaudeSettings =>
      forall t | t in templates ensures GroupInstalled(before, MergeGroups(before, templates), t) {
        GroupSlot(before, templates, t);
      }
      MergedGroupsGrown(before, templates);
  }

  lemma EventIsInstalled(shape: Shape, hooks: map<string, Value>, template: map<string, Value>, event: string)
    ensures EventInstalled(shape, hooks, MergeHooksMap(shape, hooks, template), template, event)
  {
    AddressedIsVisited(shape, template, event);
    if Addressed(shape, template, event) {
      SlotIsInstalled(shape, SlotEntries(hooks, event), template[event].items);
    }
  }

  /** A merge installs the template: for both shapes, every document and every template. */
  lemma MergeInstalls(shape: Shape, target: Value, template: Value)
    requires Mergeable(target) && HasHooksObject(template)
    ensures Installed(shape, target, Merge(shape, target, template), template)
  {
    InstalledMembers(shape, target, template);
    var merged := Merge(shape, target, template);
    forall event ensures EventInstalled(shape, HooksOf(target), HooksOf(merged), HooksOf(template), event) {
      EventIsInstalled(shape, HooksOf(target), HooksOf(template), event);
    }
  }

  // ---------------------------------------------------------------- removal

  /** No managed hook is left in any array slot, nor an empty slot or group. */
  ghost predicate Uninstalled(shape: Shape, v: Value) {
    forall event :: event in HooksOf(v) && HooksOf(v)[event].Array? ==>
      HooksOf(v)[event].items != [] && CleanSlot(shape, HooksOf(v)[event].items)
  }

  lemma RemoveUninstalls(shape: Shape, target: Value)
    ensures Uninstalled(shape, Remove(shape, target))
  {
    var hooks := HooksOf(target);
    forall event | event in StripHooksMap(shape, hooks) && StripHooksMap(shape, hooks)[event].Array?
      ensures CleanSlot(shape, StripHooksMap(shape, hooks)[event].items)
    {
      var entries := hooks[event].items;
      StripSlotTwice(shape, entries);
      StripSlotFixpoint(shape, StripSlot(shape, entries));
    }
  }
}
