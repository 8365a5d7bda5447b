/** The connector operations as they run: loops that push, insert and retain. */
module ConnectorOps {
  import opened Json
  import opened Sequences
  import opened ConnectorMerge
  import Lex
  import ConnectorLaws
  import opened ConnectorInstall
  import opened ConnectorForeign

  /** What a preview plans for a connector file. */
  datatype PlanOperation = Install | RepairInstall | Uninstall

  method MergeFlatEntries(entries: seq<Value>, managed: seq<Value>) returns (r: seq<Value>)
    ensures r == MergeEntries(entries, managed)
  {
    r := entries;
    for k := 0 to |managed|
      invariant r == MergeEntries(entries, managed[..k])
    {
      assert managed[..k + 1][..k] == managed[..k];
      if !HasCommand(r, EntryCommand(managed[k])) {
        r := r + [managed[k]];
      }
    }
    assert managed[..|managed|] == managed;
  }

  lemma GroupsInstalled(groups: seq<Value>, templates: seq<Value>)
    ensures var r := MergeGroups(groups, templates);
            GroupsGrown(groups, r, templates) && forall t :: t in templates ==> GroupInstalled(groups, r, t)
  {
    MergedGroupsGrown(groups, templates);
    forall t | t in templates ensures GroupInstalled(groups, MergeGroups(groups, templates), t) {
      GroupSlot(groups, templates, t);
    }
  }

  method MergeMatcherGroups(groups: seq<Value>, templates: seq<Value>) returns (r: seq<Value>)
    ensures r == MergeGroups(groups, templates)
    ensures GroupsGrown(groups, r, templates) && forall t :: t in templates ==> GroupInstalled(groups, r, t)
  {
    GroupsInstalled(groups, templates);
    r := groups;
    for k := 0 to |templates|
      invariant r == MergeGroups(groups, templates[..k])
    {
      assert templates[..k + 1][..k] == templates[..k];
      var managed := ManagedHooksOf(templates[k]);
      if managed != [] {
        var i := FirstMatch(r, MatcherOf(templates[k]));
        if i < |r| {
          var group := ExtendGroup(r[i], managed);
          r := r[i := group];
        } else {
          r := r + [NewGroup(MatcherOf(templates[k]), managed)];
        }
      }
    }
    assert templates[..|templates|] == templates;
  }

  /** Only an object whose hooks are an array, or absent, takes more hooks. */
  method ExtendGroup(group: Value, managed: seq<Value>) returns (r: Value)
    ensures r == AddHooks(group, managed)
  {
    r := group;
    var hooks := GetArray(group, "hooks");
    if group.Object? && (hooks.Some? || "hooks" !in group.fields) {
      var slot := MergeGroupHooks(if hooks.Some? then hooks.value else [], managed);
      r := Object(group.fields["hooks" := Array(slot)]);
    }
  }

  method MergeGroupHooks(hooks: seq<Value>, managed: seq<Value>) returns (r: seq<Value>)
    ensures r == MergeHooks(hooks, managed)
  {
    r := hooks;
    for k := 0 to |managed|
      invariant r == MergeHooks(hooks, managed[..k])
    {
      assert managed[..k + 1][..k] == managed[..k];
      if !HasHook(r, GetString(managed[k], "command")) {
        r := r + [managed[k]];
      }
    }
    assert managed[..|managed|] == managed;
  }

  lemma ForeignStep(shape: Shape, hooks: map<string, Value>, todo: set<string>)
    requires todo != {} && todo <= hooks.Keys
    ensures var event := Lex.Min(todo);
            Lex.Gather(todo, ForeignLists(shape, hooks)) ==
            ForeignInSlot(shape, event, SlotEntries(hooks, event))
            + Lex.Gather(todo - {event}, ForeignLists(shape, hooks))
  {
    Lex.GatherFirst(todo, ForeignLists(shape, hooks));
  }

  method ForeignCommands(shape: Shape, v: Value) returns (preserved: seq<string>)
    ensures preserved == CollectForeign(shape, v)
    ensures forall s :: s in preserved <==> exists event :: Lists(shape, HooksOf(v), event, s)
  {
    forall s ensures s in CollectForeign(shape, v) <==> exists event :: Lists(shape, HooksOf(v), event, s) {
      ForeignExactly(shape, v, s);
    }
    preserved := [];
    var hooks := HooksOf(v);
    var todo := hooks.Keys;
    while todo != {}
      invariant todo <= hooks.Keys
      invariant preserved + Lex.Gather(todo, ForeignLists(shape, hooks)) ==
                  Lex.Gather(hooks.Keys, ForeignLists(shape, hooks))
      decreases |todo|
    {
      ForeignStep(shape, hooks, todo);
      var event := Lex.Min(todo);
      var found := ForeignInSlot(shape, event, SlotEntries(hooks, event));
      Regroup(preserved, found, Lex.Gather(todo - {event}, ForeignLists(shape, hooks)));
      preserved := preserved + found;
      todo := todo - {event};
    }
  }

  ghost function Restrict(m: map<string, Value>, keys: set<string>): map<string, Value>
    requires keys <= m.Keys
  {
    map k | k in keys :: m[k]
  }

  lemma MergeMapStep(shape: Shape, before: map<string, Value>, events: map<string, Value>, done: set<string>,
                     event: string)
    requires done <= events.Keys && event in events && event !in done
    ensures var slots := MergeHooksMap(shape, before, Restrict(events, done));
            && SlotEntries(slots, event) == SlotEntries(before, event)
            && MergeHooksMap(shape, before, Restrict(events, done + {event})) ==
               if Visits(shape, events[event])
               then slots[event := Array(MergeSlot(shape, SlotEntries(before, event), events[event].items))]
               else slots
  {
    var part, more := Restrict(events, done), Restrict(events, done + {event});
    var slots := MergeHooksMap(shape, before, part);
    var next := MergeHooksMap(shape, before, more);
    assert event !in part;
    var expected := if Visits(shape, events[event])
                    then slots[event := Array(MergeSlot(shape, SlotEntries(before, event), events[event].items))]
                    else slots;
    forall e
      ensures e in next <==> e in expected
      ensures e in next ==> next[e] == expected[e]
    {
      if e != event {
        assert e in more <==> e in part;
        SameSlot(shape, before, part, more, e);
      }
    }
    assert next == expected;
  }

  lemma SameSlot(shape: Shape, before: map<string, Value>, part: map<string, Value>, more: map<string, Value>,
                 e: string)
    requires e in more <==> e in part
    requires e in part ==> part[e] == more[e]
    ensures e in MergeHooksMap(shape, before, more) <==> e in MergeHooksMap(shape, before, part)
    ensures e in MergeHooksMap(shape, before, more) ==>
              MergeHooksMap(shape, before, more)[e] == MergeHooksMap(shape, before, part)[e]
  {
  }

  lemma StripMapStep(shape: Shape, hooks: map<string, Value>, done: set<string>, event: string)
    requires done <= hooks.Keys && event in hooks && event !in done
    ensures var slots := StripHooksMap(shape, Restrict(hooks, done));
            StripHooksMap(shape, Restrict(hooks, done + {event})) ==
            if Survives(shape, hooks[event]) then slots[event := StripValue(shape, hooks[event])] else slots
  {
    var slots := StripHooksMap(shape, Restrict(hooks, done));
    var next := StripHooksMap(shape, Restrict(hooks, done + {event}));
    var expected := if Survives(shape, hooks[event]) then slots[event := StripValue(shape, hooks[event])] else slots;
    forall e
      ensures e in next <==> e in expected
      ensures e in next ==> next[e] == expected[e]
    {
      assert e != event ==> (e in Restrict(hooks, done + {event}) <==> e in Restrict(hooks, done));
    }
    assert next == expected;
  }

  method MergeOneSlot(shape: Shape, entries: seq<Value>, templates: seq<Value>) returns (slot: seq<Value>)
    ensures slot == MergeSlot(shape, entries, templates)
  {
    match shape {
      case HooksJson => slot := MergeFlatEntries(entries, Filter(templates, ManagedEntry));
      case ClaudeSettings => slot := MergeMatcherGroups(entries, templates);
    }
  }

  /** merge_hooks_json and merge_claude_settings. */
  method MergeConfig(shape: Shape, target: Value, template: Value) returns (merged: Value, preserved: seq<string>)
    ensures merged == Merge(shape, target, template)
    ensures Mergeable(target) && HasHooksObject(template) ==> Installed(shape, target, merged, template)
    ensures !(Mergeable(target) && HasHooksObject(template)) ==> merged == target
    ensures preserved == CollectForeign(shape, target)
  {
    if Mergeable(target) && HasHooksObject(template) { MergeInstalls(shape, target, template); }
    preserved := ForeignCommands(shape, target);
    merged := target;
    if !HasHooksObject(template) || !Mergeable(target) { return; }
    var slots := MergeAllSlots(shape, HooksOf(target), HooksOf(template));
    merged := Object(WithVersion(shape, target.fields["hooks" := Object(slots)], template));
  }

  method MergeAllSlots(shape: Shape, before: map<string, Value>, events: map<string, Value>)
    returns (slots: map<string, Value>)
    ensures slots == MergeHooksMap(shape, before, events)
  {
    slots := before;
    var done: set<string>, todo := {}, events.Keys;
    while todo != {}
      invariant todo == events.Keys - done && done <= events.Keys
      invariant slots == MergeHooksMap(shape, before, Restrict(events, done))
      decreases |todo|
    {
      var event := Lex.Min(todo);
      MergeMapStep(shape, before, events, done, event);
      if Visits(shape, events[event]) {
        var slot := MergeOneSlot(shape, SlotEntries(slots, event), events[event].items);
        slots := slots[event := Array(slot)];
      }
      done, todo := done + {event}, todo - {event};
    }
    assert Restrict(events, done) == events;
  }

  method RetainForeign(shape: Shape, entries: seq<Value>) returns (kept: seq<Value>)
    ensures kept == StripSlot(shape, entries)
  {
    kept := [];
    for k := 0 to |entries|
      invariant kept == StripSlot(shape, entries[..k])
    {
      assert entries[..k + 1][..k] == entries[..k];
      match shape {
        case HooksJson => if ForeignEntry(entries[k]) { kept := kept + [entries[k]]; }
        case ClaudeSettings =>
          var hooks := GetArray(entries[k], "hooks");
          if hooks.Some? {
            var foreign := Filter(hooks.value, ForeignHook);
            if foreign != [] { kept := kept + [Object(entries[k].fields["hooks" := Array(foreign)])]; }
          }
      }
    }
    assert entries[..|entries|] == entries;
  }

  /** remove_hooks_json and remove_claude_settings. */
  method RemoveManaged(shape: Shape, target: Value) returns (stripped: Value)
    ensures stripped == Remove(shape, target) && Uninstalled(shape, stripped)
    ensures if HasHooksObject(target) then KeepsForeignPart(shape, target, stripped) else stripped == target
    ensures Mergeable(target) ==> Mergeable(stripped)
  {
    RemoveUninstalls(shape, target);
    RemoveTakesOnlyManaged(shape, target);
    stripped := target;
    if !HasHooksObject(target) { return; }
    var hooks := HooksOf(target);
    var slots: map<string, Value> := map[];
    var done: set<string>, todo := {}, hooks.Keys;
    while todo != {}
      invariant todo == hooks.Keys - done && done <= hooks.Keys
      invariant slots == StripHooksMap(shape, Restrict(hooks, done))
      decreases |todo|
    {
      var event := Lex.Min(todo);
      StripMapStep(shape, hooks, done, event);
      if hooks[event].Array? {
        var kept := RetainForeign(shape, hooks[event].items);
        if kept != [] { slots := slots[event := Array(kept)]; }
      } else {
        slots := slots[event := hooks[event]];
      }
      done, todo := done + {event}, todo - {event};
    }
    assert Restrict(hooks, done) == hooks;
    stripped := Object(target.fields["hooks" := Object(slots)]);
  }

  /** The planned document and the foreign commands shown with it. */
  method PlanConfig(shape: Shape, operation: PlanOperation, target: Value, template: Value)
    returns (planned: Value, preserved: seq<string>)
    ensures operation.Install? ==> planned == Merge(shape, target, template)
    ensures operation.RepairInstall? ==> planned == Repair(shape, target, template)
    ensures operation.Uninstall? ==> planned == Remove(shape, target)
    ensures operation.Install? && Mergeable(target) && HasHooksObject(template) ==>
              Installed(shape, target, planned, template)
    ensures operation.RepairInstall? && Mergeable(target) && HasHooksObject(template) ==>
              Uninstalled(shape, Remove(shape, target)) && Installed(shape, Remove(shape, target), planned, template)
    ensures operation.Uninstall? ==>
              && Uninstalled(shape, planned)
              && if HasHooksObject(target) then KeepsForeignPart(shape, target, planned) else planned == target
    ensures !operation.Uninstall? ==> preserved == CollectForeign(shape, planned) == CollectForeign(shape, target)
  {
    match operation {
      case Install =>
        planned, preserved := MergeConfig(shape, target, template);
        ConnectorLaws.MergeKeepsForeign(shape, target, template);
      case RepairInstall =>
        var baseline := RemoveManaged(shape, target);
        planned, preserved := MergeConfig(shape, baseline, template);
        ConnectorLaws.RemoveKeepsForeign(shape, target);
        ConnectorLaws.RepairKeepsForeign(shape, target, template);
      case Uninstall =>
        planned := RemoveManaged(shape, target);
        preserved := [];
    }
  }
}
