/** The session registry as the object the core updates in place. */
module RegistryService {
  import opened Options
  import opened Sequences
  import opened Sorting
  import opened Protocol
  import opened Registry
  import opened Views
  import opened Coalescing
  import opened HostCore
  import opened Restart
  import opened Bootstrap

  /** Hash maps are walked in any order. */
  method Enumerate<T>(m: map<string, T>) returns (order: seq<string>)
    ensures IsOrder(order, m.Keys)
  {
    order := [];
    var left := m.Keys;
    while left != {}
      invariant left <= m.Keys
      invariant forall k :: k in order <==> k in m.Keys && k !in left
      invariant forall i, j :: 0 <= i < j < |order| ==> order[i] != order[j]
      decreases |left|
    {
      var k :| k in left;
      left := left - {k};
      order := order + [k];
    }
  }

  // ---------------------------------------------------------------- bootstrap events

  /** Active and unresolved sessions, latest activity first. */
  method ActiveSessions(r: Registry) returns (active: seq<Session>)
    requires forall id :: id in r.sessions ==> r.sessions[id].id == id
    ensures Distinct(active) && |active| <= |r.sessions|
    ensures forall s :: s in active <==> IsActive(r, s)
    ensures Ordered(active, LatestActivityFirst())
  {
    var ids := Enumerate(r.sessions);
    var found: seq<Session> := [];
    for i := 0 to |ids|
      invariant |found| <= i && Distinct(found)
      invariant forall s :: s in found <==> s.id in ids[..i] && r.sessions[s.id] == s && RestorePriority(s) == 0
    {
      var s := r.sessions[ids[i]];
      assert ids[..i + 1] == ids[..i] + [ids[i]];
      assert s !in found;
      if RestorePriority(s) == 0 { found := found + [s]; }
    }
    assert ids[..|ids|] == ids;
    OrderLength(ids, r.sessions.Keys);
    TimeOrders();
    SortSorts(found, LatestActivityFirst());
    active := Sort(found, LatestActivityFirst());
  }

  /** All retained events of all sessions. */
  method AllEvents(r: Registry) returns (all: seq<Event>)
    requires forall id :: id in r.events ==> WindowOk(id, r.events[id])
    ensures forall e :: e in all <==> Retained(r, e)
  {
    var ids := Enumerate(r.events);
    all := [];
    for i := 0 to |ids|
      invariant forall e :: e in all <==> e.sessionId in ids[..i] && e in r.events[e.sessionId]
    {
      assert ids[..i + 1] == ids[..i] + [ids[i]];
      var w := r.events[ids[i]];
      assert WindowOk(ids[i], w);
      assert forall e :: e in w ==> e.sessionId == ids[i];
      all := all + w;
    }
    assert ids[..|ids|] == ids;
  }

  /** What the selection loops maintain. */
  ghost predicate Picked(r: Registry, sel: seq<Event>, ids: set<nat>) {
    && DistinctIds(sel) && |sel| <= BOOTSTRAP_MAX_EVENTS
    && (forall e :: e in sel ==> Retained(r, e))
    && ids == IdSet(sel)
  }

  ghost function IdSet(sel: seq<Event>): set<nat> { set e | e in sel :: e.id }

  /** An event not yet picked is added; one already picked is not added twice. */
  method Pick(ghost idFor: IdFor, ghost r: Registry, e: Event, sel: seq<Event>, ids: set<nat>)
    returns (more: seq<Event>, moreIds: set<nat>)
    requires RegistryOk(idFor, r) && Picked(r, sel, ids) && Retained(r, e) && |sel| < BOOTSTRAP_MAX_EVENTS
    ensures Picked(r, more, moreIds) && |sel| <= |more| <= |sel| + 1
    ensures forall x :: x in more <==> x in sel || x == e
  {
    more, moreIds := sel, ids;
    if e.id !in ids {
      moreIds := ids + {e.id};
      more := sel + [e];
      assert forall i :: 0 <= i < |sel| ==> sel[i] in sel;
      assert e in more && forall x :: x in sel ==> x in more;
    } else {
      ghost var x :| x in sel && x.id == e.id;
      RetainedById(idFor, r, x, e);
    }
  }

  /** The last event of one session, if it has any. */
  method PickTail(ghost idFor: IdFor, ghost r: Registry, window: seq<Event>, start: seq<Event>, startIds: set<nat>)
    returns (sel: seq<Event>, ids: set<nat>)
    requires RegistryOk(idFor, r) && Picked(r, start, startIds) && |start| < BOOTSTRAP_MAX_EVENTS
    requires forall e :: e in window ==> Retained(r, e)
    ensures Picked(r, sel, ids) && |sel| <= |start| + 1
    ensures forall e :: e in sel <==> e in start || (window != [] && e == window[|window| - 1])
  {
    sel, ids := start, startIds;
    var from := if |window| > BOOTSTRAP_EVENTS_PER_ACTIVE_SESSION
                then |window| - BOOTSTRAP_EVENTS_PER_ACTIVE_SESSION else 0;
    for k := from to |window|
      invariant Picked(r, sel, ids) && |sel| <= |start| + (k - from)
      invariant forall e :: e in sel <==> e in start || (k > from && e == window[|window| - 1])
    {
      if |sel| >= BOOTSTRAP_MAX_EVENTS { break; }
      sel, ids := Pick(idFor, r, window[k], sel, ids);
    }
  }

  /** Exactly the reserved events of the listed sessions. */
  ghost predicate HoldsReserved(r: Registry, listed: seq<Session>, sel: seq<Event>) {
    forall e :: e in sel <==> Reserved(r, e) && r.sessions[e.sessionId] in listed
  }

  lemma ReservedStep(r: Registry, listed: seq<Session>, s: Session, sel: seq<Event>, more: seq<Event>)
    requires HoldsReserved(r, listed, sel) && s.id in r.sessions && r.sessions[s.id] == s && RestorePriority(s) == 0
    requires forall id :: id in r.sessions ==> r.sessions[id].id == id
    requires forall e :: e in EventsFor(r, s.id) ==> e.sessionId == s.id
    requires forall e :: e in more <==>
               e in sel || (EventsFor(r, s.id) != [] && e == EventsFor(r, s.id)[|EventsFor(r, s.id)| - 1])
    ensures HoldsReserved(r, listed + [s], more)
  {
    var w := EventsFor(r, s.id);
    if w != [] { assert w[|w| - 1] in w; }
    forall e ensures e in more <==> Reserved(r, e) && r.sessions[e.sessionId] in listed + [s] {
      if Reserved(r, e) && r.sessions[e.sessionId] == s { assert e.sessionId == s.id; }
    }
  }

  lemma WindowRetained(idFor: IdFor, r: Registry, id: string)
    requires RegistryOk(idFor, r)
    ensures forall e :: e in EventsFor(r, id) ==> e.sessionId == id && Retained(r, e)
  {
    if id in r.events { assert WindowOk(id, r.events[id]); }
  }

  lemma ReservedAll(r: Registry, active: seq<Session>, sel: seq<Event>)
    requires HoldsReserved(r, active, sel)
    requires forall id :: id in r.sessions ==> r.sessions[id].id == id
    requires forall s :: s in active <==> IsActive(r, s)
    ensures forall e :: e in sel <==> Reserved(r, e)
  {
  }

  predicate IsActive(r: Registry, s: Session) { s.id in r.sessions && r.sessions[s.id] == s && RestorePriority(s) == 0 }

  method PickSession(ghost idFor: IdFor, r: Registry, ghost listed: seq<Session>, s: Session, start: seq<Event>,
                     startIds: set<nat>)
    returns (sel: seq<Event>, ids: set<nat>)
    requires RegistryOk(idFor, r) && Picked(r, start, startIds) && |start| < BOOTSTRAP_MAX_EVENTS
    requires HoldsReserved(r, listed, start) && IsActive(r, s)
    ensures Picked(r, sel, ids) && |sel| <= |start| + 1 && HoldsReserved(r, listed + [s], sel)
  {
    WindowRetained(idFor, r, s.id);
    sel, ids := PickTail(idFor, r, EventsFor(r, s.id), start, startIds);
    ReservedStep(r, listed, s, start, sel);
  }

  /** The reserved events: with at most 128 sessions the budget never runs out. */
  method PickReserved(ghost idFor: IdFor, r: Registry, active: seq<Session>) returns (sel: seq<Event>, ids: set<nat>)
    requires RegistryOk(idFor, r) && |active| <= BOOTSTRAP_MAX_EVENTS && forall s :: s in active ==> IsActive(r, s)
    ensures Picked(r, sel, ids) && HoldsReserved(r, active, sel)
  {
    sel, ids := [], {};
    for i := 0 to |active|
      invariant Picked(r, sel, ids) && |sel| <= i && HoldsReserved(r, active[..i], sel)
    {
      assert active[..i + 1] == active[..i] + [active[i]];
      sel, ids := PickSession(idFor, r, active[..i], active[i], sel, ids);
    }
    assert active[..|active|] == active;
  }

  /** The rest of the budget, filled from the front of the list. */
  method PickFront(ghost idFor: IdFor, ghost r: Registry, newest: seq<Event>, start: seq<Event>, startIds: set<nat>)
    returns (sel: seq<Event>, ghost i: nat)
    requires RegistryOk(idFor, r) && Picked(r, start, startIds) && forall e :: e in newest ==> Retained(r, e)
    ensures i <= |newest| && (i == |newest| || |sel| >= BOOTSTRAP_MAX_EVENTS)
    ensures DistinctIds(sel) && |sel| <= BOOTSTRAP_MAX_EVENTS && forall e :: e in sel ==> Retained(r, e)
    ensures forall e :: e in sel <==> e in start || e in newest[..i]
  {
    var ids := startIds;
    sel := start;
    i := 0;
    for k := 0 to |newest|
      invariant i == k && Picked(r, sel, ids)
      invariant forall e :: e in sel <==> e in start || e in newest[..k]
    {
      if |sel| >= BOOTSTRAP_MAX_EVENTS { break; }
      assert newest[..k + 1] == newest[..k] + [newest[k]];
      sel, ids := Pick(idFor, r, newest[k], sel, ids);
      i := i + 1;
    }
  }

  /** The rest of the budget goes to the newest events. */
  method PickNewest(ghost idFor: IdFor, r: Registry, start: seq<Event>, startIds: set<nat>) returns (sel: seq<Event>)
    requires RegistryOk(idFor, r) && Picked(r, start, startIds) && forall e :: e in start <==> Reserved(r, e)
    ensures DistinctIds(sel) && |sel| <= BOOTSTRAP_MAX_EVENTS && Recent(r, sel)
    ensures forall e :: e in sel ==> Retained(r, e)
    ensures forall e :: Reserved(r, e) ==> e in sel
  {
    var all := AllEvents(r);
    TimeOrders();
    SortSorts(all, NewestFirst());
    var newest := Sort(all, NewestFirst());
    ghost var i;
    sel, i := PickFront(idFor, r, newest, start, startIds);
    NewestAreRecent(r, newest, i, start, sel);
  }

  lemma NewestAreRecent(r: Registry, newest: seq<Event>, i: nat, start: seq<Event>, sel: seq<Event>)
    requires i <= |newest| && Ordered(newest, NewestFirst()) && (forall e :: e in newest <==> Retained(r, e))
    requires |sel| <= BOOTSTRAP_MAX_EVENTS && (i == |newest| || |sel| >= BOOTSTRAP_MAX_EVENTS)
    requires forall e :: e in start ==> Reserved(r, e)
    requires forall e :: e in sel <==> e in start || e in newest[..i]
    ensures Recent(r, sel)
  {
    forall e | Retained(r, e) && e !in sel
      ensures |sel| == BOOTSTRAP_MAX_EVENTS && forall f :: f in sel ==> Reserved(r, f) || Older(e, f)
    {
      assert e in newest;
      var k :| 0 <= k < |newest| && newest[k] == e;
      forall f | f in sel ensures Reserved(r, f) || Older(e, f) {
        if f !in start {
          var j :| 0 <= j < i && newest[..i][j] == f;
          assert NewestFirst()(newest[j], newest[k]);
        }
      }
    }
  }

  method BootstrapEvents(ghost idFor: IdFor, r: Registry) returns (selected: seq<Event>)
    requires RegistryOk(idFor, r)
    ensures Selection(r, selected)
  {
    var active := ActiveSessions(r);
    var reserved, ids := PickReserved(idFor, r, active);
    ReservedAll(r, active, reserved);
    var picked := PickNewest(idFor, r, reserved, ids);
    selected := Sort(picked, OldestFirst());
    TimeOrders();
    DistinctByIds(idFor, r, picked);
    SortSorts(picked, OldestFirst());
    DistinctByIds(idFor, r, selected);
  }

  // ---------------------------------------------------------------- the registry object

  datatype Insertion = Inserted | Replay(existing: Session) | Invalid | AtCapacity

  datatype Candidate = Room | Evict(id: string) | Full

  class SessionRegistry {
    var sessions: map<string, Session>
    var index: map<string, string>
    var events: map<string, seq<Event>>
    var idempotency: set<string>

    function Value(): Registry
      reads this
    {
      Registry(sessions, index, events, idempotency)
    }

    constructor ()
      ensures Value() == EMPTY
    {
      sessions, index, events, idempotency := map[], map[], map[], {};
    }

    method ResolveExternal(source: AgentSource, externalId: string) returns (found: Option<Session>)
      ensures found == Resolve(Value(), source, externalId)
    {
      var key := ExternalKey(source, externalId);
      if key in index && index[key] in sessions { found := Some(sessions[index[key]]); } else { found := None; }
    }

    method UpsertSession(s: Session) returns (ok: bool)
      modifies this
      ensures ok <==> Bounded(s.externalId, MAX_EXTERNAL_SESSION_ID_LEN)
      ensures Value() == if ok then Put(old(Value()), s) else old(Value())
    {
      ok := Bounded(s.externalId, MAX_EXTERNAL_SESSION_ID_LEN);
      if ok {
        index := index[KeyOf(s) := s.id];
        sessions := sessions[s.id := s];
      }
    }

    method OldestTerminalSessionId() returns (oldest: Option<string>)
      ensures oldest.None? <==> !HasTerminal(Value())
      ensures oldest.Some? ==> IsOldestTerminal(Value(), oldest.value)
    {
      oldest := None;
      var ids := Enumerate(sessions);
      for i := 0 to |ids|
        invariant oldest.None? ==> forall k :: 0 <= k < i ==> !IsTerminal(sessions[ids[k]].status)
        invariant oldest.Some? ==> oldest.value in sessions && IsTerminal(sessions[oldest.value].status)
        invariant oldest.Some? ==> forall k :: 0 <= k < i && IsTerminal(sessions[ids[k]].status) ==>
                    TerminalAge(sessions[oldest.value]) <= TerminalAge(sessions[ids[k]])
      {
        var s := sessions[ids[i]];
        if IsTerminal(s.status) && (oldest.None? || TerminalAge(s) < TerminalAge(sessions[oldest.value])) {
          oldest := Some(ids[i]);
        }
      }
      assert forall id :: id in sessions ==> id in ids;
    }

    /** Below capacity nothing goes; at capacity an oldest terminal session, if there is one. */
    method CapacityEvictionCandidate() returns (c: Candidate)
      ensures c.Room? <==> |sessions| < MAX_SESSIONS
      ensures c.Full? <==> |sessions| >= MAX_SESSIONS && !HasTerminal(Value())
      ensures c.Evict? ==> IsOldestTerminal(Value(), c.id)
    {
      if |sessions| < MAX_SESSIONS { return Room; }
      var oldest := OldestTerminalSessionId();
      c := if oldest.Some? then Evict(oldest.value) else Full;
    }

    /** An indexed key is a replay; a full registry refuses; otherwise the session goes in. */
    method InsertNewSession(s: Session) returns (outcome: Insertion)
      requires KeyOf(s) in index ==> index[KeyOf(s)] in sessions
      modifies this
      ensures outcome.Invalid? <==> !Bounded(s.externalId, MAX_EXTERNAL_SESSION_ID_LEN)
      ensures outcome.Replay? <==> !outcome.Invalid? && KeyOf(s) in old(index)
      ensures outcome.Replay? ==> outcome.existing == old(sessions)[old(index)[KeyOf(s)]]
      ensures outcome.AtCapacity? <==> !outcome.Invalid? && !outcome.Replay? && |old(sessions)| >= MAX_SESSIONS
      ensures Value() == if outcome.Inserted? then Put(old(Value()), s) else old(Value())
    {
      if !Bounded(s.externalId, MAX_EXTERNAL_SESSION_ID_LEN) { return Invalid; }
      var key := KeyOf(s);
      if key in index { return Replay(sessions[index[key]]); }
      if |sessions| >= MAX_SESSIONS { return AtCapacity; }
      var ok := UpsertSession(s);
      outcome := Inserted;
    }

    method NextEventSequence(id: string) returns (n: nat)
      ensures n == NextSequence(Value(), id)
    {
      n := if id in events && events[id] != [] then events[id][|events[id]| - 1].sequence + 1 else 1;
    }

    method AppendEvent(e: Event) returns (refused: Option<AppendError>)
      modifies this
      ensures Value() == Append(old(Value()), e).0 && refused == Append(old(Value()), e).1
    {
      if e.sessionId !in sessions { return Some(UnknownSession); }
      var window := if e.sessionId in events then events[e.sessionId] else [];
      events := events[e.sessionId := window];
      if window != [] {
        if e.sequence != window[|window| - 1].sequence + 1 { return Some(WrongSequence); }
      } else if e.sequence != 1 {
        return Some(WrongSequence);
      }
      window := window + [e];
      if |window| > MAX_EVENTS_PER_SESSION { window := window[|window| - MAX_EVENTS_PER_SESSION..]; }
      events := events[e.sessionId := window];
      refused := None;
    }

    method RemoveSession(id: string) returns (ok: bool)
      modifies this
      ensures ok <==> id in old(sessions)
      ensures Value() == if id in old(sessions) then Remove(old(Value()), id) else old(Value())
    {
      if id !in sessions { return false; }
      var s := sessions[id];
      sessions := sessions - {id};
      index := index - {KeyOf(s)};
      events := events - {id};
      ok := true;
    }

    method InsertRows(rows: seq<Session>) returns (ok: bool)
      requires sessions == map[] && index == map[]
      modifies this
      ensures ok <==> Restorable(rows)
      ensures ok ==> Value() == old(Value()).(sessions := Indexed(rows), index := KeyIndex(rows))
    {
      for i := 0 to |rows|
        invariant Restorable(rows[..i])
        invariant Value() == old(Value()).(sessions := Indexed(rows[..i]), index := KeyIndex(rows[..i]))
      {
        assert rows[..i + 1][..i] == rows[..i] && rows[..i + 1] == rows[..i] + [rows[i]];
        var stored := UpsertSession(rows[i]);
        if !stored {
          assert rows[i] in rows;
          return false;
        }
      }
      assert rows[..|rows|] == rows;
      ok := true;
    }

    method FillWindows(sorted: seq<Event>)
      requires events == map[]
      modifies this
      ensures Value() == old(Value()).(events := Windows(sorted))
    {
      for i := 0 to |sorted|
        invariant events == Windows(sorted[..i])
        invariant sessions == old(sessions) && index == old(index) && idempotency == old(idempotency)
      {
        assert sorted[..i + 1][..i] == sorted[..i];
        var e := sorted[i];
        var window := (if e.sessionId in events then events[e.sessionId] else []) + [e];
        if |window| > MAX_EVENTS_PER_SESSION { window := window[|window| - MAX_EVENTS_PER_SESSION..]; }
        events := events[e.sessionId := window];
      }
      assert sorted[..|sorted|] == sorted;
    }

    /** Refused exactly when a kept row has an unusable external id. */
    method Restore(rows: seq<Session>, loaded: seq<Event>) returns (ok: bool)
      modifies this
      ensures ok <==> Restorable(Kept(rows))
      ensures ok ==> Value() == Restored(rows, loaded, old(idempotency))
      ensures ok && UniqueRows(rows) ==> KeepsBest(rows, sessions)
    {
      sessions, index, events := map[], map[], map[];
      var kept := Sort(rows, RestoreOrder());
      if |kept| > MAX_SESSIONS { kept := kept[..MAX_SESSIONS]; }
      ok := InsertRows(kept);
      if ok { FillWindows(Sort(Filter(loaded, KnownTo(sessions)), EventOrder())); }
      if UniqueRows(rows) { RestoreKeepsBest(rows, loaded, idempotency); }
    }

    method ClearLatestMetrics()
      modifies this
      ensures Value() == old(Value()).(sessions := Unmeasured(old(sessions)))
    {
      var ids := Enumerate(sessions);
      ghost var was := sessions;
      for i := 0 to |ids|
        invariant sessions.Keys == was.Keys && index == old(index) && events == old(events)
        invariant idempotency == old(idempotency)
        invariant forall k :: 0 <= k < i ==> sessions[ids[k]] == was[ids[k]].(metric := None)
        invariant forall k :: i <= k < |ids| ==> sessions[ids[k]] == was[ids[k]]
      {
        sessions := sessions[ids[i] := sessions[ids[i]].(metric := None)];
      }
      assert forall id :: id in was ==> id in ids;
      assert sessions == Unmeasured(was);
    }
  }
}
