/** Restoring the registry from the repository's rows, and what a restart gives back. */
module Restart {
  import opened Sequences
  import Lex
  import opened Sorting
  import opened Protocol
  import opened Registry
  import opened Views
  import opened HostCore
  import opened HostSync
  import opened HostRuns

  // ---------------------------------------------------------------- restore, as a value

  /** Live or unresolved sessions come first. */
  function RestorePriority(s: Session): nat {
    if !IsTerminal(s.status) || !s.attention.NoAttention? then 0 else 1
  }

  function RestoreOrder(): Order<Session> {
    (a: Session, b: Session) =>
      || RestorePriority(a) < RestorePriority(b)
      || (RestorePriority(a) == RestorePriority(b) && a.lastEventAt >= b.lastEventAt)
  }

  function EventOrder(): Order<Event> {
    (a: Event, b: Event) =>
      Lex.Less(a.sessionId, b.sessionId) || (a.sessionId == b.sessionId && a.sequence <= b.sequence)
  }

  function Truncated<T>(s: seq<T>, n: nat): seq<T> { if |s| <= n then s else s[..n] }

  /** The sessions kept at capacity, most important first. */
  function Kept(rows: seq<Session>): seq<Session> { Truncated(Sort(rows, RestoreOrder()), MAX_SESSIONS) }

  /** Later sessions of a list win. */
  function KeyIndex(list: seq<Session>): map<string, string> {
    if list == [] then map[] else KeyIndex(list[..|list| - 1])[KeyOf(list[|list| - 1]) := list[|list| - 1].id]
  }

  function Windows(events: seq<Event>): map<string, seq<Event>> {
    if events == [] then map[]
    else
      var before, e := Windows(events[..|events| - 1]), events[|events| - 1];
      before[e.sessionId := Cap((if e.sessionId in before then before[e.sessionId] else []) + [e])]
  }

  predicate Restorable(list: seq<Session>) {
    forall s :: s in list ==> Bounded(s.externalId, MAX_EXTERNAL_SESSION_ID_LEN)
  }

  function KnownTo(sessions: map<string, Session>): Event -> bool { (e: Event) => e.sessionId in sessions }

  function Restored(rows: seq<Session>, events: seq<Event>, keys: set<string>): Registry {
    var sessions := Indexed(Kept(rows));
    Registry(sessions, KeyIndex(Kept(rows)), Windows(Sort(Filter(events, KnownTo(sessions)), EventOrder())), keys)
  }

  // ---------------------------------------------------------------- sessions and index

  lemma OrdersAreTotal()
    ensures Preorder(RestoreOrder()) && Preorder(EventOrder())
  {
    var leq := EventOrder();
    forall a, b ensures leq(a, b) || leq(b, a) { Lex.Total(a.sessionId, b.sessionId); }
    forall a, b, c | leq(a, b) && leq(b, c) ensures leq(a, c) {
      if Lex.Less(a.sessionId, b.sessionId) && Lex.Less(b.sessionId, c.sessionId) {
        Lex.Transitive(a.sessionId, b.sessionId, c.sessionId);
      }
    }
  }

  /** A list that holds exactly the values of a map. */
  ghost predicate ListsSessions(rows: seq<Session>, sessions: map<string, Session>) {
    && Distinct(rows)
    && (forall s :: s in rows ==> s.id in sessions && sessions[s.id] == s)
    && (forall id :: id in sessions ==> sessions[id].id == id && sessions[id] in rows)
  }

  lemma {:induction false} IndexedHas(list: seq<Session>, id: string)
    ensures id in Indexed(list) ==> Indexed(list)[id] in list && Indexed(list)[id].id == id
    ensures (exists s :: s in list && s.id == id) ==> id in Indexed(list)
  {
    if list != [] {
      var init, last := list[..|list| - 1], list[|list| - 1];
      IndexedHas(init, id);
      assert list == init + [last];
    }
  }

  lemma IndexedIs(list: seq<Session>, sessions: map<string, Session>)
    requires ListsSessions(list, sessions)
    ensures Indexed(list) == sessions
  {
    forall id ensures id in Indexed(list) <==> id in sessions
              ensures id in sessions ==> Indexed(list)[id] == sessions[id] {
      IndexedHas(list, id);
    }
  }

  lemma {:induction false} KeyIndexHas(list: seq<Session>, k: string)
    ensures k in KeyIndex(list) ==> exists s :: s in list && KeyOf(s) == k && KeyIndex(list)[k] == s.id
    ensures (exists s :: s in list && KeyOf(s) == k) ==> k in KeyIndex(list)
  {
    if list != [] {
      var init, last := list[..|list| - 1], list[|list| - 1];
      KeyIndexHas(init, k);
      assert list == init + [last];
      assert forall s :: s in list <==> s in init || s == last;
    }
  }

  lemma KeyIndexIs(r: Registry, list: seq<Session>)
    requires IndexExact(r) && ListsSessions(list, r.sessions)
    ensures KeyIndex(list) == r.index
  {
    forall k ensures k in KeyIndex(list) <==> k in r.index
             ensures k in r.index ==> KeyIndex(list)[k] == r.index[k] {
      KeyIndexHas(list, k);
      if k in KeyIndex(list) {
        var s :| s in list && KeyOf(s) == k && KeyIndex(list)[k] == s.id;
        assert Keys(r.sessions)[s.id] == k;
      }
      if k in r.index {
        var id := r.index[k];
        assert id in Keys(r.sessions) && KeyOf(r.sessions[id]) == k;
      }
    }
  }

  lemma {:induction false} ListedAreCounted(rows: seq<Session>, sessions: map<string, Session>)
    requires ListsSessions(rows, sessions)
    ensures |rows| == |sessions|
  {
    if rows == [] {
      assert forall id :: id in sessions ==> sessions[id] in rows;
      assert sessions == map[];
    } else {
      var init, last := rows[..|rows| - 1], rows[|rows| - 1];
      assert rows == init + [last];
      var fewer := sessions - {last.id};
      assert last !in init;
      ListedAreCounted(init, fewer);
      assert sessions.Keys == fewer.Keys + {last.id};
      assert |sessions.Keys| == |fewer.Keys| + 1;
    }
  }

  lemma KeptListsAll(rows: seq<Session>, sessions: map<string, Session>)
    requires ListsSessions(rows, sessions) && |sessions| <= MAX_SESSIONS
    ensures ListsSessions(Kept(rows), sessions)
  {
    ListedAreCounted(rows, sessions);
    OrdersAreTotal();
    SortSorts(rows, RestoreOrder());
  }

  // ---------------------------------------------------------------- who survives a full restore

  /** Still going, or waiting for the user. */
  predicate Matters(s: Session) {
    || s.status.Starting? || s.status.Running? || s.status.Waiting? || s.status.Paused?
    || s.attention != NoAttention
  }

  predicate RanksBefore(s: Session, t: Session) {
    (Matters(s) && !Matters(t)) || (Matters(s) == Matters(t) && s.lastEventAt >= t.lastEventAt)
  }

  /** As many rows as fit are kept, and none that is left out ranks above one that is kept. */
  ghost predicate KeepsBest(rows: seq<Session>, sessions: map<string, Session>) {
    && |sessions| == (if |rows| <= 128 then |rows| else 128)
    && (forall id :: id in sessions ==> sessions[id] in rows && sessions[id].id == id)
    && (forall id, t :: id in sessions && t in rows && t.id !in sessions ==> RanksBefore(sessions[id], t))
  }

  ghost predicate UniqueRows(rows: seq<Session>) {
    forall i, j :: 0 <= i < j < |rows| ==> rows[i].id != rows[j].id
  }

  lemma UniqueRow(rows: seq<Session>, s: Session, t: Session)
    requires UniqueRows(rows) && s in rows && t in rows && s.id == t.id
    ensures s == t
  {
    var i :| 0 <= i < |rows| && rows[i] == s;
    var j :| 0 <= j < |rows| && rows[j] == t;
  }

  lemma KeptIndexed(rows: seq<Session>)
    requires UniqueRows(rows)
    ensures ListsSessions(Kept(rows), Indexed(Kept(rows)))
  {
    var kept, sorted := Kept(rows), Sort(rows, RestoreOrder());
    OrdersAreTotal();
    SortSorts(rows, RestoreOrder());
    assert Distinct(rows);
    assert forall s :: s in kept ==> s in sorted;
    forall s | s in kept ensures s.id in Indexed(kept) && Indexed(kept)[s.id] == s {
      IndexedHas(kept, s.id);
      UniqueRow(rows, s, Indexed(kept)[s.id]);
    }
    forall id | id in Indexed(kept) ensures Indexed(kept)[id].id == id && Indexed(kept)[id] in kept {
      IndexedHas(kept, id);
    }
  }

  lemma KeptRankBefore(rows: seq<Session>, s: Session, t: Session)
    requires s in Kept(rows) && t in rows && t !in Kept(rows)
    ensures RanksBefore(s, t)
  {
    var kept, sorted := Kept(rows), Sort(rows, RestoreOrder());
    OrdersAreTotal();
    SortSorts(rows, RestoreOrder());
    var i :| 0 <= i < |kept| && kept[i] == s;
    var j :| 0 <= j < |sorted| && sorted[j] == t;
    assert forall k :: 0 <= k < |kept| ==> kept[k] in kept && sorted[k] == kept[k];
    assert i < j && RestoreOrder()(sorted[i], sorted[j]);
  }

  /** Of more rows than fit, the live and unresolved stay first, then the most recently active. */
  lemma RestoreKeepsBest(rows: seq<Session>, events: seq<Event>, keys: set<string>)
    requires UniqueRows(rows)
    ensures KeepsBest(rows, Restored(rows, events, keys).sessions)
  {
    var kept := Kept(rows);
    var sessions := Indexed(kept);
    KeptIndexed(rows);
    ListedAreCounted(kept, sessions);
    forall id, t | id in sessions && t in rows && t.id !in sessions ensures RanksBefore(sessions[id], t) {
      KeptRankBefore(rows, sessions[id], t);
    }
  }

  // ---------------------------------------------------------------- events

  lemma CapSnoc(w: seq<Event>, e: Event)
    ensures Cap(Cap(w) + [e]) == Cap(w + [e])
  {
  }

  /** Each window is the capped sublist of its session's events. */
  lemma {:induction false} WindowOfSession(events: seq<Event>, id: string)
    ensures id in Windows(events) <==> Filter(events, IsOf(id)) != []
    ensures id in Windows(events) ==> Windows(events)[id] == Cap(Filter(events, IsOf(id)))
  {
    if events != [] {
      var init, e := events[..|events| - 1], events[|events| - 1];
      WindowOfSession(init, id);
      WindowGrows(Windows(init), Windows(events), e, id);
      assert events == init + [e];
      FilterLast(events, init, e, IsOf(id));
      CapSnoc(Filter(init, IsOf(id)), e);
    }
  }

  lemma WindowGrows(before: map<string, seq<Event>>, after: map<string, seq<Event>>, e: Event, id: string)
    requires after == before[e.sessionId := Cap((if e.sessionId in before then before[e.sessionId] else []) + [e])]
    ensures e.sessionId != id ==> (id in after <==> id in before) && (id in after ==> after[id] == before[id])
    ensures e.sessionId == id ==> id in after && after[id] == Cap((if id in before then before[id] else []) + [e])
  {
  }

  ghost predicate BySequence(s: seq<Event>) {
    forall i, j :: 0 <= i < j < |s| ==> s[i].sequence < s[j].sequence
  }

  lemma SplitLast(a: seq<Event>, e: Event)
    requires BySequence(a) && a != []
    ensures e in a <==> e == a[|a| - 1] || e in a[..|a| - 1]
    ensures e in a[..|a| - 1] ==> e.sequence < a[|a| - 1].sequence
  {
    assert a == a[..|a| - 1] + [a[|a| - 1]];
  }

  ghost predicate SameMembers(a: seq<Event>, b: seq<Event>) { forall e :: e in a <==> e in b }

  lemma SameEnds(a: seq<Event>, b: seq<Event>)
    requires BySequence(a) && BySequence(b) && SameMembers(a, b) && a != []
    ensures b != [] && a[|a| - 1] == b[|b| - 1]
  {
    assert a[|a| - 1] in b;
    SplitLast(a, b[|b| - 1]);
    SplitLast(b, a[|a| - 1]);
  }

  lemma SameBeginnings(a: seq<Event>, b: seq<Event>)
    requires BySequence(a) && BySequence(b) && SameMembers(a, b) && a != [] && b != [] && a[|a| - 1] == b[|b| - 1]
    ensures SameMembers(a[..|a| - 1], b[..|b| - 1])
  {
    var ia, ib := a[..|a| - 1], b[..|b| - 1];
    forall e ensures e in ia <==> e in ib { SplitLast(a, e); SplitLast(b, e); }
  }

  /** Two lists of the same events in strict sequence order are the same list. */
  lemma {:induction false} SequenceOrderIsUnique(a: seq<Event>, b: seq<Event>)
    requires BySequence(a) && BySequence(b) && SameMembers(a, b)
    ensures a == b
  {
    if a != [] {
      SameEnds(a, b);
      SameBeginnings(a, b);
      SequenceOrderIsUnique(a[..|a| - 1], b[..|b| - 1]);
      assert a == a[..|a| - 1] + [a[|a| - 1]];
      assert b == b[..|b| - 1] + [b[|b| - 1]];
    } else if b != [] {
      SameEnds(b, a);
    }
  }

  /** A list that holds exactly the events of all windows, each once. */
  ghost predicate ListsEvents(list: seq<Event>, events: map<string, seq<Event>>) {
    Distinct(list) && forall e :: e in list <==> e.sessionId in events && e in events[e.sessionId]
  }

  lemma {:induction false} FilterKeepsOrder(s: seq<Event>, id: string)
    requires Ordered(s, EventOrder()) && Distinct(s)
    requires forall x, y :: x in s && y in s && x.sessionId == y.sessionId && x.sequence == y.sequence ==> x == y
    ensures BySequence(Filter(s, IsOf(id)))
  {
    if s != [] {
      var init, last := s[..|s| - 1], s[|s| - 1];
      FilterKeepsOrder(init, id);
      var kept := Filter(init, IsOf(id));
      if last.sessionId == id {
        forall i | 0 <= i < |kept| ensures kept[i].sequence < last.sequence {
          assert kept[i] in kept;
          var k :| 0 <= k < |init| && init[k] == kept[i];
          assert EventOrder()(s[k], last) && s[k] != last && s[k] in s;
          Lex.Irreflexive(id);
        }
      }
    }
  }

  lemma WindowInOrder(id: string, w: seq<Event>)
    requires WindowOk(id, w)
    ensures BySequence(w)
    ensures forall x, y :: x in w && y in w && x.sequence == y.sequence ==> x == y
  {
  }

  lemma RestoredWindow(id: string, sorted: seq<Event>, events: map<string, seq<Event>>)
    requires forall k :: k in events ==> WindowOk(k, events[k])
    requires ListsEvents(sorted, events) && Ordered(sorted, EventOrder())
    ensures id in Windows(sorted) <==> id in events
    ensures id in events ==> Windows(sorted)[id] == events[id]
  {
    WindowOfSession(sorted, id);
    var kept := Filter(sorted, IsOf(id));
    forall x, y | x in sorted && y in sorted && x.sessionId == y.sessionId && x.sequence == y.sequence ensures x == y {
      WindowInOrder(x.sessionId, events[x.sessionId]);
    }
    FilterKeepsOrder(sorted, id);
    if id in events {
      var w := events[id];
      WindowInOrder(id, w);
      assert forall e :: e in w ==> e.sessionId == id;
      SequenceOrderIsUnique(kept, w);
    } else {
      FilterNone(sorted, IsOf(id));
    }
  }

  lemma WindowsRestored(list: seq<Event>, sessions: map<string, Session>, events: map<string, seq<Event>>)
    requires forall k :: k in events ==> k in sessions && WindowOk(k, events[k])
    requires ListsEvents(list, events)
    ensures Windows(Sort(Filter(list, KnownTo(sessions)), EventOrder())) == events
  {
    FilterShrinks(list, KnownTo(sessions));
    assert Filter(list, KnownTo(sessions)) == list;
    OrdersAreTotal();
    SortSorts(list, EventOrder());
    var sorted := Sort(list, EventOrder());
    forall id ensures id in Windows(sorted) <==> id in events
              ensures id in events ==> Windows(sorted)[id] == events[id] {
      RestoredWindow(id, sorted, events);
    }
  }

  // ---------------------------------------------------------------- main results

  /** Restoring the rows of a registry, listed in any order, rebuilds its sessions, index and windows. */
  lemma RestoreRebuilds(idFor: IdFor, r: Registry, rows: seq<Session>, events: seq<Event>, keys: set<string>)
    requires RegistryOk(idFor, r) && ListsSessions(rows, r.sessions) && ListsEvents(events, r.events)
    ensures Restorable(Kept(rows))
    ensures Restored(rows, events, keys) == r.(idempotency := keys)
  {
    KeptListsAll(rows, r.sessions);
    IndexedIs(Kept(rows), r.sessions);
    KeyIndexIs(r, Kept(rows));
    WindowsRestored(events, r.sessions, r.events);
  }

  /** Restart transparency: after every run whose refused updates and prunes left no mark, restoring
      whatever listing of the repository's rows gives back the live registry. */
  lemma RestartIsTransparent(idFor: IdFor, h: Host, turns: seq<Turn>, rows: seq<Session>, events: seq<Event>,
                             keys: set<string>)
    requires Injective(idFor) && CoreOk(idFor, h) && RepoSync(h) && ValidRun(h, turns, idFor)
    requires SavesAll(h, turns, idFor)
    requires ListsSessions(rows, Run(h, turns, idFor).repo.sessions)
    requires ListsEvents(events, Run(h, turns, idFor).repo.events)
    ensures var live := Run(h, turns, idFor).reg;
            && Restorable(Kept(rows)) && Restored(rows, events, keys) == live.(idempotency := keys)
            && RegistryOk(idFor, Restored(rows, events, keys))
  {
    RunKeepsCore(idFor, h, turns);
    RunStaysSaved(idFor, h, turns);
    RestoreRebuilds(idFor, Run(h, turns, idFor).reg, rows, events, keys);
  }
}
