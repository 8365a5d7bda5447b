/** Every reducer action keeps the renderer's mirrors in step and acts on the view as its payload says. */
module RendererLaws {
  import opened Options
  import opened Sequences
  import opened Protocol
  import opened Views
  import opened Renderer

  // ---------------------------------------------------------------- suffixes

  lemma SuffixTrans<T>(a: seq<T>, b: seq<T>, c: seq<T>)
    requires IsSuffix(a, b) && IsSuffix(b, c)
    ensures IsSuffix(a, c)
  {
    assert c[|c| - |a|..] == c[|c| - |b|..][|b| - |a|..];
  }

  lemma LastIsSuffix<T>(s: seq<T>, n: nat)
    ensures IsSuffix(Last(s, n), s) && |Last(s, n)| <= n
  {
    assert s[0..] == s;
  }

  lemma SuffixSnoc<T>(a: seq<T>, b: seq<T>, x: T)
    requires IsSuffix(a, b)
    ensures IsSuffix(a + [x], b + [x])
  {
    assert (b + [x])[|b| - |a|..] == b[|b| - |a|..] + [x];
  }

  lemma SuffixLast<T>(a: seq<T>, b: seq<T>, n: nat)
    requires IsSuffix(a, b)
    ensures IsSuffix(Last(a, n), Last(b, n))
  {
    var k, m := |Last(a, n)|, |Last(b, n)|;
    assert Last(a, n) == a[|a| - k..] && Last(b, n) == b[|b| - m..];
    assert b[|b| - |a|..][|a| - k..] == b[|b| - k..];
    assert b[|b| - m..][m - k..] == b[|b| - k..];
  }

  lemma LastSnoc<T>(s: seq<T>, x: T, n: nat)
    requires n >= 1
    ensures Last(Last(s, n) + [x], n) == Last(s + [x], n)
  {
  }

  lemma FilterSuffix<T(!new)>(a: seq<T>, b: seq<T>, keep: T -> bool)
    requires IsSuffix(a, b)
    ensures IsSuffix(Filter(a, keep), Filter(b, keep))
  {
    var front := b[..|b| - |a|];
    assert b == front + a;
    FilterConcat(front, a, keep);
  }

  // ---------------------------------------------------------------- order and snapshot

  lemma {:induction false} ListedAt(sessions: map<string, Session>, order: seq<string>)
    requires forall id :: id in order ==> id in sessions
    ensures |Listed(sessions, order)| == |order|
    ensures forall i :: 0 <= i < |order| ==> Listed(sessions, order)[i] == sessions[order[i]]
  {
    if order != [] {
      var init := order[..|order| - 1];
      assert order == init + [order[|order| - 1]];
      ListedAt(sessions, init);
    }
  }

  lemma {:induction false} IndexedKeys(list: seq<Session>)
    ensures forall id :: id in Indexed(list) <==> id in IdsOf(list)
    ensures forall id :: id in Indexed(list) ==> Indexed(list)[id].id == id && Indexed(list)[id] in list
  {
    if list != [] {
      var init, last := list[..|list| - 1], list[|list| - 1];
      IndexedKeys(init);
      assert list == init + [last];
      assert IdsOf(list) == IdsOf(init) + [last.id];
    }
  }

  lemma {:induction false} IndexedAt(list: seq<Session>, i: nat)
    requires i < |list| && Distinct(IdsOf(list))
    ensures list[i].id in Indexed(list) && Indexed(list)[list[i].id] == list[i]
  {
    var init, last := list[..|list| - 1], list[|list| - 1];
    assert forall j :: 0 <= j < |init| ==> IdsOf(init)[j] == IdsOf(list)[j];
    if i < |list| - 1 {
      IndexedAt(init, i);
      assert IdsOf(list)[i] != IdsOf(list)[|list| - 1];
    }
  }

  lemma IndexedListsBack(list: seq<Session>)
    requires Distinct(IdsOf(list))
    ensures Listed(Indexed(list), IdsOf(list)) == list
  {
    IndexedKeys(list);
    ListedAt(Indexed(list), IdsOf(list));
    forall i | 0 <= i < |list| ensures Listed(Indexed(list), IdsOf(list))[i] == list[i] { IndexedAt(list, i); }
  }

  lemma UpsertKeepsOrder(st: Native, s: Session)
    requires OrderOk(st.sessions, st.order)
    ensures OrderOk(Upserted(st, s).sessions, Upserted(st, s).order)
  {
    var order := Upserted(st, s).order;
    assert forall i :: 0 <= i < |st.order| ==> st.order[i] in st.order;
  }

  lemma {:induction false} FilterKeepsDistinct<T(!new)>(s: seq<T>, keep: T -> bool)
    requires Distinct(s)
    ensures Distinct(Filter(s, keep))
  {
    if s != [] {
      var init, last := s[..|s| - 1], s[|s| - 1];
      FilterKeepsDistinct(init, keep);
      var kept := Filter(init, keep);
      assert forall i :: 0 <= i < |kept| ==> kept[i] in kept && kept[i] in init;
    }
  }

  lemma RemoveKeepsOrder(st: Native, id: string)
    requires OrderOk(st.sessions, st.order)
    ensures OrderOk(Removed(st, id).sessions, Removed(st, id).order)
  {
    FilterKeepsDistinct(st.order, (x: string) => x != id);
  }

  lemma MeasureKeepsOrder(st: Native, frame: MetricsFrame)
    requires OrderOk(st.sessions, st.order) && SnapshotMirrors(st)
    ensures OrderOk(Measured(st, frame).sessions, st.order) && SnapshotMirrors(Measured(st, frame))
  {
    var after := Measured(st, frame);
    if st.snapshot.Some? {
      ListedAt(st.sessions, st.order);
      ListedAt(after.sessions, st.order);
      assert after.snapshot.value.sessions == Listed(after.sessions, st.order);
    }
  }

  // ---------------------------------------------------------------- events

  lemma AppendAgrees<T(!new)>(events: seq<T>, own: seq<T>, x: T, keep: T -> bool, cap: nat, n: nat)
    requires IsSuffix(Last(Filter(events, keep), n), own) && n >= 1
    ensures IsSuffix(Last(Filter(Last(events + [x], cap), keep), n), if keep(x) then Last(own + [x], n) else own)
  {
    var held := Filter(events, keep);
    var longer := Filter(events + [x], keep);
    var after := Filter(Last(events + [x], cap), keep);
    FilterSnoc(events, x, keep);
    LastIsSuffix(events + [x], cap);
    FilterSuffix(Last(events + [x], cap), events + [x], keep);
    SuffixLast(after, longer, n);
    if keep(x) {
      LastSnoc(held, x, n);
      SuffixSnoc(Last(held, n), own, x);
      SuffixLast(Last(held, n) + [x], own + [x], n);
      SuffixTrans(Last(after, n), Last(longer, n), Last(own + [x], n));
    } else {
      assert longer == held;
      SuffixTrans(Last(after, n), Last(longer, n), own);
    }
  }

  lemma AppendKeepsEvents(st: Native, e: Event, id: string)
    requires EventsAgree(st.events, st.bySession, id)
    ensures EventsAgree(Appended(st, e).events, Appended(st, e).bySession, id)
  {
    AppendAgrees(st.events, RetainedFor(st.bySession, id), e, IsOf(id), MAX_EVENTS, MAX_SESSION_EVENTS);
  }

  lemma {:induction false} FilterUnder<T(!new)>(s: seq<T>, stay: T -> bool, keep: T -> bool)
    requires forall x :: keep(x) ==> stay(x)
    ensures Filter(Filter(s, stay), keep) == Filter(s, keep)
  {
    if s != [] {
      var init, last := s[..|s| - 1], s[|s| - 1];
      FilterUnder(init, stay, keep);
      var kept := Filter(init, stay);
      FilterSnoc(kept, last, keep);
      assert kept + [] == kept;
    }
  }

  lemma RemoveKeepsEvents(events: seq<Event>, bySession: map<string, seq<Event>>, gone: string, id: string)
    requires EventsAgree(events, bySession, id)
    ensures EventsAgree(Filter(events, IsNotOf(gone)), bySession - {gone}, id)
  {
    if id == gone {
      FilterNone(Filter(events, IsNotOf(gone)), IsOf(id));
    } else {
      FilterUnder(events, IsNotOf(gone), IsOf(id));
      assert RetainedFor(bySession - {gone}, id) == RetainedFor(bySession, id);
    }
  }

  lemma RemoveKeepsCaps(st: Native, id: string)
    requires EventCaps(st)
    ensures EventCaps(Removed(st, id))
  {
    FilterShrinks(st.events, IsNotOf(id));
  }

  // ---------------------------------------------------------------- snapshots

  /** Every event that survives the trim belongs to a session of the snapshot. */
  ghost predicate EventsBelong(s: Snapshot, events: seq<Event>) {
    forall e :: e in Last(events, MAX_EVENTS) ==> e.sessionId in IdsOf(s.sessions)
  }

  function Windows(ids: set<string>, kept: seq<Event>): map<string, seq<Event>> {
    map id | id in ids :: Last(EventsOf(kept, id), MAX_SESSION_EVENTS)
  }

  lemma WindowAgrees(ids: set<string>, kept: seq<Event>, id: string)
    ensures EventsAgree(kept, Windows(ids, kept), id) <==> id in ids || EventsOf(kept, id) == []
  {
    var own := EventsOf(kept, id);
    if id in ids {
      var w := Last(own, MAX_SESSION_EVENTS);
      assert w[0..] == w;
    }
  }

  lemma AllWindowsAgree(ids: set<string>, kept: seq<Event>)
    ensures (forall id :: EventsAgree(kept, Windows(ids, kept), id)) <==> (forall e :: e in kept ==> e.sessionId in ids)
  {
    if forall e :: e in kept ==> e.sessionId in ids {
      forall id ensures EventsAgree(kept, Windows(ids, kept), id) {
        WindowAgrees(ids, kept, id);
        if id !in ids { FilterNone(kept, IsOf(id)); }
      }
    }
    if forall id :: EventsAgree(kept, Windows(ids, kept), id) {
      forall e | e in kept ensures e.sessionId in ids {
        assert EventsAgree(kept, Windows(ids, kept), e.sessionId);
        WindowAgrees(ids, kept, e.sessionId);
        assert e in EventsOf(kept, e.sessionId);
      }
    }
  }

  lemma SnapshotEvents(st: Native, s: Snapshot, sequence: nat, events: seq<Event>)
    ensures EventCaps(SnapshotState(st, s, sequence, events))
    ensures EventsMirror(SnapshotState(st, s, sequence, events)) <==> EventsBelong(s, events)
  {
    var after := SnapshotState(st, s, sequence, events);
    IndexedKeys(s.sessions);
    AllWindowsAgree(Indexed(s.sessions).Keys, Last(events, MAX_EVENTS));
    assert after.bySession == Windows(Indexed(s.sessions).Keys, Last(events, MAX_EVENTS));
  }

  lemma SnapshotOrder(st: Native, s: Snapshot, sequence: nat, events: seq<Event>)
    ensures var after := SnapshotState(st, s, sequence, events);
            (OrderOk(after.sessions, after.order) && SnapshotMirrors(after)) <==> Distinct(IdsOf(s.sessions))
  {
    IndexedKeys(s.sessions);
    if Distinct(IdsOf(s.sessions)) { IndexedListsBack(s.sessions); }
  }

  /** A snapshot leaves the mirrors in step exactly when its session ids are distinct and its events are theirs. */
  lemma SnapshotMirrorsExactly(st: Native, s: Snapshot, sequence: nat, events: seq<Event>)
    ensures MirrorsOk(SnapshotState(st, s, sequence, events)) <==>
              Distinct(IdsOf(s.sessions)) && EventsBelong(s, events)
  {
    SnapshotEvents(st, s, sequence, events);
    SnapshotOrder(st, s, sequence, events);
  }

  // ---------------------------------------------------------------- every action

  /** What an action must bring along: only snapshots carry a condition. */
  ghost predicate Coherent(action: Action) {
    match action
    case ApplyBootstrap(s, _, events) => s.version == PROTOCOL_VERSION ==>
      Distinct(IdsOf(s.sessions)) && EventsBelong(s, events)
    case ApplyFrame(f) => f.payload.FullSnapshot? ==> Distinct(IdsOf(f.payload.snapshot.sessions))
    case _ => true
  }

  predicate SameEvents(a: Native, b: Native) { a.events == b.events && a.bySession == b.bySession }

  lemma EventsStay(st: Native, after: Native)
    requires EventCaps(st) && EventsMirror(st) && SameEvents(st, after)
    ensures EventCaps(after) && EventsMirror(after)
  {
    forall x ensures EventsAgree(after.events, after.bySession, x) { assert EventsAgree(st.events, st.bySession, x); }
  }

  lemma RemoveKeepsMirrors(st: Native, id: string)
    requires EventCaps(st) && EventsMirror(st) && id in st.sessions
    ensures EventCaps(Removed(st, id)) && EventsMirror(Removed(st, id))
  {
    RemoveKeepsCaps(st, id);
    var after := Removed(st, id);
    forall x ensures EventsAgree(after.events, after.bySession, x) {
      assert EventsAgree(st.events, st.bySession, x);
      RemoveKeepsEvents(st.events, st.bySession, id, x);
    }
  }

  lemma AppendKeepsMirrors(st: Native, e: Event)
    requires EventCaps(st) && EventsMirror(st)
    ensures EventCaps(Appended(st, e)) && EventsMirror(Appended(st, e))
  {
    forall x ensures EventsAgree(Appended(st, e).events, Appended(st, e).bySession, x) {
      assert EventsAgree(st.events, st.bySession, x);
      AppendKeepsEvents(st, e, x);
    }
  }

  lemma FrameEvents(st: Native, f: Frame)
    requires !f.payload.FullSnapshot?
    ensures SameEvents(AppliedFrame(st, f),
              if f.payload.SessionRemove? then Removed(st, f.payload.sessionId)
              else if f.payload.SessionEvent? then Appended(st, f.payload.event)
              else st)
  {
  }

  lemma FrameKeepsEvents(st: Native, f: Frame)
    requires EventCaps(st) && EventsMirror(st) && !f.payload.FullSnapshot?
    ensures EventCaps(AppliedFrame(st, f)) && EventsMirror(AppliedFrame(st, f))
  {
    FrameEvents(st, f);
    var after := AppliedFrame(st, f);
    if f.payload.SessionRemove? && f.payload.sessionId in st.sessions {
      RemoveKeepsMirrors(st, f.payload.sessionId);
      EventsStay(Removed(st, f.payload.sessionId), after);
    } else if f.payload.SessionEvent? {
      AppendKeepsMirrors(st, f.payload.event);
      EventsStay(Appended(st, f.payload.event), after);
    } else {
      EventsStay(st, after);
    }
  }

  lemma UpsertFrameKeepsOrder(st: Native, n: nat, s: Session)
    requires OrderOk(st.sessions, st.order) && SnapshotMirrors(st) && SettingsMirror(st)
    ensures var after := AppliedFrame(st, Frame(n, SessionUpsert(s)));
            OrderOk(after.sessions, after.order) && SnapshotMirrors(after) && SettingsMirror(after)
  {
    UpsertKeepsOrder(st, s);
  }

  lemma RemoveFrameKeepsOrder(st: Native, n: nat, id: string)
    requires OrderOk(st.sessions, st.order) && SnapshotMirrors(st) && SettingsMirror(st)
    ensures var after := AppliedFrame(st, Frame(n, SessionRemove(id)));
            OrderOk(after.sessions, after.order) && SnapshotMirrors(after) && SettingsMirror(after)
  {
    RemoveKeepsOrder(st, id);
  }

  lemma FrameKeepsOrder(st: Native, f: Frame)
    requires OrderOk(st.sessions, st.order) && SnapshotMirrors(st) && SettingsMirror(st) && !f.payload.FullSnapshot?
    ensures var after := AppliedFrame(st, f);
            OrderOk(after.sessions, after.order) && SnapshotMirrors(after) && SettingsMirror(after)
  {
    if !ChangesSessions(f.payload) {
      OthersKeepOrder(st, f);
    } else {
      match f.payload
      case SessionUpsert(s) => UpsertFrameKeepsOrder(st, f.sequence, s);
      case SessionRemove(id) => RemoveFrameKeepsOrder(st, f.sequence, id);
      case Metrics(m) => MeasureKeepsOrder(st, m);
    }
  }

  /** Settings and adapters change in the snapshot too; other frames leave all of this alone. */
  lemma OthersKeepOrder(st: Native, f: Frame)
    requires SnapshotMirrors(st) && SettingsMirror(st) && !ChangesSessions(f.payload)
    ensures var after := AppliedFrame(st, f);
            && after.sessions == st.sessions && after.order == st.order
            && SnapshotMirrors(after) && SettingsMirror(after)
  {
    FrameLeavesSessions(st, f);
    SessionsStayListed(st, AppliedFrame(st, f));
  }

  predicate ChangesSessions(p: Payload) { p.FullSnapshot? || p.SessionUpsert? || p.SessionRemove? || p.Metrics? }

  lemma FrameLeavesSessions(st: Native, f: Frame)
    requires !ChangesSessions(f.payload)
    ensures var after := AppliedFrame(st, f);
            && after.sessions == st.sessions && after.order == st.order
            && (after.snapshot.Some? <==> st.snapshot.Some?)
            && (st.snapshot.Some? ==> after.snapshot.value.sessions == st.snapshot.value.sessions)
    ensures var after := AppliedFrame(st, f);
            && (SettingsMirror(st) ==> SettingsMirror(after))
            && (st.snapshot.Some? && st.snapshot.value.adapters == st.adapters ==>
                  after.snapshot.value.adapters == after.adapters)
            && (st.snapshot.Some? && st.settings == Some(st.snapshot.value.settings) ==>
                  after.settings == Some(after.snapshot.value.settings))
  {
  }

  lemma SessionsStayListed(st: Native, after: Native)
    requires SnapshotMirrors(st) && after.sessions == st.sessions && after.order == st.order
    requires after.snapshot.Some? ==>
               && st.snapshot.Some? && after.snapshot.value.sessions == st.snapshot.value.sessions
               && after.snapshot.value.adapters == after.adapters
               && after.settings == Some(after.snapshot.value.settings)
    ensures SnapshotMirrors(after)
  {
  }

  lemma FrameKeepsMirrors(st: Native, f: Frame)
    requires MirrorsOk(st) && !f.payload.FullSnapshot?
    ensures MirrorsOk(AppliedFrame(st, f))
  {
    FrameKeepsOrder(st, f);
    FrameKeepsEvents(st, f);
  }

  /** Mirrors in step before an action are in step after it, exactly when the action is coherent. */
  lemma ReduceKeepsMirrors(st: Native, action: Action)
    requires MirrorsOk(st)
    ensures MirrorsOk(Reduce(st, action)) <==> Coherent(action)
  {
    match action
    case ApplyBootstrap(s, sequence, events) => SnapshotMirrorsExactly(st, s, sequence, events);
    case ApplyFrame(f) =>
      if f.payload.FullSnapshot? {
        SnapshotMirrorsExactly(st, f.payload.snapshot, f.sequence, []);
      } else {
        FrameKeepsMirrors(st, f);
      }
    case Reset => InitialMirrors();
    case _ =>
  }

  lemma InitialMirrors()
    ensures MirrorsOk(INITIAL)
  {
    forall id ensures EventsAgree(INITIAL.events, INITIAL.bySession, id) { assert EventsOf([], id) == []; }
  }

  function ReduceAll(st: Native, actions: seq<Action>): Native {
    if actions == [] then st else Reduce(ReduceAll(st, actions[..|actions| - 1]), actions[|actions| - 1])
  }

  /** From the initial state, any sequence of coherent actions keeps every mirror in step. */
  lemma {:induction false} MirrorsAlwaysOk(actions: seq<Action>)
    requires forall a :: a in actions ==> Coherent(a)
    ensures MirrorsOk(ReduceAll(INITIAL, actions))
  {
    if actions == [] {
      InitialMirrors();
    } else {
      MirrorsAlwaysOk(actions[..|actions| - 1]);
      ReduceKeepsMirrors(ReduceAll(INITIAL, actions[..|actions| - 1]), actions[|actions| - 1]);
    }
  }

  // ---------------------------------------------------------------- the view

  function ViewOfNative(st: Native): View
    requires st.settings.Some?
  {
    View(ReplicatedAll(st.sessions), st.adapters, st.settings.value)
  }

  lemma MeasuredKeepsView(sessions: map<string, Session>, frame: MetricsFrame)
    ensures ReplicatedAll(map id | id in sessions :: WithSample(id, sessions[id], frame)) == ReplicatedAll(sessions)
  {
  }

  /** The reducer refines the payload's effect on the view, whatever the rest of the state. */
  lemma FrameRefinesPayload(st: Native, f: Frame)
    requires st.settings.Some?
    ensures AppliedFrame(st, f).settings.Some?
    ensures AppliedFrame(st, f).lastSequence == Some(f.sequence)
    ensures ViewOfNative(AppliedFrame(st, f)) == ApplyPayload(ViewOfNative(st), f.payload)
  {
    match f.payload
    case SessionUpsert(s) =>
      assert ReplicatedAll(st.sessions[s.id := Normalized(s)]) == ReplicatedAll(st.sessions)[s.id := Replicated(s)];
    case SessionRemove(id) =>
      assert ReplicatedAll(st.sessions - {id}) == ReplicatedAll(st.sessions) - {id};
      assert id !in st.sessions ==> st.sessions - {id} == st.sessions;
    case Metrics(m) => MeasuredKeepsView(st.sessions, m);
    case _ =>
  }
}
