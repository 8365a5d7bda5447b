/** Which events the renderer shows, frame by frame and since a bootstrap. */
module RendererEvents {
  import opened Options
  import opened Sequences
  import opened Protocol
  import opened Views
  import opened Renderer
  import opened RendererLaws

  // ---------------------------------------------------------------- one frame

  /** `e` is last; before it stands the old list, less its oldest exactly when it was full. */
  predicate JoinsLast(before: seq<Event>, after: seq<Event>, e: Event, cap: nat)
    requires cap > 0
  {
    after == (if |before| < cap then before else before[1..]) + [e]
  }

  /** An event frame shows its event in both lists and changes nothing else. */
  lemma EventIsShown(st: Native, n: nat, e: Event)
    requires EventCaps(st)
    ensures var after := Reduce(st, ApplyFrame(Frame(n, SessionEvent(e))));
            && JoinsLast(st.events, after.events, e, 256)
            && JoinsLast(RetainedFor(st.bySession, e.sessionId), RetainedFor(after.bySession, e.sessionId), e, 96)
            && after.bySession.Keys == st.bySession.Keys + {e.sessionId}
            && (forall id :: id in st.bySession && id != e.sessionId ==> after.bySession[id] == st.bySession[id])
            && after == st.(events := after.events, bySession := after.bySession, lastSequence := Some(n))
  {
  }

  /** A removal takes exactly the events of a session that is shown, from both lists. */
  lemma RemovalHidesEvents(st: Native, n: nat, id: string)
    ensures var after := Reduce(st, ApplyFrame(Frame(n, SessionRemove(id))));
            && after.events ==
                 (if id in st.sessions then Filter(st.events, (e: Event) => e.sessionId != id) else st.events)
            && (forall other :: other != id || id !in st.sessions ==>
                  RetainedFor(after.bySession, other) == RetainedFor(st.bySession, other))
            && (id in st.sessions ==> id !in after.bySession && id !in after.sessions)
  {
    assert id in st.sessions ==>
             Filter(st.events, IsNotOf(id)) == Filter(st.events, (e: Event) => e.sessionId != id) by {
      SameFilter(st.events, IsNotOf(id), (e: Event) => e.sessionId != id);
    }
  }

  // ---------------------------------------------------------------- what a feed leaves

  /** The sessions known after a feed that began with `ids`. */
  function KnownAfter(ids: set<string>, feed: seq<Payload>): set<string> {
    if feed == [] then ids
    else
      var before := KnownAfter(ids, feed[..|feed| - 1]);
      match feed[|feed| - 1]
      case SessionUpsert(s) => before + {s.id}
      case SessionRemove(id) => before - {id}
      case _ => before
  }

  predicate RemovesKnown(ids: set<string>, init: seq<Payload>, p: Payload) {
    p.SessionRemove? && p.sessionId in KnownAfter(ids, init)
  }

  /** The first events and all events fed, less those of sessions removed since. */
  function Surviving(ids: set<string>, first: seq<Event>, feed: seq<Payload>): seq<Event> {
    if feed == [] then first
    else
      var init, p := feed[..|feed| - 1], feed[|feed| - 1];
      var before := Surviving(ids, first, init);
      if p.SessionEvent? then before + [p.event]
      else if RemovesKnown(ids, init, p) then Filter(before, IsNotOf(p.sessionId))
      else before
  }

  /** The survivors among the last k events, first or fed. */
  function Recent(ids: set<string>, first: seq<Event>, feed: seq<Payload>, k: nat): seq<Event> {
    if feed == [] then Last(first, k)
    else
      var init, p := feed[..|feed| - 1], feed[|feed| - 1];
      if p.SessionEvent? then (if k == 0 then [] else Recent(ids, first, init, k - 1) + [p.event])
      else if RemovesKnown(ids, init, p) then Filter(Recent(ids, first, init, k), IsNotOf(p.sessionId))
      else Recent(ids, first, init, k)
  }

  /** The events of one session since it was last removed. */
  function OwnSince(ids: set<string>, own: seq<Event>, feed: seq<Payload>, id: string): seq<Event> {
    if feed == [] then own
    else
      var init, p := feed[..|feed| - 1], feed[|feed| - 1];
      var before := OwnSince(ids, own, init, id);
      if p.SessionEvent? && p.event.sessionId == id then before + [p.event]
      else if p == SessionRemove(id) && id in KnownAfter(ids, init) then []
      else before
  }

  lemma {:induction false} RecentIsShort(ids: set<string>, first: seq<Event>, feed: seq<Payload>, k: nat)
    ensures |Recent(ids, first, feed, k)| <= k
    ensures k > 0 ==> IsSuffix(Recent(ids, first, feed, k - 1), Recent(ids, first, feed, k))
  {
    if feed == [] {
      if k > 0 { ShorterLast(first, k); }
    } else {
      var init, p := feed[..|feed| - 1], feed[|feed| - 1];
      RecentIsShort(ids, first, init, k);
      var recent := Recent(ids, first, init, k);
      if p.SessionEvent? {
        if k > 0 {
          RecentIsShort(ids, first, init, k - 1);
          if k > 1 { SuffixSnoc(Recent(ids, first, init, k - 2), Recent(ids, first, init, k - 1), p.event); }
        }
      } else if RemovesKnown(ids, init, p) {
        FilterShrinks(recent, IsNotOf(p.sessionId));
        if k > 0 { FilterSuffix(Recent(ids, first, init, k - 1), recent, IsNotOf(p.sessionId)); }
      }
    }
  }

  lemma ShorterLast(s: seq<Event>, k: nat)
    requires k > 0
    ensures IsSuffix(Last(s, k - 1), Last(s, k))
  {
    assert s[0..] == s;
    if |s| >= k { assert s[|s| - k..][1..] == s[|s| - k + 1..]; }
  }

  // ---------------------------------------------------------------- shown since a bootstrap

  /** A list between the recent survivors and all of them. */
  predicate Between(shown: seq<Event>, ids: set<string>, first: seq<Event>, feed: seq<Payload>) {
    |shown| <= 256 && IsSuffix(Recent(ids, first, feed, 256), shown) && IsSuffix(shown, Surviving(ids, first, feed))
  }

  /** All survivors among the last 256 events are shown, and nothing but survivors,
      without a hole; each session's own list is the last 96 of its events. */
  ghost predicate ShowsFeed(st: Native, ids: set<string>, first: seq<Event>, feed: seq<Payload>) {
    && st.sessions.Keys == KnownAfter(ids, feed)
    && Between(st.events, ids, first, feed)
    && forall id :: ShowsOwn(st, ids, first, feed, id)
  }

  function FirstOf(ids: set<string>, first: seq<Event>, id: string): seq<Event> {
    if id in ids then EventsOf(Last(first, 256), id) else []
  }

  predicate ShowsOwn(st: Native, ids: set<string>, first: seq<Event>, feed: seq<Payload>, id: string) {
    RetainedFor(st.bySession, id) == Last(OwnSince(ids, FirstOf(ids, first, id), feed, id), 96)
  }

  function IdSet(sessions: seq<Session>): set<string> { set s | s in sessions :: s.id }

  lemma SnapshotShows(st: Native, s: Snapshot, n: nat, first: seq<Event>)
    ensures ShowsFeed(SnapshotState(st, s, n, first), IdSet(s.sessions), first, [])
  {
    var after, ids := SnapshotState(st, s, n, first), IdSet(s.sessions);
    IndexedKeys(s.sessions);
    assert after.sessions.Keys == ids by {
      forall id ensures id in after.sessions <==> id in ids { IdInBoth(s.sessions, id); }
    }
    LastIsSuffix(first, 256);
    assert after.events[0..] == after.events;
  }

  lemma IdInBoth(sessions: seq<Session>, id: string)
    ensures id in IdsOf(sessions) <==> id in IdSet(sessions)
  {
    if id in IdSet(sessions) {
      var s :| s in sessions && s.id == id;
      var i :| 0 <= i < |sessions| && sessions[i] == s;
      assert IdsOf(sessions)[i] == id;
    }
  }

  /** One more payload in the feed. */
  lemma FeedGrows(ids: set<string>, first: seq<Event>, feed: seq<Payload>, p: Payload)
    ensures var longer := feed + [p];
            && KnownAfter(ids, longer) == (match p
                 case SessionUpsert(s) => KnownAfter(ids, feed) + {s.id}
                 case SessionRemove(id) => KnownAfter(ids, feed) - {id}
                 case _ => KnownAfter(ids, feed))
            && Surviving(ids, first, longer) ==
                 (if p.SessionEvent? then Surviving(ids, first, feed) + [p.event]
                  else if RemovesKnown(ids, feed, p) then Filter(Surviving(ids, first, feed), IsNotOf(p.sessionId))
                  else Surviving(ids, first, feed))
            && Recent(ids, first, longer, 256) ==
                 (if p.SessionEvent? then Recent(ids, first, feed, 255) + [p.event]
                  else if RemovesKnown(ids, feed, p) then Filter(Recent(ids, first, feed, 256), IsNotOf(p.sessionId))
                  else Recent(ids, first, feed, 256))
  {
    assert (feed + [p])[..|feed|] == feed;
  }

  lemma OwnGrows(ids: set<string>, own: seq<Event>, feed: seq<Payload>, p: Payload, id: string)
    ensures OwnSince(ids, own, feed + [p], id) ==
              if p.SessionEvent? && p.event.sessionId == id then OwnSince(ids, own, feed, id) + [p.event]
              else if p == SessionRemove(id) && id in KnownAfter(ids, feed) then []
              else OwnSince(ids, own, feed, id)
  {
    assert (feed + [p])[..|feed|] == feed;
  }

  lemma AppendStaysBetween(recent: seq<Event>, shown: seq<Event>, all: seq<Event>, e: Event)
    requires IsSuffix(recent, shown) && IsSuffix(shown, all) && |recent| <= 255
    ensures IsSuffix(recent + [e], Last(shown + [e], 256)) && IsSuffix(Last(shown + [e], 256), all + [e])
  {
    SuffixSnoc(recent, shown, e);
    SuffixLast(recent + [e], shown + [e], 256);
    SuffixSnoc(shown, all, e);
    LastIsSuffix(shown + [e], 256);
    SuffixTrans(Last(shown + [e], 256), shown + [e], all + [e]);
  }

  /** What a frame does to the known sessions and the global list. */
  lemma FrameLists(st: Native, f: Frame)
    requires !f.payload.FullSnapshot?
    ensures AppliedFrame(st, f).sessions.Keys == (match f.payload
              case SessionUpsert(s) => st.sessions.Keys + {s.id}
              case SessionRemove(id) => st.sessions.Keys - {id}
              case _ => st.sessions.Keys)
    ensures AppliedFrame(st, f).events ==
              if f.payload.SessionEvent? then Last(st.events + [f.payload.event], 256)
              else if f.payload.SessionRemove? && f.payload.sessionId in st.sessions
              then Filter(st.events, IsNotOf(f.payload.sessionId))
              else st.events
  {
  }

  lemma EventStaysBetween(shown: seq<Event>, ids: set<string>, first: seq<Event>, feed: seq<Payload>, e: Event)
    requires Between(shown, ids, first, feed)
    ensures Between(Last(shown + [e], 256), ids, first, feed + [SessionEvent(e)])
  {
    FeedGrows(ids, first, feed, SessionEvent(e));
    RecentIsShort(ids, first, feed, 255);
    RecentIsShort(ids, first, feed, 256);
    SuffixTrans(Recent(ids, first, feed, 255), Recent(ids, first, feed, 256), shown);
    AppendStaysBetween(Recent(ids, first, feed, 255), shown, Surviving(ids, first, feed), e);
  }

  lemma RemovalStaysBetween(shown: seq<Event>, ids: set<string>, first: seq<Event>, feed: seq<Payload>, id: string)
    requires Between(shown, ids, first, feed) && id in KnownAfter(ids, feed)
    ensures Between(Filter(shown, IsNotOf(id)), ids, first, feed + [SessionRemove(id)])
  {
    FeedGrows(ids, first, feed, SessionRemove(id));
    FilterShrinks(shown, IsNotOf(id));
    FilterSuffix(Recent(ids, first, feed, 256), shown, IsNotOf(id));
    FilterSuffix(shown, Surviving(ids, first, feed), IsNotOf(id));
  }

  lemma FrameShowsGlobal(st: Native, f: Frame, ids: set<string>, first: seq<Event>, feed: seq<Payload>)
    requires st.sessions.Keys == KnownAfter(ids, feed) && Between(st.events, ids, first, feed)
    requires !f.payload.FullSnapshot?
    ensures AppliedFrame(st, f).sessions.Keys == KnownAfter(ids, feed + [f.payload])
    ensures Between(AppliedFrame(st, f).events, ids, first, feed + [f.payload])
  {
    FeedGrows(ids, first, feed, f.payload);
    FrameLists(st, f);
    if f.payload.SessionEvent? {
      EventStaysBetween(st.events, ids, first, feed, f.payload.event);
    } else if RemovesKnown(ids, feed, f.payload) {
      RemovalStaysBetween(st.events, ids, first, feed, f.payload.sessionId);
    }
  }

  lemma FrameShowsOwn(st: Native, f: Frame, ids: set<string>, first: seq<Event>, feed: seq<Payload>, id: string)
    requires st.sessions.Keys == KnownAfter(ids, feed) && ShowsOwn(st, ids, first, feed, id)
    requires !f.payload.FullSnapshot?
    ensures ShowsOwn(AppliedFrame(st, f), ids, first, feed + [f.payload], id)
  {
    var own := FirstOf(ids, first, id);
    OwnGrows(ids, own, feed, f.payload, id);
    FrameEvents(st, f);
    if f.payload.SessionEvent? && f.payload.event.sessionId == id {
      LastSnoc(OwnSince(ids, own, feed, id), f.payload.event, 96);
    }
  }

  /** Every accepted frame keeps what is shown in step with the feed. */
  lemma FrameShowsFeed(st: Native, f: Frame, ids: set<string>, first: seq<Event>, feed: seq<Payload>)
    requires ShowsFeed(st, ids, first, feed) && !f.payload.FullSnapshot?
    ensures ShowsFeed(AppliedFrame(st, f), ids, first, feed + [f.payload])
  {
    FrameShowsGlobal(st, f, ids, first, feed);
    forall id ensures ShowsOwn(AppliedFrame(st, f), ids, first, feed + [f.payload], id) {
      assert ShowsOwn(st, ids, first, feed, id);
      FrameShowsOwn(st, f, ids, first, feed, id);
    }
  }

  // ---------------------------------------------------------------- without removals

  predicate RemovesNone(ids: set<string>, feed: seq<Payload>) {
    forall i :: 0 <= i < |feed| ==> !RemovesKnown(ids, feed[..i], feed[i])
  }

  lemma {:induction false} UnremovedFeed(ids: set<string>, first: seq<Event>, feed: seq<Payload>, k: nat)
    requires RemovesNone(ids, feed)
    ensures Surviving(ids, first, feed) == first + EventsIn(feed)
    ensures Recent(ids, first, feed, k) == Last(first + EventsIn(feed), k)
  {
    if feed == [] {
      assert first + [] == first;
    } else {
      var init, p := feed[..|feed| - 1], feed[|feed| - 1];
      assert RemovesNone(ids, init) by {
        forall i | 0 <= i < |init| ensures !RemovesKnown(ids, init[..i], init[i]) {
          assert init[..i] == feed[..i] && init[i] == feed[i];
          assert !RemovesKnown(ids, feed[..i], feed[i]);
        }
      }
      assert !RemovesKnown(ids, feed[..|feed| - 1], feed[|feed| - 1]);
      UnremovedFeed(ids, first, init, if p.SessionEvent? && k > 0 then k - 1 else k);
      if p.SessionEvent? {
        Regroup(first, EventsIn(init), [p.event]);
        if k > 0 { LastOfLonger(first + EventsIn(init), p.event, k); }
      }
    }
  }

  lemma LastOfLonger(s: seq<Event>, e: Event, k: nat)
    requires k > 0
    ensures Last(s, k - 1) + [e] == Last(s + [e], k)
  {
  }

  lemma BetweenEqual(recent: seq<Event>, shown: seq<Event>, all: seq<Event>, k: nat)
    requires recent == Last(all, k) && IsSuffix(recent, shown) && IsSuffix(shown, all) && |shown| <= k
    ensures shown == recent
  {
    assert all[0..] == all;
    assert shown[|shown| - |recent|..] == recent;
    assert |shown| == |recent|;
    assert shown[0..] == shown;
  }

  /** As long as no known session is removed, the list is exactly the last 256 of all events. */
  lemma ShownExactly(st: Native, ids: set<string>, first: seq<Event>, feed: seq<Payload>)
    requires ShowsFeed(st, ids, first, feed) && RemovesNone(ids, feed)
    ensures st.events == Last(first + EventsIn(feed), 256)
  {
    UnremovedFeed(ids, first, feed, 256);
    BetweenEqual(Recent(ids, first, feed, 256), st.events, Surviving(ids, first, feed), 256);
  }

  // ---------------------------------------------------------------- why not exactly with removals

  /** A full list that lost its oldest event and then a whole session has room again, but what was
      pushed out does not come back. */
  lemma PushedOutStaysOut(st: Native, n: nat, e: Event)
    requires |st.events| == 256 && e.sessionId in st.sessions && st.events[0].sessionId != e.sessionId
    ensures var feed := [SessionEvent(e), SessionRemove(e.sessionId)];
            var after := AppliedFrame(AppliedFrame(st, Frame(n, feed[0])), Frame(n + 1, feed[1]));
            && |after.events| < 256 && st.events[0] in Surviving(st.sessions.Keys, st.events, feed)
            && after.events != Last(Surviving(st.sessions.Keys, st.events, feed), 256)
  {
    EventThenRemoval(st, n, e);
    FeedThenRemoval(st.sessions.Keys, st.events, e);
    FilterOldest(st.events, e);
  }

  lemma EventThenRemoval(st: Native, n: nat, e: Event)
    requires |st.events| == 256 && e.sessionId in st.sessions
    ensures AppliedFrame(AppliedFrame(st, Frame(n, SessionEvent(e))), Frame(n + 1, SessionRemove(e.sessionId))).events
            == Filter(st.events[1..] + [e], IsNotOf(e.sessionId))
  {
    FrameLists(st, Frame(n, SessionEvent(e)));
    FrameLists(AppliedFrame(st, Frame(n, SessionEvent(e))), Frame(n + 1, SessionRemove(e.sessionId)));
    assert Last(st.events + [e], 256) == st.events[1..] + [e];
  }

  lemma FeedThenRemoval(ids: set<string>, first: seq<Event>, e: Event)
    requires e.sessionId in ids
    ensures Surviving(ids, first, [SessionEvent(e), SessionRemove(e.sessionId)]) ==
              Filter(first + [e], IsNotOf(e.sessionId))
  {
    FeedGrows(ids, first, [], SessionEvent(e));
    FeedGrows(ids, first, [SessionEvent(e)], SessionRemove(e.sessionId));
    assert [] + [SessionEvent(e)] == [SessionEvent(e)];
    assert [SessionEvent(e)] + [SessionRemove(e.sessionId)] == [SessionEvent(e), SessionRemove(e.sessionId)];
  }

  lemma FilterOldest(events: seq<Event>, e: Event)
    requires events != [] && events[0].sessionId != e.sessionId
    ensures Filter(events + [e], IsNotOf(e.sessionId)) ==
              [events[0]] + Filter(events[1..] + [e], IsNotOf(e.sessionId))
    ensures |Filter(events[1..] + [e], IsNotOf(e.sessionId))| < |events|
  {
    var stay, rest := IsNotOf(e.sessionId), events[1..] + [e];
    assert events + [e] == [events[0]] + rest;
    FilterConcat([events[0]], rest, stay);
    FilterShrinks([events[0]], stay);
    FilterShrinks(rest, stay);
    assert rest[|rest| - 1] == e;
  }
}
