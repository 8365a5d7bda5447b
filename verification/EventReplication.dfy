/** Which events a renderer shows in every world of every run. */
module EventReplication {
  import opened Options
  import opened Sequences
  import opened Protocol
  import opened Registry
  import opened Views
  import opened HostCore
  import opened HostRuns
  import opened HostSync
  import opened Renderer
  import opened RendererEvents
  import opened Replication

  /** The payloads from a bootstrap up to the cursor. */
  function FeedSince(emitted: seq<Frame>, from: nat, cursor: nat): seq<Payload>
    requires from <= cursor <= |emitted|
  {
    Payloads(emitted[from..cursor])
  }

  /** The renderer shows the captured events and those fed since, as far as they survive. */
  ghost predicate ShowsCaptured(native: Native, emitted: seq<Frame>, c: Captured, cursor: nat) {
    && c.sequence <= cursor <= |emitted|
    && ShowsFeed(native, IdSet(c.snapshot.sessions), c.events, FeedSince(emitted, c.sequence, cursor))
  }

  ghost predicate ShowsSince(w: World, k: nat) {
    k < |w.captured| && w.cursor.Some? && ShowsCaptured(w.native, w.host.emitted, w.captured[k], w.cursor.value)
  }

  ghost predicate EventsOk(w: World) { w.current ==> exists k :: ShowsSince(w, k) }

  // ---------------------------------------------------------------- every step keeps it

  predicate SameShown(a: Native, b: Native) {
    a.sessions == b.sessions && a.events == b.events && a.bySession == b.bySession
  }

  lemma StillShows(a: Native, b: Native, ids: set<string>, first: seq<Event>, feed: seq<Payload>)
    requires SameShown(a, b) && ShowsFeed(a, ids, first, feed)
    ensures ShowsFeed(b, ids, first, feed)
  {
    forall id ensures ShowsOwn(b, ids, first, feed, id) { assert ShowsOwn(a, ids, first, feed, id); }
  }

  lemma EmittedGrows(native: Native, before: seq<Frame>, after: seq<Frame>, c: Captured, cursor: nat)
    requires ShowsCaptured(native, before, c, cursor) && before <= after
    ensures ShowsCaptured(native, after, c, cursor)
  {
    assert after[c.sequence..cursor] == before[c.sequence..cursor];
  }

  lemma InstalledIsSnapshot(native: Native, c: Captured)
    requires c.snapshot.version == PROTOCOL_VERSION
    ensures SameShown(SnapshotState(native, c.snapshot, c.sequence, c.events), Installed(native, c))
  {
  }

  lemma InstallShows(native: Native, emitted: seq<Frame>, c: Captured)
    requires c.snapshot.version == PROTOCOL_VERSION && c.sequence <= |emitted|
    ensures ShowsCaptured(Installed(native, c), emitted, c, c.sequence)
  {
    assert emitted[c.sequence..c.sequence] == [];
    InstalledIsSnapshot(native, c);
    StartsShowing(SnapshotState(native, c.snapshot, c.sequence, c.events), Installed(native, c), native, c);
  }

  lemma StartsShowing(st: Native, after: Native, native: Native, c: Captured)
    requires st == SnapshotState(native, c.snapshot, c.sequence, c.events) && SameShown(st, after)
    ensures ShowsFeed(after, IdSet(c.snapshot.sessions), c.events, [])
  {
    SnapshotShows(native, c.snapshot, c.sequence, c.events);
    StillShows(st, after, IdSet(c.snapshot.sessions), c.events, []);
  }

  lemma FeedNext(emitted: seq<Frame>, from: nat, cursor: nat)
    requires from <= cursor < |emitted|
    ensures FeedSince(emitted, from, cursor + 1) == FeedSince(emitted, from, cursor) + [emitted[cursor].payload]
  {
    assert emitted[from..cursor + 1] == emitted[from..cursor] + [emitted[cursor]];
  }

  lemma AcceptedShows(native: Native, emitted: seq<Frame>, c: Captured, cursor: nat)
    requires ShowsCaptured(native, emitted, c, cursor) && cursor < |emitted|
    requires !emitted[cursor].payload.FullSnapshot?
    ensures ShowsCaptured(AppliedFrame(native, emitted[cursor]), emitted, c, cursor + 1)
  {
    FeedNext(emitted, c.sequence, cursor);
    FrameShowsFeed(native, emitted[cursor], IdSet(c.snapshot.sessions), c.events,
                   FeedSince(emitted, c.sequence, cursor));
  }

  lemma DeliverShows(native: Native, emitted: seq<Frame>, c: Captured, cursor: nat, f: Frame)
    requires ShowsCaptured(native, emitted, c, cursor) && !f.payload.FullSnapshot?
    requires f.sequence == cursor + 1 && !f.payload.ResyncRequired? ==> cursor < |emitted| && emitted[cursor] == f
    ensures var after := Handle(native, Some(cursor), f);
            after.1.Some? && ShowsCaptured(after.0, emitted, c, after.1.value)
  {
    var after := Handle(native, Some(cursor), f);
    if f.sequence == cursor + 1 && !f.payload.ResyncRequired? {
      AcceptedShows(native, emitted, c, cursor);
    } else {
      StillShows(native, after.0, IdSet(c.snapshot.sessions), c.events, FeedSince(emitted, c.sequence, cursor));
    }
  }

  lemma LocalShows(native: Native, emitted: seq<Frame>, c: Captured, cursor: nat, a: Action)
    requires ShowsCaptured(native, emitted, c, cursor) && IsLocal(a)
    ensures ShowsCaptured(Reduce(native, a), emitted, c, cursor)
  {
    StillShows(native, Reduce(native, a), IdSet(c.snapshot.sessions), c.events, FeedSince(emitted, c.sequence, cursor));
  }

  lemma NextShows(idFor: IdFor, base: View, w: World, step: Step, k: nat)
    requires WorldOk(idFor, base, w) && Enabled(w, step) && ShowsSince(w, k) && !step.Install? && !step.CleanUp?
    requires w.host.emitted <= Next(w, step, idFor).host.emitted
    ensures ShowsSince(Next(w, step, idFor), k)
  {
    var c, cursor, emitted := w.captured[k], w.cursor.value, w.host.emitted;
    match step
    case HostTurn(t) => EmittedGrows(w.native, emitted, Next(w, step, idFor).host.emitted, c, cursor);
    case Capture(listed, events) =>
    case Deliver(i) =>
      assert Payloads(emitted)[i] in Payloads(emitted);
      DeliverShows(w.native, emitted, c, cursor, emitted[i]);
    case AskResync(sequence, reason) =>
      DeliverShows(w.native, emitted, c, cursor, Frame(sequence, ResyncRequired(reason)));
    case Local(a) => LocalShows(w.native, emitted, c, cursor, a);
  }

  lemma NextKeepsEvents(idFor: IdFor, base: View, w: World, step: Step)
    requires Injective(idFor) && WorldOk(idFor, base, w) && Allowed(w, step, idFor) && EventsOk(w)
    ensures EventsOk(Next(w, step, idFor))
  {
    NextKeepsWorld(idFor, base, w, step);
    var after := Next(w, step, idFor);
    if step.Install? {
      assert CapturedAt(base, w.host.emitted, w.captured[step.k]);
      InstallShows(w.native, w.host.emitted, w.captured[step.k]);
      assert ShowsSince(after, step.k);
    } else if after.current {
      var k :| ShowsSince(w, k);
      NextShows(idFor, base, w, step, k);
    }
  }

  // ---------------------------------------------------------------- whole runs

  ghost function EventsKept(idFor: IdFor, base: View): World -> bool {
    w => WorldOk(idFor, base, w) && EventsOk(w)
  }

  lemma MovesKeepEvents(idFor: IdFor, base: View)
    requires Injective(idFor)
    ensures forall w, step, v :: EventsKept(idFor, base)(w) && Move(idFor)(w, step, v) ==> EventsKept(idFor, base)(v)
  {
    forall w, step, v | EventsKept(idFor, base)(w) && Move(idFor)(w, step, v) ensures EventsKept(idFor, base)(v) {
      NextKeepsWorld(idFor, base, w, step);
      NextKeepsEvents(idFor, base, w, step);
    }
  }

  /** In every world of every run a current renderer shows, of the events of some bootstrap followed by those
      told since up to its cursor, the survivors among the last 256 and nothing but survivors without a hole;
      exactly the last 256 while no known session was removed; and of each session its last 96. */
  lemma EventsReplicated(idFor: IdFor, h: Host, ws: seq<World>, steps: seq<Step>, m: nat)
    requires Starts(h, idFor) && IsRun(h, ws, steps, idFor) && m <= |steps| && ws[m].current
    ensures exists k :: ShowsSince(ws[m], k) && ShowsLatest(ws[m], k)
  {
    FreshIsOk(idFor, h);
    MovesKeepEvents(idFor, ViewOf(h));
    KeptAlong(Move(idFor), EventsKept(idFor, ViewOf(h)), ws, steps, 0, m);
    var k :| ShowsSince(ws[m], k);
    LatestShown(ws[m], k);
  }

  ghost predicate ShowsLatest(w: World, k: nat)
    requires ShowsSince(w, k)
  {
    var c, told := w.captured[k], FeedSince(w.host.emitted, w.captured[k].sequence, w.cursor.value);
    RemovesNone(IdSet(c.snapshot.sessions), told) ==> w.native.events == Last(c.events + EventsIn(told), 256)
  }

  lemma LatestShown(w: World, k: nat)
    requires ShowsSince(w, k)
    ensures ShowsLatest(w, k)
  {
    var c, told := w.captured[k], FeedSince(w.host.emitted, w.captured[k].sequence, w.cursor.value);
    if RemovesNone(IdSet(c.snapshot.sessions), told) {
      ShownExactly(w.native, IdSet(c.snapshot.sessions), c.events, told);
    }
  }
}
