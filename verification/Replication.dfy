/** Host and renderer together: commands, bootstraps and frames delivered in any order, any number of times. */
module Replication {
  import opened Options
  import opened Sequences
  import opened Protocol
  import opened Registry
  import opened Views
  import opened Coalescing
  import opened HostCore
  import opened HostSync
  import opened HostRuns
  import opened Renderer
  import opened RendererLaws
  import opened Bootstrap
  import opened Restart

  // ---------------------------------------------------------------- sequence check

  datatype Acceptance = Accept(next: nat) | Duplicate | Gap(expected: nat, received: nat)

  function EvaluateSequence(f: Frame, last: Option<nat>): Acceptance {
    if last.None? then Accept(f.sequence)
    else if f.sequence <= last.value then Duplicate
    else if f.sequence == last.value + 1 then Accept(f.sequence)
    else Gap(last.value + 1, f.sequence)
  }

  // ---------------------------------------------------------------- the two parties

  /** What a bootstrap call captured under one lock. */
  datatype Captured = Captured(snapshot: Snapshot, sequence: nat, events: seq<Event>)

  /** `cursor` is the sequence reference beside the state. A bootstrap makes the renderer `current` until
      it is cleaned up; frames arrive once it was ever subscribed, even after that. */
  datatype World = World(host: Host, captured: seq<Captured>, native: Native, cursor: Option<nat>, current: bool,
                         subscribed: bool)

  datatype Step =
    | HostTurn(turn: Turn)
    | Capture(listed: seq<Session>, events: seq<Event>)
    /** connect or resync completes with some captured bootstrap, however old. */
    | Install(k: nat)
    /** The k-th frame ever emitted reaches the handler: late, again or out of order. */
    | Deliver(k: nat)
    /** The transport asks for a resync, under any sequence number. */
    | AskResync(sequence: nat, reason: string)
    /** The provider is unmounted: the cursor is dropped while frames may still be on their way. */
    | CleanUp
    /** Anything else dispatched to the reducer. */
    | Local(action: Action)

  function SnapshotOf(h: Host, listed: seq<Session>): Snapshot {
    Snapshot(PROTOCOL_VERSION, listed, h.settings, h.adapters,
             if h.metrics.Some? then Some(h.metrics.value.host) else None,
             if h.metrics.Some? then Some(h.metrics.value.aggregate) else None)
  }

  /** A gap or a resync request dispatches a reason; a duplicate is dropped; the rest is applied. */
  function Handle(native: Native, cursor: Option<nat>, f: Frame): (Native, Option<nat>) {
    match EvaluateSequence(f, cursor)
    case Gap(_, _) => (Reduce(native, SetResyncReason("sequence gap")), cursor)
    case Duplicate => (native, cursor)
    case Accept(next) =>
      if f.payload.ResyncRequired? then (Reduce(native, SetResyncReason(f.payload.reason)), cursor)
      else (Reduce(native, ApplyFrame(f)), Some(next))
  }

  /** The state after a bootstrap is installed and any resync reason cleared. */
  function Installed(native: Native, c: Captured): Native {
    Reduce(Reduce(native, ApplyBootstrap(c.snapshot, c.sequence, c.events)), ClearResync)
  }

  predicate IsLocal(a: Action) {
    a.SetConnection? || a.SetProtocolIncompatible? || a.SetResyncReason? || a.ClearResync? || a.SetSelectedSession?
  }

  predicate Enabled(w: World, step: Step) {
    match step
    case Install(k) => k < |w.captured|
    case Deliver(k) => k < |w.host.emitted| && w.subscribed
    case AskResync(_, _) => w.subscribed
    case Local(a) => IsLocal(a)
    case _ => true
  }

  function Next(w: World, step: Step, idFor: IdFor): World
    requires Enabled(w, step)
  {
    match step
    case HostTurn(t) => w.(host := Exec(w.host, t.cmd, idFor, t.choice))
    case Capture(listed, events) =>
      w.(captured := w.captured + [Captured(SnapshotOf(w.host, listed), w.host.sequence, events)])
    case Install(k) =>
      w.(native := Installed(w.native, w.captured[k]), cursor := Some(w.captured[k].sequence), current := true,
         subscribed := true)
    case Deliver(k) =>
      var after := Handle(w.native, w.cursor, w.host.emitted[k]);
      w.(native := after.0, cursor := after.1)
    case AskResync(sequence, reason) =>
      var after := Handle(w.native, w.cursor, Frame(sequence, ResyncRequired(reason)));
      w.(native := after.0, cursor := after.1)
    case CleanUp => w.(cursor := None, current := false)
    case Local(a) => w.(native := Reduce(w.native, a))
  }

  /** A host turn leaves no untold mark; a capture lists every session once, in any order, and selects events. */
  ghost predicate Allowed(w: World, step: Step, idFor: IdFor) {
    && Enabled(w, step)
    && match step
       case HostTurn(t) => ValidChoice(w.host, t.cmd, idFor, t.choice) && !ViewLeak(w.host, t.cmd, idFor, t.choice)
       case Capture(listed, events) => ListsSessions(listed, w.host.reg.sessions) && Selection(w.host.reg, events)
       case _ => true
  }

  // ---------------------------------------------------------------- the replication invariant

  /** The state told by the first k frames. */
  function Told(base: View, emitted: seq<Frame>, k: nat): View
    requires k <= |emitted|
  {
    Fold(base, Payloads(emitted[..k]))
  }

  ghost predicate CapturedAt(base: View, emitted: seq<Frame>, c: Captured) {
    && c.snapshot.version == PROTOCOL_VERSION && c.sequence <= |emitted|
    && Coherent(ApplyBootstrap(c.snapshot, c.sequence, c.events))
    && View(ReplicatedAll(Indexed(c.snapshot.sessions)), c.snapshot.adapters, c.snapshot.settings)
       == Told(base, emitted, c.sequence)
  }

  ghost predicate CapturesOk(base: View, emitted: seq<Frame>, captured: seq<Captured>) {
    forall i :: 0 <= i < |captured| ==> CapturedAt(base, emitted, captured[i])
  }

  predicate RendererAt(base: View, emitted: seq<Frame>, native: Native, cursor: Option<nat>, current: bool) {
    current ==>
      && cursor.Some? && cursor.value <= |emitted| && native.lastSequence == cursor && native.settings.Some?
      && ViewOfNative(native) == Told(base, emitted, cursor.value)
  }

  ghost predicate HostOk(idFor: IdFor, base: View, h: Host) {
    CoreOk(idFor, h) && InSync(base, h) && NoSnapshot(Payloads(h.emitted))
  }

  ghost predicate WorldOk(idFor: IdFor, base: View, w: World) {
    && HostOk(idFor, base, w.host)
    && CapturesOk(base, w.host.emitted, w.captured)
    && RendererAt(base, w.host.emitted, w.native, w.cursor, w.current)
    && MirrorsOk(w.native)
  }

  // ---------------------------------------------------------------- every step keeps it

  lemma ToldGrows(base: View, before: seq<Frame>, after: seq<Frame>, k: nat)
    requires before <= after && k <= |before|
    ensures Told(base, after, k) == Told(base, before, k)
  {
    assert after[..k] == before[..k];
  }

  lemma ToldNext(base: View, emitted: seq<Frame>, k: nat)
    requires k < |emitted|
    ensures Told(base, emitted, k + 1) == ApplyPayload(Told(base, emitted, k), emitted[k].payload)
  {
    assert Payloads(emitted[..k + 1]) == Payloads(emitted[..k]) + [emitted[k].payload];
    FoldSnoc(base, Payloads(emitted[..k]), emitted[k].payload);
  }

  lemma ExecAppends(idFor: IdFor, h: Host, t: Turn)
    requires Injective(idFor) && CoreOk(idFor, h) && ValidChoice(h, t.cmd, idFor, t.choice)
    ensures h.emitted <= Exec(h, t.cmd, idFor, t.choice).emitted
    ensures NoSnapshot(Payloads(h.emitted)) ==> NoSnapshot(Payloads(Exec(h, t.cmd, idFor, t.choice).emitted))
  {
    var effect := EffectOf(h, t.cmd, idFor, t.choice);
    EffectKeeps(idFor, h, t.cmd, t.choice);
    EffectBatchSafe(idFor, h, t.cmd, t.choice);
    PublishShape(h, effect, t.choice);
    DrainHasNoSnapshot(effect.batch, t.choice.order);
  }

  lemma NextHost(idFor: IdFor, base: View, w: World, step: Step)
    requires Injective(idFor) && HostOk(idFor, base, w.host) && Allowed(w, step, idFor)
    ensures HostOk(idFor, base, Next(w, step, idFor).host)
    ensures w.host.emitted <= Next(w, step, idFor).host.emitted
  {
    if step.HostTurn? {
      ExecKeepsCore(idFor, w.host, step.turn.cmd, step.turn.choice);
      ExecInSync(idFor, base, w.host, step.turn.cmd, step.turn.choice);
      ExecAppends(idFor, w.host, step.turn);
    }
  }

  lemma DistinctById(listed: seq<Session>, sessions: map<string, Session>)
    requires ListsSessions(listed, sessions)
    ensures Distinct(IdsOf(listed))
  {
    forall i, j | 0 <= i < j < |listed| ensures listed[i].id != listed[j].id {
      assert listed[i] in listed && listed[j] in listed;
    }
  }

  /** What the core captures meets the renderer's condition for mirrors in step. */
  lemma CaptureIsCoherent(idFor: IdFor, h: Host, listed: seq<Session>, events: seq<Event>)
    requires RegistryOk(idFor, h.reg) && ListsSessions(listed, h.reg.sessions) && Selection(h.reg, events)
    ensures Distinct(IdsOf(listed)) && EventsBelong(SnapshotOf(h, listed), events)
  {
    DistinctById(listed, h.reg.sessions);
    IndexedIs(listed, h.reg.sessions);
    IndexedKeys(listed);
    forall e | e in Last(events, MAX_EVENTS) ensures e.sessionId in IdsOf(listed) {
      assert e in events && Retained(h.reg, e);
    }
  }

  lemma CapturesGrow(base: View, before: seq<Frame>, after: seq<Frame>, captured: seq<Captured>)
    requires before <= after && CapturesOk(base, before, captured)
    ensures CapturesOk(base, after, captured)
  {
    forall i | 0 <= i < |captured| ensures CapturedAt(base, after, captured[i]) {
      assert CapturedAt(base, before, captured[i]);
      ToldGrows(base, before, after, captured[i].sequence);
    }
  }

  lemma CapturedNow(idFor: IdFor, base: View, h: Host, listed: seq<Session>, events: seq<Event>)
    requires HostOk(idFor, base, h) && ListsSessions(listed, h.reg.sessions) && Selection(h.reg, events)
    ensures CapturedAt(base, h.emitted, Captured(SnapshotOf(h, listed), h.sequence, events))
  {
    CaptureIsCoherent(idFor, h, listed, events);
    IndexedIs(listed, h.reg.sessions);
    assert h.emitted[..|h.emitted|] == h.emitted;
  }

  lemma NextCaptures(idFor: IdFor, base: View, w: World, step: Step)
    requires HostOk(idFor, base, w.host) && CapturesOk(base, w.host.emitted, w.captured) && Allowed(w, step, idFor)
    requires w.host.emitted <= Next(w, step, idFor).host.emitted
    ensures CapturesOk(base, Next(w, step, idFor).host.emitted, Next(w, step, idFor).captured)
  {
    if step.Capture? {
      CapturedNow(idFor, base, w.host, step.listed, step.events);
    } else {
      CapturesGrow(base, w.host.emitted, Next(w, step, idFor).host.emitted, w.captured);
    }
  }

  lemma DeliverKeeps(base: View, emitted: seq<Frame>, native: Native, cursor: Option<nat>, k: nat)
    requires RendererAt(base, emitted, native, cursor, true) && k < |emitted| && emitted[k].sequence == k + 1
    ensures var after := Handle(native, cursor, emitted[k]); RendererAt(base, emitted, after.0, after.1, true)
  {
    var f := emitted[k];
    if EvaluateSequence(f, cursor).Accept? && !f.payload.ResyncRequired? {
      ToldNext(base, emitted, k);
      FrameRefinesPayload(native, f);
    }
  }

  lemma InstallSetsRenderer(base: View, emitted: seq<Frame>, native: Native, c: Captured)
    requires CapturedAt(base, emitted, c)
    ensures RendererAt(base, emitted, Installed(native, c), Some(c.sequence), true)
  {
  }

  lemma AskKeeps(base: View, emitted: seq<Frame>, native: Native, cursor: Option<nat>, current: bool, sequence: nat,
                 reason: string)
    requires RendererAt(base, emitted, native, cursor, current)
    ensures var after := Handle(native, cursor, Frame(sequence, ResyncRequired(reason)));
            RendererAt(base, emitted, after.0, after.1, current)
  {
  }

  lemma LocalKeeps(base: View, emitted: seq<Frame>, native: Native, cursor: Option<nat>, current: bool, a: Action)
    requires RendererAt(base, emitted, native, cursor, current) && IsLocal(a)
    ensures RendererAt(base, emitted, Reduce(native, a), cursor, current)
  {
  }

  lemma NextRenderer(base: View, w: World, step: Step, idFor: IdFor)
    requires CapturesOk(base, w.host.emitted, w.captured)
    requires RendererAt(base, w.host.emitted, w.native, w.cursor, w.current)
    requires Enabled(w, step) && forall i :: 0 <= i < |w.host.emitted| ==> w.host.emitted[i].sequence == i + 1
    requires w.host.emitted <= Next(w, step, idFor).host.emitted
    ensures var after := Next(w, step, idFor);
            RendererAt(base, after.host.emitted, after.native, after.cursor, after.current)
  {
    match step
    case HostTurn(t) =>
      if w.current { ToldGrows(base, w.host.emitted, Next(w, step, idFor).host.emitted, w.cursor.value); }
    case Install(k) =>
      assert CapturedAt(base, w.host.emitted, w.captured[k]);
      InstallSetsRenderer(base, w.host.emitted, w.native, w.captured[k]);
    case AskResync(sequence, reason) => AskKeeps(base, w.host.emitted, w.native, w.cursor, w.current, sequence, reason);
    case Local(a) => LocalKeeps(base, w.host.emitted, w.native, w.cursor, w.current, a);
    case Deliver(k) => if w.current { DeliverKeeps(base, w.host.emitted, w.native, w.cursor, k); }
    case _ =>
  }

  lemma HandleKeepsMirrors(native: Native, cursor: Option<nat>, f: Frame)
    requires MirrorsOk(native) && !f.payload.FullSnapshot?
    ensures MirrorsOk(Handle(native, cursor, f).0)
  {
    ReduceKeepsMirrors(native, SetResyncReason("sequence gap"));
    ReduceKeepsMirrors(native, ApplyFrame(f));
    if f.payload.ResyncRequired? { ReduceKeepsMirrors(native, SetResyncReason(f.payload.reason)); }
  }

  lemma InstallKeepsMirrors(native: Native, c: Captured)
    requires MirrorsOk(native) && Coherent(ApplyBootstrap(c.snapshot, c.sequence, c.events))
    ensures MirrorsOk(Installed(native, c))
  {
    var action := ApplyBootstrap(c.snapshot, c.sequence, c.events);
    ReduceKeepsMirrors(native, action);
    ReduceKeepsMirrors(Reduce(native, action), ClearResync);
  }

  lemma NextMirrors(base: View, w: World, step: Step, idFor: IdFor)
    requires MirrorsOk(w.native) && CapturesOk(base, w.host.emitted, w.captured) && NoSnapshot(Payloads(w.host.emitted))
    requires Enabled(w, step)
    ensures MirrorsOk(Next(w, step, idFor).native)
  {
    match step
    case Install(k) =>
      assert CapturedAt(base, w.host.emitted, w.captured[k]);
      InstallKeepsMirrors(w.native, w.captured[k]);
    case Deliver(k) =>
      assert Payloads(w.host.emitted)[k] in Payloads(w.host.emitted);
      HandleKeepsMirrors(w.native, w.cursor, w.host.emitted[k]);
    case AskResync(sequence, reason) => HandleKeepsMirrors(w.native, w.cursor, Frame(sequence, ResyncRequired(reason)));
    case Local(a) => ReduceKeepsMirrors(w.native, a);
    case _ =>
  }

  lemma NextKeepsWorld(idFor: IdFor, base: View, w: World, step: Step)
    requires Injective(idFor) && WorldOk(idFor, base, w) && Allowed(w, step, idFor)
    ensures WorldOk(idFor, base, Next(w, step, idFor))
    ensures w.host.emitted <= Next(w, step, idFor).host.emitted
  {
    NextHost(idFor, base, w, step);
    NextCaptures(idFor, base, w, step);
    NextRenderer(base, w, step, idFor);
    NextMirrors(base, w, step, idFor);
  }

  // ---------------------------------------------------------------- whole runs

  ghost predicate Moves(w: World, step: Step, v: World, idFor: IdFor) {
    Allowed(w, step, idFor) && v == Next(w, step, idFor)
  }

  /** The worlds of a run that starts with a fresh renderer. */
  ghost predicate IsRun(h: Host, ws: seq<World>, steps: seq<Step>, idFor: IdFor) {
    && |ws| == |steps| + 1 && ws[0] == World(h, [], INITIAL, None, false, false)
    && forall i :: 0 <= i < |steps| ==> Moves(ws[i], steps[i], ws[i + 1], idFor)
  }

  ghost predicate Starts(h: Host, idFor: IdFor) { Injective(idFor) && CoreOk(idFor, h) && h.emitted == [] }

  /** The external key itself is one way to mint session ids. */
  function KeyAsId(): IdFor { (source, externalId) => ExternalKey(source, externalId) }

  /** There are hosts to start from: an empty one with any adapters of distinct sources. */
  lemma EmptyHostStarts(settings: Settings, adapters: seq<Adapter>)
    requires UniqueSources(adapters)
    ensures var h := Host(EMPTY, settings, adapters, None, NOTHING, Repo(map[], map[], {}), 0, []);
            Starts(h, KeyAsId()) && RepoSync(h)
  {
    forall s1, x1, s2, x2 | KeyAsId()(s1, x1) == KeyAsId()(s2, x2) ensures s1 == s2 && x1 == x2 {
      ExternalKeyInjective(s1, x1, s2, x2);
    }
  }

  /** What moves keep holds along a run, from any point of it on. */
  lemma {:induction false} KeptAlong(move: (World, Step, World) -> bool, inv: World -> bool, ws: seq<World>,
                                     steps: seq<Step>, n: nat, m: nat)
    requires |ws| == |steps| + 1 && n <= m <= |steps| && inv(ws[n])
    requires forall i :: 0 <= i < |steps| ==> move(ws[i], steps[i], ws[i + 1])
    requires forall w, step, v :: inv(w) && move(w, step, v) ==> inv(v)
    ensures inv(ws[m])
  {
    if n < m {
      KeptAlong(move, inv, ws, steps, n, m - 1);
      assert move(ws[m - 1], steps[m - 1], ws[m]);
    }
  }

  ghost function Move(idFor: IdFor): (World, Step, World) -> bool {
    (w, step, v) => Moves(w, step, v, idFor)
  }

  /** The invariant, and no frame lost since some earlier world. */
  ghost function Since(idFor: IdFor, base: View, emitted: seq<Frame>): World -> bool {
    w => WorldOk(idFor, base, w) && emitted <= w.host.emitted
  }

  lemma MovesKeep(idFor: IdFor, base: View, emitted: seq<Frame>)
    requires Injective(idFor)
    ensures forall w, step, v :: Since(idFor, base, emitted)(w) && Move(idFor)(w, step, v) ==>
              Since(idFor, base, emitted)(v)
  {
    forall w, step, v | Since(idFor, base, emitted)(w) && Move(idFor)(w, step, v)
      ensures Since(idFor, base, emitted)(v)
    {
      NextKeepsWorld(idFor, base, w, step);
    }
  }

  lemma FreshIsOk(idFor: IdFor, h: Host)
    requires Starts(h, idFor)
    ensures WorldOk(idFor, ViewOf(h), World(h, [], INITIAL, None, false, false))
  {
    InitialMirrors();
  }

  lemma RunKeepsWorld(idFor: IdFor, h: Host, ws: seq<World>, steps: seq<Step>, n: nat, m: nat)
    requires Starts(h, idFor) && IsRun(h, ws, steps, idFor) && n <= m <= |steps|
    ensures WorldOk(idFor, ViewOf(h), ws[n]) && WorldOk(idFor, ViewOf(h), ws[m])
    ensures ws[n].host.emitted <= ws[m].host.emitted
  {
    FreshIsOk(idFor, h);
    var early := Since(idFor, ViewOf(h), []);
    MovesKeep(idFor, ViewOf(h), []);
    KeptAlong(Move(idFor), early, ws, steps, 0, n);
    var late := Since(idFor, ViewOf(h), ws[n].host.emitted);
    MovesKeep(idFor, ViewOf(h), ws[n].host.emitted);
    KeptAlong(Move(idFor), late, ws, steps, n, m);
  }

  /** Prefix-consistent replication: in every world of every run a current renderer shows exactly the frames
      up to its cursor, its mirrors are in step, and if the cursor is where the host stood at some
      earlier point of the run, it shows what the host itself showed then. */
  lemma PrefixConsistent(idFor: IdFor, h: Host, ws: seq<World>, steps: seq<Step>, n: nat, m: nat)
    requires Starts(h, idFor) && IsRun(h, ws, steps, idFor) && n <= m <= |steps| && ws[m].current
    ensures var w, earlier := ws[m], ws[n].host;
            && w.cursor.Some? && w.cursor.value <= |w.host.emitted| && w.native.settings.Some? && MirrorsOk(w.native)
            && ViewOfNative(w.native) == Told(ViewOf(h), w.host.emitted, w.cursor.value)
            && (|earlier.emitted| == w.cursor.value ==> ViewOfNative(w.native) == ViewOf(earlier))
  {
    RunKeepsWorld(idFor, h, ws, steps, n, m);
    var w, earlier := ws[m], ws[n].host;
    if |earlier.emitted| == w.cursor.value {
      assert w.host.emitted[..w.cursor.value] == earlier.emitted;
    }
  }

  /** Why only a current one: without a cursor any frame is taken, whatever its number. */
  lemma CleanedUpTakesAnyFrame(native: Native, f: Frame)
    requires !f.payload.ResyncRequired?
    ensures Handle(native, None, f) == (AppliedFrame(native, f), Some(f.sequence))
  {
  }

  // ---------------------------------------------------------------- metrics

  lemma MetricsFrameOut(h: Host, frame: MetricsFrame, choice: Choice, idFor: IdFor)
    requires h.pending == NOTHING
    requires IsOrder(choice.order, PushAll(NOTHING, [Metrics(frame)]).upserts.Keys)
    ensures var after := Exec(h, RecordMetrics(frame), idFor, choice);
            && after.emitted == h.emitted + [Frame(h.sequence + 1, Metrics(frame))]
            && after.reg.sessions == h.reg.sessions + MeasuredSessions(h.reg.sessions, frame)
  {
    PublishShape(h, EffectOf(h, RecordMetrics(frame), idFor, choice), choice);
    DrainedMetrics(frame, choice.order);
    NumberedOne(Metrics(frame), h.sequence);
  }

  lemma NumberedOne(p: Payload, after: nat)
    ensures Numbered([p], after) == [Frame(after + 1, p)]
  {
  }

  lemma DrainedMetrics(frame: MetricsFrame, order: seq<string>)
    requires IsOrder(order, PushAll(NOTHING, [Metrics(frame)]).upserts.Keys)
    ensures Drain(PushAll(NOTHING, [Metrics(frame)]), order) == [Metrics(frame)]
  {
    var batch := [Metrics(frame)];
    assert batch[..0] == [];
    assert PushAll(NOTHING, batch) == Push(PushAll(NOTHING, []), batch[0]);
    OrderLength(order, PushAll(NOTHING, batch).upserts.Keys);
    assert UpsertsIn(PushAll(NOTHING, batch).upserts, order) == [];
  }

  /** The excluded metric field agrees too, right after a metrics frame reaches a renderer in step. */
  lemma MetricsAgreeAfterFrame(h: Host, frame: MetricsFrame, choice: Choice, idFor: IdFor, native: Native, id: string)
    requires h.pending == NOTHING && IsOrder(choice.order, PushAll(NOTHING, [Metrics(frame)]).upserts.Keys)
    requires ReplicatedAll(native.sessions) == ReplicatedAll(h.reg.sessions) && id in h.reg.sessions
    ensures var after := Exec(h, RecordMetrics(frame), idFor, choice);
            var shown := Renderer.Measured(native, frame).sessions;
            && after.emitted == h.emitted + [Frame(h.sequence + 1, Metrics(frame))]
            && AppliedFrame(native, Frame(h.sequence + 1, Metrics(frame))).sessions == shown
            && id in shown && shown[id].metric == after.reg.sessions[id].metric
  {
    MetricsFrameOut(h, frame, choice, idFor);
    MeasuredTheSame(native.sessions, h.reg.sessions, frame, id);
    ShownAfter(native, frame, h.sequence + 1);
  }

  lemma ShownAfter(native: Native, frame: MetricsFrame, n: nat)
    ensures AppliedFrame(native, Frame(n, Metrics(frame))).sessions == Renderer.Measured(native, frame).sessions
  {
  }

  lemma MeasuredTheSame(shown: map<string, Session>, live: map<string, Session>, frame: MetricsFrame, id: string)
    requires ReplicatedAll(shown) == ReplicatedAll(live) && id in live
    ensures id in shown && WithSample(id, shown[id], frame).metric == MeasuredSessions(live, frame)[id].metric
  {
    assert id in ReplicatedAll(shown) && Replicated(shown[id]) == Replicated(live[id]);
  }
}
