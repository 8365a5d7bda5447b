/** Coalescing of a batch of payloads before emission, and when it keeps the batch's meaning. */
module Coalescing {
  import opened Options
  import opened Sequences
  import opened Protocol
  import opened Views

  datatype Pending = Pending(upserts: map<string, Session>, metrics: Option<MetricsFrame>, other: seq<Payload>)

  const NOTHING := Pending(map[], None, [])

  function Push(c: Pending, p: Payload): Pending {
    match p
    case SessionUpsert(s) => c.(upserts := c.upserts[s.id := s])
    case Metrics(m) => c.(metrics := Some(m))
    case _ => c.(other := c.other + [p])
  }

  function PushAll(c: Pending, batch: seq<Payload>): Pending {
    if batch == [] then c else Push(PushAll(c, batch[..|batch| - 1]), batch[|batch| - 1])
  }

  /** An enumeration of the keys: hash maps are drained in any order. */
  ghost predicate IsOrder(order: seq<string>, keys: set<string>) {
    && (forall k :: k in order <==> k in keys)
    && (forall i, j :: 0 <= i < j < |order| ==> order[i] != order[j])
  }

  lemma {:induction false} OrderLength(order: seq<string>, keys: set<string>)
    requires IsOrder(order, keys)
    ensures |order| == |keys|
  {
    if order == [] {
      assert forall k :: k in keys ==> k in order;
      assert keys == {};
    } else {
      var init, last := order[..|order| - 1], order[|order| - 1];
      assert order == init + [last];
      assert last !in init;
      OrderLength(init, keys - {last});
      assert last in order;
    }
  }

  function UpsertsIn(upserts: map<string, Session>, order: seq<string>): seq<Payload>
    requires forall k :: k in order ==> k in upserts
  {
    seq(|order|, i requires 0 <= i < |order| => SessionUpsert(upserts[order[i]]))
  }

  /** What is emitted: the other payloads as pushed, then the upserts, then the latest metrics. */
  function Drain(c: Pending, order: seq<string>): seq<Payload>
    requires forall k :: k in order ==> k in c.upserts
  {
    c.other + UpsertsIn(c.upserts, order) + (if c.metrics.Some? then [Metrics(c.metrics.value)] else [])
  }

  // ---------------------------------------------------------------- the last word on a session

  predicate Concerns(p: Payload, id: string) {
    (p.SessionUpsert? && p.session.id == id) || (p.SessionRemove? && p.sessionId == id)
  }

  /** The last upsert or removal of a session in a batch. */
  function LastWord(batch: seq<Payload>, id: string): (r: Option<Payload>)
    ensures r.Some? ==> r.value in batch && Concerns(r.value, id)
  {
    if batch == [] then None
    else if Concerns(batch[|batch| - 1], id) then Some(batch[|batch| - 1])
    else LastWord(batch[..|batch| - 1], id)
  }

  lemma {:induction false} LastWordConcat(a: seq<Payload>, b: seq<Payload>, id: string)
    ensures LastWord(a + b, id) == if LastWord(b, id).Some? then LastWord(b, id) else LastWord(a, id)
  {
    if b == [] {
      assert a + b == a;
    } else {
      LastWordConcat(a, b[..|b| - 1], id);
      assert (a + b)[..|a + b| - 1] == a + b[..|b| - 1];
    }
  }

  ghost predicate NoSnapshot(batch: seq<Payload>) {
    forall p :: p in batch ==> !p.FullSnapshot?
  }

  /** A fold decides each session by the last word on it. */
  lemma {:induction false} FoldDecides(v: View, batch: seq<Payload>, id: string)
    requires NoSnapshot(batch)
    ensures match LastWord(batch, id)
      case None => (id in Fold(v, batch).sessions <==> id in v.sessions) &&
                   (id in v.sessions ==> Fold(v, batch).sessions[id] == v.sessions[id])
      case Some(p) => if p.SessionUpsert?
                      then id in Fold(v, batch).sessions && Fold(v, batch).sessions[id] == Replicated(p.session)
                      else id !in Fold(v, batch).sessions
  {
    if batch != [] { FoldDecides(v, batch[..|batch| - 1], id); }
  }

  // ---------------------------------------------------------------- what a batch leaves pending

  predicate IsOther(p: Payload) { !p.SessionUpsert? && !p.Metrics? }

  predicate Upserts(p: Payload, id: string) { p.SessionUpsert? && p.session.id == id }

  function LastUpsert(batch: seq<Payload>, id: string): (r: Option<Payload>)
    ensures r.Some? ==> r.value in batch && Upserts(r.value, id)
    ensures r.None? ==> forall p :: p in batch ==> !Upserts(p, id)
  {
    if batch == [] then None
    else if Upserts(batch[|batch| - 1], id) then Some(batch[|batch| - 1])
    else LastUpsert(batch[..|batch| - 1], id)
  }

  lemma {:induction false} PendingAfter(batch: seq<Payload>, id: string)
    ensures PushAll(NOTHING, batch).other == Filter(batch, IsOther)
    ensures id in PushAll(NOTHING, batch).upserts <==> LastUpsert(batch, id).Some?
    ensures id in PushAll(NOTHING, batch).upserts ==>
              Some(SessionUpsert(PushAll(NOTHING, batch).upserts[id])) == LastUpsert(batch, id)
  {
    if batch != [] { PendingAfter(batch[..|batch| - 1], id); }
  }

  lemma {:induction false} LastWordIn(upserts: map<string, Session>, order: seq<string>, id: string)
    requires forall k :: k in order ==> k in upserts && upserts[k].id == k
    ensures LastWord(UpsertsIn(upserts, order), id) == if id in order then Some(SessionUpsert(upserts[id])) else None
  {
    if order != [] {
      var init := order[..|order| - 1];
      LastWordIn(upserts, init, id);
      assert UpsertsIn(upserts, order)[..|order| - 1] == UpsertsIn(upserts, init);
      assert order == init + [order[|order| - 1]];
    }
  }

  /** Only removals are left to speak when no upsert of the session is in the batch. */
  lemma {:induction false} LastWordOfOthers(batch: seq<Payload>, id: string)
    ensures LastUpsert(batch, id).None? ==> LastWord(Filter(batch, IsOther), id) == LastWord(batch, id)
  {
    if batch != [] {
      var init, last := batch[..|batch| - 1], batch[|batch| - 1];
      LastWordOfOthers(init, id);
      var kept := Filter(init, IsOther);
      assert kept + [] == kept && (kept + [last])[..|kept|] == kept;
    }
  }

  lemma DrainDecides(batch: seq<Payload>, order: seq<string>, id: string)
    requires IsOrder(order, PushAll(NOTHING, batch).upserts.Keys)
    ensures LastWord(Drain(PushAll(NOTHING, batch), order), id) ==
            if LastUpsert(batch, id).Some? then LastUpsert(batch, id) else LastWord(batch, id)
  {
    var c := PushAll(NOTHING, batch);
    UpsertsKeyed(batch);
    PendingAfter(batch, id);
    LastWordIn(c.upserts, order, id);
    LastWordOfOthers(batch, id);
    DrainSpeaks(c, order, id);
  }

  lemma UpsertsKeyed(batch: seq<Payload>)
    ensures forall k :: k in PushAll(NOTHING, batch).upserts ==> PushAll(NOTHING, batch).upserts[k].id == k
  {
    forall k | k in PushAll(NOTHING, batch).upserts
      ensures PushAll(NOTHING, batch).upserts[k].id == k
    {
      PendingAfter(batch, k);
    }
  }

  lemma DrainSpeaks(c: Pending, order: seq<string>, id: string)
    requires forall k :: k in order ==> k in c.upserts
    ensures LastWord(Drain(c, order), id) ==
            if LastWord(UpsertsIn(c.upserts, order), id).Some?
            then LastWord(UpsertsIn(c.upserts, order), id) else LastWord(c.other, id)
  {
    var ups := UpsertsIn(c.upserts, order);
    LastWordConcat(c.other, ups, id);
    if c.metrics.Some? {
      var tail := [Metrics(c.metrics.value)];
      assert tail[..0] == [] && LastWord(tail, id) == None;
      LastWordConcat(c.other + ups, tail, id);
    } else {
      assert c.other + ups + [] == c.other + ups;
    }
  }

  // ---------------------------------------------------------------- settings and adapters

  lemma RestStep(a: View, b: View, p: Payload)
    requires a.settings == b.settings && a.adapters == b.adapters && !p.FullSnapshot?
    ensures ApplyPayload(a, p).settings == ApplyPayload(b, p).settings
    ensures ApplyPayload(a, p).adapters == ApplyPayload(b, p).adapters
    ensures !IsOther(p) ==> ApplyPayload(a, p).settings == b.settings && ApplyPayload(a, p).adapters == b.adapters
  {
  }

  lemma FilterOthers(batch: seq<Payload>)
    requires batch != []
    ensures var init, last := batch[..|batch| - 1], batch[|batch| - 1];
            Filter(batch, IsOther) == if IsOther(last) then Filter(init, IsOther) + [last] else Filter(init, IsOther)
  {
    var kept := Filter(batch[..|batch| - 1], IsOther);
    assert kept + [] == kept;
  }

  lemma {:induction false} OthersDecideRest(v: View, batch: seq<Payload>)
    requires NoSnapshot(batch)
    ensures Fold(v, batch).settings == Fold(v, Filter(batch, IsOther)).settings
    ensures Fold(v, batch).adapters == Fold(v, Filter(batch, IsOther)).adapters
  {
    if batch != [] {
      var init, last := batch[..|batch| - 1], batch[|batch| - 1];
      OthersDecideRest(v, init);
      RestStep(Fold(v, init), Fold(v, Filter(init, IsOther)), last);
      FilterOthers(batch);
      FoldSnoc(v, Filter(init, IsOther), last);
    }
  }

  lemma {:induction false} UpsertsKeepRest(v: View, upserts: map<string, Session>, order: seq<string>)
    requires forall k :: k in order ==> k in upserts
    ensures Fold(v, UpsertsIn(upserts, order)).settings == v.settings
    ensures Fold(v, UpsertsIn(upserts, order)).adapters == v.adapters
  {
    if order != [] {
      var init := order[..|order| - 1];
      UpsertsKeepRest(v, upserts, init);
      assert UpsertsIn(upserts, order)[..|order| - 1] == UpsertsIn(upserts, init);
    }
  }

  lemma DrainKeepsRest(v: View, batch: seq<Payload>, order: seq<string>)
    requires NoSnapshot(batch) && IsOrder(order, PushAll(NOTHING, batch).upserts.Keys)
    ensures Fold(v, Drain(PushAll(NOTHING, batch), order)).settings == Fold(v, batch).settings
    ensures Fold(v, Drain(PushAll(NOTHING, batch), order)).adapters == Fold(v, batch).adapters
  {
    var c := PushAll(NOTHING, batch);
    var ups := UpsertsIn(c.upserts, order);
    PendingAfter(batch, "");
    OthersDecideRest(v, batch);
    FoldConcat(v, c.other, ups);
    UpsertsKeepRest(Fold(v, c.other), c.upserts, order);
    if c.metrics.Some? {
      FoldSnoc(v, c.other + ups, Metrics(c.metrics.value));
    } else {
      assert c.other + ups + [] == c.other + ups;
    }
  }

  // ---------------------------------------------------------------- main result

  /** No session is upserted and then, as the last word, removed. */
  predicate UpsertUndone(batch: seq<Payload>, id: string) {
    LastUpsert(batch, id).Some? && LastWord(batch, id).Some? && LastWord(batch, id).value.SessionRemove?
  }

  ghost predicate NoUpsertUndone(batch: seq<Payload>) {
    forall id :: !UpsertUndone(batch, id)
  }

  lemma {:induction false} LastUpsertSpeaks(batch: seq<Payload>, id: string)
    ensures LastUpsert(batch, id).Some? ==> LastWord(batch, id).Some?
    ensures LastWord(batch, id).Some? && LastWord(batch, id).value.SessionUpsert? ==>
              LastUpsert(batch, id) == LastWord(batch, id)
  {
    if batch != [] { LastUpsertSpeaks(batch[..|batch| - 1], id); }
  }

  lemma DrainHasNoSnapshot(batch: seq<Payload>, order: seq<string>)
    requires NoSnapshot(batch) && IsOrder(order, PushAll(NOTHING, batch).upserts.Keys)
    ensures NoSnapshot(Drain(PushAll(NOTHING, batch), order))
  {
    PendingAfter(batch, "");
    var c := PushAll(NOTHING, batch);
    assert forall p :: p in c.other ==> p in batch;
  }

  /** Coalescing preserves meaning: whatever the drain order, the emitted frames have the effect of
      the pushed payloads, exactly when no upsert in the batch is undone by a later removal. */
  lemma CoalescingIsExact(v: View, batch: seq<Payload>, order: seq<string>)
    requires NoSnapshot(batch) && IsOrder(order, PushAll(NOTHING, batch).upserts.Keys)
    ensures Fold(v, Drain(PushAll(NOTHING, batch), order)) == Fold(v, batch) <==> NoUpsertUndone(batch)
  {
    var drained := Drain(PushAll(NOTHING, batch), order);
    DrainKeepsRest(v, batch, order);
    DrainHasNoSnapshot(batch, order);
    var a, b := Fold(v, drained).sessions, Fold(v, batch).sessions;
    forall id
      ensures !UpsertUndone(batch, id) <==> (id in a <==> id in b) && (id in a && id in b ==> a[id] == b[id])
    {
      SessionCoalesces(v, batch, order, id);
    }
    if NoUpsertUndone(batch) {
      assert a.Keys == b.Keys;
      assert a == b;
    }
  }

  lemma SessionCoalesces(v: View, batch: seq<Payload>, order: seq<string>, id: string)
    requires NoSnapshot(batch) && IsOrder(order, PushAll(NOTHING, batch).upserts.Keys)
    ensures var a := Fold(v, Drain(PushAll(NOTHING, batch), order)).sessions;
            var b := Fold(v, batch).sessions;
            !UpsertUndone(batch, id) <==> (id in a <==> id in b) && (id in a && id in b ==> a[id] == b[id])
  {
    LastUpsertSpeaks(batch, id);
    DrainHasNoSnapshot(batch, order);
    DrainDecides(batch, order, id);
    FoldDecides(v, batch, id);
    FoldDecides(v, Drain(PushAll(NOTHING, batch), order), id);
  }
}
