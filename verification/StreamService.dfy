/** The stream objects the core updates in place: the coalescer and the bounded replay buffer. */
module StreamService {
  import opened Options
  import opened Sequences
  import opened Protocol
  import opened Coalescing
  import opened RegistryService

  const STREAM_REPLAY_CAPACITY := 1_024

  class StreamCoalescer {
    var upserts: map<string, Session>
    var metrics: Option<MetricsFrame>
    var other: seq<Payload>

    function Value(): Pending
      reads this
    {
      Pending(upserts, metrics, other)
    }

    constructor ()
      ensures Value() == NOTHING
    {
      upserts, metrics, other := map[], None, [];
    }

    method Push(p: Payload)
      modifies this
      ensures Value() == Coalescing.Push(old(Value()), p)
    {
      match p
      case SessionUpsert(s) => upserts := upserts[s.id := s];
      case Metrics(m) => metrics := Some(m);
      case _ => other := other + [p];
    }

    /** Everything pending, the upserts in some order of the hash map; nothing stays behind. */
    method Drain() returns (out: seq<Payload>, ghost order: seq<string>)
      modifies this
      ensures IsOrder(order, old(upserts).Keys) && out == Coalescing.Drain(old(Value()), order)
      ensures Value() == NOTHING
    {
      out := other;
      other := [];
      var ids := Enumerate(upserts);
      for i := 0 to |ids|
        invariant out == old(other) + UpsertsIn(upserts, ids[..i])
        invariant upserts == old(upserts) && metrics == old(metrics) && other == []
      {
        out := out + [SessionUpsert(upserts[ids[i]])];
        assert UpsertsIn(upserts, ids[..i + 1]) == UpsertsIn(upserts, ids[..i]) + [SessionUpsert(upserts[ids[i]])];
      }
      assert ids[..|ids|] == ids;
      upserts := map[];
      if metrics.Some? {
        out := out + [Metrics(metrics.value)];
        metrics := None;
      }
      order := ids;
    }
  }

  function After(k: nat): Frame -> bool { (f: Frame) => f.sequence > k }

  class StreamReplayBuffer {
    var frames: seq<Frame>
    /** Every frame ever pushed. */
    ghost var history: seq<Frame>

    ghost predicate Valid()
      reads this
    {
      frames == Last(history, STREAM_REPLAY_CAPACITY)
    }

    constructor ()
      ensures Valid() && history == []
    {
      frames, history := [], [];
    }

    method Push(f: Frame)
      requires Valid()
      modifies this
      ensures Valid() && history == old(history) + [f]
    {
      frames := frames + [f];
      history := history + [f];
      if |frames| > STREAM_REPLAY_CAPACITY {
        frames := frames[|frames| - STREAM_REPLAY_CAPACITY..];
      }
    }

    method Since(k: nat) returns (out: seq<Frame>)
      requires Valid()
      ensures out == Filter(Last(history, STREAM_REPLAY_CAPACITY), After(k))
    {
      out := Filter(frames, After(k));
    }
  }

  ghost predicate NumberedFromOne(history: seq<Frame>) {
    forall i :: 0 <= i < |history| ==> history[i].sequence == i + 1
  }

  /** How many of the frames numbered from `first` are not after k. */
  function Passed(first: nat, k: nat, length: nat): nat {
    if k < first then 0 else if k - first + 1 >= length then length else k - first + 1
  }

  lemma {:induction false} FilterParts(a: seq<Frame>, b: seq<Frame>, k: nat)
    requires forall i :: 0 <= i < |a| ==> a[i].sequence <= k
    requires forall i :: 0 <= i < |b| ==> b[i].sequence > k
    ensures Filter(a + b, After(k)) == b
  {
    FilterCut(a, b, After(k));
  }

  lemma {:induction false} FilterAfter(s: seq<Frame>, first: nat, k: nat)
    requires forall i :: 0 <= i < |s| ==> s[i].sequence == first + i
    ensures Filter(s, After(k)) == s[Passed(first, k, |s|)..]
  {
    var cut := Passed(first, k, |s|);
    var a, b := s[..cut], s[cut..];
    assert forall i :: 0 <= i < |b| ==> b[i].sequence == first + cut + i;
    FilterParts(a, b, k);
    assert a + b == s;
  }

  /** A replay resumes a subscriber without loss exactly when it is at most 1024 frames behind. */
  lemma ReplayCompleteExactly(history: seq<Frame>, k: nat)
    requires NumberedFromOne(history) && k <= |history|
    ensures Filter(Last(history, STREAM_REPLAY_CAPACITY), After(k)) == history[k..] <==>
              |history| - k <= STREAM_REPLAY_CAPACITY
  {
    var buffer := Last(history, STREAM_REPLAY_CAPACITY);
    var first := |history| - |buffer| + 1;
    FilterAfter(buffer, first, k);
  }

  /** Behind by more, the first replayed frame is not the next one: the renderer's sequence check sees it. */
  lemma ReplayLossShows(history: seq<Frame>, k: nat)
    requires NumberedFromOne(history) && |history| - k > STREAM_REPLAY_CAPACITY
    ensures var out := Filter(Last(history, STREAM_REPLAY_CAPACITY), After(k));
            out != [] && out[0].sequence > k + 1
  {
    var buffer := Last(history, STREAM_REPLAY_CAPACITY);
    FilterAfter(buffer, |history| - |buffer| + 1, k);
  }
}
