/** The spool directory and the operations that write, evict and drain it. */
module SpoolService {
  import Lex
  import opened Spool

  /** How the host answers one spooled frame during a drain. */
  datatype FrameOutcome = Refused | AcceptedAndRemoved | AcceptedNotRemoved

  /** The extension test: a name that is only the extension has none. */
  predicate IsFrame(name: string) {
    |name| > 6 && name[|name| - 6..] == ".frame"
  }

  function FrameSet(dir: Dir): set<string> { set n | n in dir && IsFrame(n) }

  function Frames(dir: Dir): seq<string> { Lex.Ascending(FrameSet(dir)) }

  /** A file that cannot be measured counts as empty. */
  function TotalBytes(dir: Dir, names: seq<string>): nat {
    if names == [] then 0
    else (if names[0] in dir then |dir[names[0]]| else 0) + TotalBytes(dir, names[1..])
  }

  predicate Fits(dir: Dir, names: seq<string>) {
    |names| < MAX_SPOOL_FILES && TotalBytes(dir, names) < MAX_SPOOL_BYTES
  }

  /** Without its lowest frame, the listing is the rest of the listing. */
  lemma FramesTail(dir: Dir)
    requires Frames(dir) != []
    ensures Frames(dir - {Frames(dir)[0]}) == Frames(dir)[1..]
    ensures Frames(dir)[0] in dir
  {
    var first := Frames(dir)[0];
    assert FrameSet(dir - {first}) == FrameSet(dir) - {first};
  }

  lemma {:induction false} TotalBytesKept(before: Dir, after: Dir, names: seq<string>)
    requires forall n :: n in names ==> n in before && n in after && before[n] == after[n]
    ensures TotalBytes(before, names) == TotalBytes(after, names)
  {
    if names != [] { TotalBytesKept(before, after, names[1..]); }
  }

  /** Finished frames are listed, unfinished ones are not. */
  lemma NamesByExtension(k: Key)
    ensures IsFrame(FrameName(k)) && !IsFrame(TempName(k))
  {
    LastOf(Pad(k.occurredAt) + "-" + Pad(k.tieBreaker) + "-" + Pad(k.counter) + "-" + k.id, ".frame", FrameName(k));
    LastOf(Pad(k.occurredAt) + "-" + Pad(k.tieBreaker) + "-" + Pad(k.counter) + "-" + k.id, ".tmp", TempName(k));
  }

  lemma LastOf(stem: string, ext: string, name: string)
    requires name == stem + ext && ext != ""
    ensures |name| >= |ext| && name[|name| - |ext|..] == ext && name[|name| - 1] == ext[|ext| - 1]
  {
  }

  ghost function Elements(s: seq<string>): set<string> { set n | n in s }

  /** The `k` lowest-sorted frames are gone, nothing else is, and fewer would not have been enough. */
  ghost predicate Evicted(before: Dir, after: Dir, k: nat) {
    && k <= |Frames(before)|
    && Frames(after) == Frames(before)[k..]
    && after == before - Elements(Frames(before)[..k])
    && forall j :: 0 <= j < k ==> !Fits(before, Frames(before)[j..])
  }

  lemma NothingEvicted(dir: Dir)
    ensures Evicted(dir, dir, 0)
  {
    assert Frames(dir)[0..] == Frames(dir);
    assert Elements(Frames(dir)[..0]) == {};
  }

  lemma EvictOne(before: Dir, dir: Dir, k: nat)
    requires Evicted(before, dir, k) && Frames(dir) != [] && !Fits(dir, Frames(dir))
    ensures Evicted(before, dir - {Frames(dir)[0]}, k + 1)
  {
    var all, files := Frames(before), Frames(dir);
    FramesTail(dir);
    assert files[0] == all[k] && files[1..] == all[k + 1..];
    DropOneMore(before, dir, all, k);
    FitsKept(dir, before, files);
  }

  lemma DropOneMore(before: Dir, dir: Dir, all: seq<string>, k: nat)
    requires k < |all| && dir == before - Elements(all[..k])
    ensures dir - {all[k]} == before - Elements(all[..k + 1])
  {
    assert all[..k + 1] == all[..k] + [all[k]];
    assert Elements(all[..k + 1]) == Elements(all[..k]) + {all[k]};
  }

  lemma FitsKept(before: Dir, after: Dir, names: seq<string>)
    requires forall n :: n in names ==> n in before && n in after && before[n] == after[n]
    ensures Fits(before, names) == Fits(after, names)
  {
    TotalBytesKept(before, after, names);
  }

  lemma EvictedOrKept(before: Dir, after: Dir, k: nat, n: string)
    requires Evicted(before, after, k) && n in before
    ensures n in after || n in Elements(Frames(before)[..k])
  {
  }

  /** The eviction loop: list, measure, drop the first. */
  method EvictFrames(before: Dir) returns (after: Dir, ghost dropped: nat)
    ensures Evicted(before, after, dropped) && Fits(after, Frames(after))
  {
    after, dropped := before, 0;
    NothingEvicted(before);
    while true
      invariant Evicted(before, after, dropped)
      decreases |Frames(before)| - dropped
    {
      var files := Frames(after);
      if Fits(after, files) { return; }
      if files == [] { return; }
      EvictOne(before, after, dropped);
      after := after - {files[0]};
      dropped := dropped + 1;
    }
  }

  /** Of the first `n` listed frames all were accepted, and all are gone except perhaps the last,
      whose deletion may have failed. Everything else is on disk as before. */
  ghost predicate DrainedTo(before: Dir, after: Dir, outcome: string -> FrameOutcome, n: nat) {
    var files := Frames(before);
    && n <= |files|
    && (forall k :: 0 <= k < n ==> !outcome(files[k]).Refused?)
    && (forall k :: 0 <= k < n - 1 ==> outcome(files[k]).AcceptedAndRemoved?)
    && after == before - Elements(files[..if n > 0 && outcome(files[n - 1]).AcceptedNotRemoved? then n - 1 else n])
  }

  lemma DrainOne(before: Dir, dir: Dir, outcome: string -> FrameOutcome, n: nat)
    requires DrainedTo(before, dir, outcome, n) && n < |Frames(before)|
    requires n > 0 ==> !outcome(Frames(before)[n - 1]).AcceptedNotRemoved?
    requires !outcome(Frames(before)[n]).Refused?
    ensures var path := Frames(before)[n];
            DrainedTo(before, if outcome(path).AcceptedNotRemoved? then dir else dir - {path}, outcome, n + 1)
  {
    var files := Frames(before);
    DropOneMore(before, dir, files, n);
  }

  /** Conservation: a listed frame was accepted or is still on disk, unchanged. */
  lemma DrainConserves(before: Dir, after: Dir, outcome: string -> FrameOutcome, n: nat, path: string)
    requires DrainedTo(before, after, outcome, n) && path in Frames(before)
    ensures path in Frames(before)[..n] || (path in after && after[path] == before[path])
  {
  }

  ghost predicate NamedByKeys(dir: Dir, keys: map<string, Key>) {
    forall n :: n in FrameSet(dir) ==> n in keys && InRange(keys[n]) && n == FrameName(keys[n])
  }

  /** Frames are offered in the numeric order of event time, tie breaker and counter. */
  lemma DrainOrderIsNumeric(dir: Dir, keys: map<string, Key>, i: nat, j: nat)
    requires NamedByKeys(dir, keys) && i < j < |Frames(dir)|
    ensures Frames(dir)[i] in keys && Frames(dir)[j] in keys && Earlier(keys[Frames(dir)[i]], keys[Frames(dir)[j]])
  {
    var a, b := Frames(dir)[i], Frames(dir)[j];
    assert a in FrameSet(dir) && b in FrameSet(dir);
    Lex.AscendingIsSorted(FrameSet(dir));
    NameOrderIsNumeric(keys[a], keys[b]);
  }

  // ---------------------------------------------------------------- storing a frame

  /** The fewest lowest-sorted frames that make room are gone, the new frame is in, the rest is as it was. */
  ghost predicate StoredInto(before: Dir, after: Dir, dropped: nat, temp: string, name: string, frame: seq<byte>) {
    && dropped <= |Frames(before)|
    && after == (before - Elements(Frames(before)[..dropped]) - {temp})[name := frame]
    && Fits(before, Frames(before)[dropped..])
    && forall j :: 0 <= j < dropped ==> !Fits(before, Frames(before)[j..])
  }

  lemma PublishCounts(before: Dir, after: Dir, temp: string, name: string, frame: seq<byte>)
    requires !IsFrame(temp) && after == (before - {temp})[name := frame]
    ensures FrameSet(before) <= FrameSet(after) <= FrameSet(before) + {name}
    ensures |FrameSet(after)| <= |FrameSet(before)| + 1
  {
    SetSize(FrameSet(after), FrameSet(before), name);
  }

  lemma SetSize(a: set<string>, b: set<string>, x: string)
    requires a <= b + {x}
    ensures |a| <= |b| + 1
  {
    CardinalityLe(a, b + {x});
  }

  lemma {:induction false} CardinalityLe(a: set<string>, b: set<string>)
    requires a <= b
    ensures |a| <= |b|
  {
    if a != {} {
      var x :| x in a;
      CardinalityLe(a - {x}, b - {x});
    }
  }

  lemma EvictThenPublish(before: Dir, kept: Dir, after: Dir, dropped: nat, temp: string, name: string, frame: seq<byte>)
    requires Evicted(before, kept, dropped) && Fits(kept, Frames(kept)) && after == (kept - {temp})[name := frame]
    requires !IsFrame(temp)
    ensures StoredInto(before, after, dropped, temp, name, frame)
    ensures FrameSet(kept) <= FrameSet(after) && |FrameSet(after)| <= MAX_SPOOL_FILES
  {
    FitsKept(kept, before, Frames(kept));
    PublishCounts(kept, after, temp, name, frame);
  }

  /** Every frame written is on disk, was evicted, or was accepted. */
  ghost predicate Accounted(spooled: set<string>, dir: Dir, evicted: set<string>, accepted: seq<string>) {
    forall n :: n in spooled ==> IsFrame(n) && (n in dir || n in evicted || n in accepted)
  }

  lemma AcceptedAccounted(spooled: set<string>, dir: Dir, evicted: set<string>, accepted: seq<string>, path: string)
    requires Accounted(spooled, dir, evicted, accepted)
    ensures Accounted(spooled, dir, evicted, accepted + [path])
    ensures Accounted(spooled, dir - {path}, evicted, accepted + [path])
  {
  }

  lemma StoredAccounted(spooled: set<string>, kept: Dir, after: Dir, evicted: set<string>, accepted: seq<string>,
                        name: string)
    requires Accounted(spooled, kept, evicted, accepted) && IsFrame(name) && name in after
    requires FrameSet(kept) <= FrameSet(after)
    ensures Accounted(spooled + {name}, after, evicted, accepted)
  {
    assert forall n :: n in spooled && n in kept ==> n in FrameSet(kept);
  }

  lemma AcceptedOneMore(before: seq<string>, files: seq<string>, n: nat)
    requires n < |files|
    ensures before + files[..n] + [files[n]] == before + files[..n + 1]
  {
    assert files[..n + 1] == files[..n] + [files[n]];
  }

  // ---------------------------------------------------------------- the spool

  class EventSpool {
    var dir: Dir
    var counter: nat
    /** History: frames ever written, evicted, and accepted by the host. */
    ghost var spooled: set<string>
    ghost var evicted: set<string>
    ghost var accepted: seq<string>

    /** No frame is lost: each one written is on disk, was accepted, or was evicted. */
    ghost predicate Valid()
      reads this
    {
      Accounted(spooled, dir, evicted, accepted)
    }

    constructor ()
      ensures Valid() && dir == map[] && spooled == {} && accepted == []
    {
      dir, counter := map[], 0;
      spooled, evicted, accepted := {}, {}, [];
    }

    method EnforceLimits() returns (ghost dropped: nat)
      requires Valid()
      modifies `dir, `evicted
      ensures Valid()
      ensures Evicted(old(dir), dir, dropped) && Fits(dir, Frames(dir))
      ensures evicted == old(evicted) + Elements(old(Frames(dir))[..dropped])
    {
      ghost var before := dir;
      dir, dropped := EvictFrames(dir);
      evicted := evicted + Elements(Frames(before)[..dropped]);
      forall n | n in before ensures n in dir || n in evicted { EvictedOrKept(before, dir, dropped, n); }
    }

    /** Evicts, writes a temporary file and renames it to its final name. */
    method SpoolMessage(occurredAt: nat, tieBreaker: nat, id: string, frame: seq<byte>)
      returns (name: string, ghost dropped: nat)
      requires Valid()
      modifies this
      ensures Valid()
      ensures name == FrameName(Key(occurredAt, tieBreaker, old(counter), id)) && counter == old(counter) + 1
      ensures StoredInto(old(dir), dir, dropped, TempName(Key(occurredAt, tieBreaker, old(counter), id)), name, frame)
      ensures evicted == old(evicted) + Elements(old(Frames(dir))[..dropped])
      ensures |FrameSet(dir)| <= MAX_SPOOL_FILES
      ensures spooled == old(spooled) + {name} && accepted == old(accepted)
    {
      var key := Key(occurredAt, tieBreaker, counter, id);
      counter := counter + 1;
      name := FrameName(key);
      NamesByExtension(key);
      dropped := StoreFrame(TempName(key), name, frame);
    }

    method StoreFrame(temp: string, name: string, frame: seq<byte>) returns (ghost dropped: nat)
      requires Valid() && IsFrame(name) && !IsFrame(temp)
      modifies `dir, `evicted, `spooled
      ensures Valid()
      ensures StoredInto(old(dir), dir, dropped, temp, name, frame)
      ensures evicted == old(evicted) + Elements(old(Frames(dir))[..dropped])
      ensures |FrameSet(dir)| <= MAX_SPOOL_FILES
      ensures spooled == old(spooled) + {name}
    {
      dropped := EnforceLimits();
      ghost var kept := dir;
      Publish(temp, name, frame);
      EvictThenPublish(old(dir), kept, dir, dropped, temp, name, frame);
      StoredAccounted(spooled, kept, dir, evicted, accepted, name);
      spooled := spooled + {name};
    }

    /** drain_spool: offers the listed frames in order, deletes what the host accepted, stops at
        the first frame it cannot hand over or cannot delete. */
    method Drain(outcome: string -> FrameOutcome) returns (n: nat)
      requires Valid()
      modifies `dir, `accepted
      ensures Valid()
      ensures n <= |old(Frames(dir))| && accepted == old(accepted) + old(Frames(dir))[..n]
      ensures DrainedTo(old(dir), dir, outcome, n)
      ensures n < |old(Frames(dir))| ==>
                outcome(old(Frames(dir))[n]).Refused? || (n > 0 && outcome(old(Frames(dir))[n - 1]).AcceptedNotRemoved?)
    {
      ghost var before := dir;
      var files := Frames(dir);
      n := 0;
      assert files[..0] == [] && before - Elements([]) == before;
      while n < |files|
        invariant n <= |files| && Valid()
        invariant accepted == old(accepted) + files[..n]
        invariant DrainedTo(before, dir, outcome, n)
        invariant n > 0 ==> !outcome(files[n - 1]).AcceptedNotRemoved?
      {
        var path := files[n];
        if outcome(path).Refused? { return; }
        DrainOne(before, dir, outcome, n);
        AcceptedAccounted(spooled, dir, evicted, accepted, path);
        AcceptedOneMore(old(accepted), files, n);
        accepted := accepted + [path];
        n := n + 1;
        if outcome(path).AcceptedNotRemoved? { return; }
        dir := dir - {path};
      }
    }

    /** Writes under a temporary name, then renames. */
    method Publish(temp: string, name: string, frame: seq<byte>)
      requires temp != name
      modifies `dir
      ensures dir == (old(dir) - {temp})[name := frame]
    {
      dir := dir[temp := frame];
      dir := (dir - {temp})[name := dir[temp]];
    }
  }
}
