/** Attribution of live processes to registered session roots, on process tables that may
    hold cycles, orphans and reused pids. */
module ProcessTree {
  import opened Options

  const MAX_PARENT_WALK_DEPTH: nat := 256
  const START_TOLERANCE_MS := 1_000

  type Pid = nat

  datatype ProcessNode = ProcessNode(parent: Option<Pid>, startedAt: int)

  /** A snapshot keyed by pid. */
  type Table = map<Pid, ProcessNode>

  datatype Session = Session(root: Pid, startedAt: int)

  function Abs(x: int): nat { if x < 0 then -x else x }

  predicate StartTimesMatch(expected: int, observed: int) {
    Abs(expected - observed) < START_TOLERANCE_MS
  }

  /** The registered root is still the same live process. */
  predicate ValidRoot(session: Session, table: Table) {
    session.root in table && StartTimesMatch(session.startedAt, table[session.root].startedAt)
  }

  // ---------------------------------------------------------------- ancestry

  /** The process `hops` parent links above `pid`, where the table has them all. */
  function Up(table: Table, pid: Pid, hops: nat): Option<Pid>
    decreases hops
  {
    if hops == 0 then Some(pid)
    else if pid in table && table[pid].parent.Some? then Up(table, table[pid].parent.value, hops - 1)
    else None
  }

  lemma {:induction false} UpPlus(table: Table, pid: Pid, a: nat, b: nat)
    requires Up(table, pid, a).Some?
    ensures Up(table, pid, a + b) == Up(table, Up(table, pid, a).value, b)
    decreases a
  {
    if a > 0 { UpPlus(table, table[pid].parent.value, a - 1, b); }
  }

  lemma {:induction false} UpEarlier(table: Table, pid: Pid, a: nat, b: nat)
    requires a <= b && Up(table, pid, b).Some?
    ensures Up(table, pid, a).Some?
    ensures a < b ==> Up(table, pid, a).value in table && table[Up(table, pid, a).value].parent.Some?
    decreases a
  {
    if a > 0 { UpEarlier(table, table[pid].parent.value, a - 1, b - 1); }
  }

  ghost predicate Below(table: Table, pid: Pid, root: Pid) {
    exists hops: nat :: Up(table, pid, hops) == Some(root)
  }

  ghost predicate StrictlyBelow(table: Table, pid: Pid, root: Pid) {
    pid != root && Below(table, pid, root)
  }

  /** The root and every process whose parent links lead to it. */
  ghost function Descendants(table: Table, root: Pid): set<Pid> {
    set q | q in table.Keys + {root} && Below(table, q, root)
  }

  // ---------------------------------------------------------------- children index

  ghost predicate Ascending(s: seq<Pid>) {
    forall i, j :: 0 <= i < j < |s| ==> s[i] < s[j]
  }

  predicate IsChild(table: Table, kid: Pid, parent: Pid) {
    kid in table && table[kid].parent == Some(parent)
  }

  /** Every parent maps to its children in ascending order, and nothing else is a key. */
  ghost predicate IsChildrenIndex(children: map<Pid, seq<Pid>>, table: Table) {
    && (forall kid, parent :: IsChild(table, kid, parent) ==> parent in children && kid in children[parent])
    && (forall parent :: parent in children ==> Ascending(children[parent]) && children[parent] != [])
    && (forall parent, kid :: parent in children && kid in children[parent] ==> IsChild(table, kid, parent))
  }

  function InsertSorted(s: seq<Pid>, x: Pid): (r: seq<Pid>)
    ensures forall y :: y in r <==> y in s || y == x
  {
    if s == [] || x < s[0] then [x] + s else [s[0]] + InsertSorted(s[1..], x)
  }

  lemma {:induction false} InsertSortedAscending(s: seq<Pid>, x: Pid)
    requires Ascending(s) && x !in s
    ensures Ascending(InsertSorted(s, x))
  {
    var r := InsertSorted(s, x);
    if s != [] && !(x < s[0]) {
      var tail := InsertSorted(s[1..], x);
      InsertSortedAscending(s[1..], x);
      assert forall y :: y in tail ==> s[0] < y;
      forall i, j | 0 <= i < j < |r| ensures r[i] < r[j] {
        assert r[j] == tail[j - 1] && tail[j - 1] in tail;
        if i > 0 { assert r[i] == tail[i - 1]; }
      }
    } else {
      forall i, j | 0 <= i < j < |r| ensures r[i] < r[j] {
        assert r[j] == s[j - 1] && s[0] <= s[j - 1];
        if i > 0 { assert r[i] == s[i - 1]; }
      }
    }
  }

  ghost predicate ListsDone(children: map<Pid, seq<Pid>>, table: Table, done: set<Pid>) {
    forall kid, parent :: kid in done && IsChild(table, kid, parent) ==> parent in children && kid in children[parent]
  }

  ghost predicate ListsAscend(children: map<Pid, seq<Pid>>) {
    forall parent :: parent in children ==> Ascending(children[parent]) && children[parent] != []
  }

  ghost predicate ListsOnly(children: map<Pid, seq<Pid>>, table: Table, done: set<Pid>) {
    forall parent, kid :: parent in children && kid in children[parent] ==> kid in done && IsChild(table, kid, parent)
  }

  ghost predicate IndexOfSome(children: map<Pid, seq<Pid>>, table: Table, done: set<Pid>) {
    ListsDone(children, table, done) && ListsAscend(children) && ListsOnly(children, table, done)
  }

  function WithChild(children: map<Pid, seq<Pid>>, parent: Pid, pid: Pid): map<Pid, seq<Pid>> {
    children[parent := InsertSorted(if parent in children then children[parent] else [], pid)]
  }

  lemma AddChildLists(children: map<Pid, seq<Pid>>, table: Table, done: set<Pid>, pid: Pid, parent: Pid)
    requires ListsDone(children, table, done) && IsChild(table, pid, parent)
    ensures ListsDone(WithChild(children, parent, pid), table, done + {pid})
  {
  }

  lemma AddChildOnly(children: map<Pid, seq<Pid>>, table: Table, done: set<Pid>, pid: Pid, parent: Pid)
    requires ListsOnly(children, table, done) && IsChild(table, pid, parent)
    ensures ListsOnly(WithChild(children, parent, pid), table, done + {pid})
  {
  }

  lemma AddChild(children: map<Pid, seq<Pid>>, table: Table, done: set<Pid>, pid: Pid, parent: Pid)
    requires IndexOfSome(children, table, done) && IsChild(table, pid, parent) && pid !in done
    ensures IndexOfSome(WithChild(children, parent, pid), table, done + {pid})
  {
    AddChildLists(children, table, done, pid, parent);
    AddChildOnly(children, table, done, pid, parent);
    var kids := if parent in children then children[parent] else [];
    assert pid !in kids;
    InsertSortedAscending(kids, pid);
  }

  method ChildrenIndex(table: Table) returns (children: map<Pid, seq<Pid>>)
    ensures IsChildrenIndex(children, table)
  {
    children := map[];
    var todo := table.Keys;
    ghost var done: set<Pid> := {};
    while todo != {}
      invariant todo <= table.Keys && done == table.Keys - todo
      invariant IndexOfSome(children, table, done)
    {
      var pid :| pid in todo;
      if table[pid].parent.Some? {
        var parent := table[pid].parent.value;
        AddChild(children, table, done, pid, parent);
        children := WithChild(children, parent, pid);
      }
      todo, done := todo - {pid}, done + {pid};
    }
  }

  // ---------------------------------------------------------------- descendants

  ghost predicate Closed(table: Table, seen: set<Pid>, stack: seq<Pid>) {
    forall kid, parent :: parent in seen && IsChild(table, kid, parent) ==> kid in seen || kid in stack
  }

  lemma {:induction false} ClosedReachesAll(table: Table, root: Pid, seen: set<Pid>, pid: Pid, hops: nat)
    requires root in seen && Closed(table, seen, [])
    requires Up(table, pid, hops) == Some(root)
    ensures pid in seen
    decreases hops
  {
    if hops > 0 {
      var parent := table[pid].parent.value;
      ClosedReachesAll(table, root, seen, parent, hops - 1);
      assert IsChild(table, pid, parent);
    }
  }

  lemma ChildBelow(table: Table, kid: Pid, parent: Pid, root: Pid)
    requires IsChild(table, kid, parent) && Below(table, parent, root)
    ensures Below(table, kid, root)
  {
    var hops: nat :| Up(table, parent, hops) == Some(root);
    assert Up(table, kid, hops + 1) == Some(root);
  }

  lemma SmallerSet(a: set<Pid>, b: set<Pid>)
    requires a < b
    ensures |a| < |b|
  {
    assert b == a + (b - a);
    assert b - a != {};
  }

  /** Everything met so far leads up to the root. */
  ghost predicate AllBelow(table: Table, met: set<Pid>, root: Pid) { forall p :: p in met ==> Below(table, p, root) }

  method PushChildren(stack: seq<Pid>, kids: seq<Pid>, table: Table) returns (pushed: seq<Pid>)
    requires forall kid :: kid in kids ==> kid in table
    ensures forall p :: p in pushed <==> p in stack || p in kids
  {
    pushed := stack;
    for k := 0 to |kids|
      invariant forall p :: p in pushed <==> p in stack || p in kids[..k]
    {
      if kids[k] in table { pushed := pushed + [kids[k]]; }
      assert kids[..k + 1] == kids[..k] + [kids[k]];
    }
    assert kids[..|kids|] == kids;
  }

  lemma VisitKeepsClosed(table: Table, seen: set<Pid>, before: seq<Pid>, after: seq<Pid>, pid: Pid, kids: seq<Pid>)
    requires Closed(table, seen, before) && before != [] && pid == before[|before| - 1]
    requires forall kid :: kid in kids <==> IsChild(table, kid, pid)
    requires forall p :: p in after <==> p in before[..|before| - 1] || p in kids
    ensures Closed(table, seen + {pid}, after)
  {
    assert forall p :: p in before <==> p in before[..|before| - 1] || p == pid;
  }

  lemma KidsBelow(table: Table, pid: Pid, kids: seq<Pid>, root: Pid)
    requires (forall kid :: kid in kids ==> IsChild(table, kid, pid)) && Below(table, pid, root)
    ensures forall kid :: kid in kids ==> Below(table, kid, root)
  {
    forall kid | kid in kids ensures Below(table, kid, root) { ChildBelow(table, kid, pid, root); }
  }

  lemma KidsOf(children: map<Pid, seq<Pid>>, table: Table, pid: Pid)
    requires IsChildrenIndex(children, table)
    ensures forall kid :: kid in (if pid in children then children[pid] else []) <==> IsChild(table, kid, pid)
  {
  }

  lemma ClosedIsAll(table: Table, root: Pid, seen: set<Pid>)
    requires root in seen && Closed(table, seen, []) && AllBelow(table, seen, root) && seen <= table.Keys + {root}
    ensures seen == Descendants(table, root)
  {
    forall pid | Below(table, pid, root) ensures pid in seen {
      var hops: nat :| Up(table, pid, hops) == Some(root);
      ClosedReachesAll(table, root, seen, pid, hops);
    }
  }

  method CollectDescendants(root: Pid, table: Table, children: map<Pid, seq<Pid>>) returns (seen: set<Pid>)
    requires IsChildrenIndex(children, table)
    ensures seen == Descendants(table, root)
  {
    seen := {};
    var stack := [root];
    ghost var universe := table.Keys + {root};
    assert Up(table, root, 0) == Some(root);
    while stack != []
      invariant seen <= universe && forall p :: p in stack ==> p in universe && Below(table, p, root)
      invariant AllBelow(table, seen, root)
      invariant root in seen || root in stack
      invariant Closed(table, seen, stack)
      decreases |universe - seen|, |stack|
    {
      var pid := stack[|stack| - 1];
      ghost var before := stack;
      stack := stack[..|stack| - 1];
      assert forall p :: p in before <==> p in stack || p == pid;
      if pid !in seen {
        SmallerSet(universe - (seen + {pid}), universe - seen);
        var kids := if pid in children then children[pid] else [];
        KidsOf(children, table, pid);
        KidsBelow(table, pid, kids, root);
        stack := PushChildren(stack, kids, table);
        VisitKeepsClosed(table, seen, before, stack, pid, kids);
        seen := seen + {pid};
      }
    }
    ClosedIsAll(table, root, seen);
  }

  // ---------------------------------------------------------------- ownership

  predicate RootedAt(session: Session, table: Table, pid: Pid) {
    session.root == pid && ValidRoot(session, table)
  }

  /** The first session validly rooted at `pid`. */
  function FirstRoot(sessions: seq<Session>, table: Table, pid: Pid): (r: Option<nat>)
    ensures r.Some? ==> r.value < |sessions| && RootedAt(sessions[r.value], table, pid)
    ensures forall i :: 0 <= i < |sessions| && RootedAt(sessions[i], table, pid) ==> r.Some? && r.value <= i
  {
    if sessions == [] then None
    else match FirstRoot(sessions[..|sessions| - 1], table, pid)
      case Some(i) => Some(i)
      case None => if RootedAt(sessions[|sessions| - 1], table, pid) then Some(|sessions| - 1) else None
  }

  /** The owner found by walking up at most `depth - 1` links. */
  function Nearest(sessions: seq<Session>, table: Table, pid: Pid, depth: nat): Option<nat>
    decreases depth
  {
    if depth == 0 then None
    else if FirstRoot(sessions, table, pid).Some? then FirstRoot(sessions, table, pid)
    else if pid in table && table[pid].parent.Some? then Nearest(sessions, table, table[pid].parent.value, depth - 1)
    else None
  }

  /** What the walk finds: the first session of the closest valid root above, with no valid root before it. */
  lemma {:induction false} NearestIsClosest(sessions: seq<Session>, table: Table, pid: Pid, depth: nat)
    returns (hops: nat)
    requires Nearest(sessions, table, pid, depth).Some?
    ensures hops < depth && Up(table, pid, hops).Some?
    ensures Nearest(sessions, table, pid, depth) == FirstRoot(sessions, table, Up(table, pid, hops).value)
    ensures forall k: nat :: k < hops ==>
              Up(table, pid, k).Some? && FirstRoot(sessions, table, Up(table, pid, k).value).None?
    decreases depth
  {
    if FirstRoot(sessions, table, pid).Some? {
      hops := 0;
    } else {
      var parent := table[pid].parent.value;
      var rest := NearestIsClosest(sessions, table, parent, depth - 1);
      hops := rest + 1;
      forall k: nat | k < hops
        ensures Up(table, pid, k).Some? && FirstRoot(sessions, table, Up(table, pid, k).value).None?
      {
        if k > 0 { assert Up(table, pid, k) == Up(table, parent, k - 1); }
      }
    }
  }

  lemma {:induction false} NearestMonotone(sessions: seq<Session>, table: Table, pid: Pid, depth: nat, more: nat)
    requires Nearest(sessions, table, pid, depth).Some? && depth <= more
    ensures Nearest(sessions, table, pid, more) == Nearest(sessions, table, pid, depth)
    decreases depth
  {
    if FirstRoot(sessions, table, pid).None? {
      NearestMonotone(sessions, table, table[pid].parent.value, depth - 1, more - 1);
    }
  }

  function Owner(sessions: seq<Session>, table: Table, pid: Pid): Option<nat> {
    Nearest(sessions, table, pid, MAX_PARENT_WALK_DEPTH)
  }

  function Owners(sessions: seq<Session>, table: Table): map<Pid, nat> {
    map pid | pid in table && Owner(sessions, table, pid).Some? :: Owner(sessions, table, pid).value
  }

  /** After `hops` links the walk stands on a valid root of session i, and has passed none before. */
  ghost predicate ReachesRoot(sessions: seq<Session>, table: Table, pid: Pid, hops: nat, i: nat) {
    && Up(table, pid, hops).Some? && FirstRoot(sessions, table, Up(table, pid, hops).value) == Some(i)
    && forall k: nat :: k < hops ==> Rootless(sessions, table, pid, k)
  }

  /** Whatever process is `hops` links up, it is no session's valid root. */
  ghost predicate Rootless(sessions: seq<Session>, table: Table, pid: Pid, hops: nat) {
    Up(table, pid, hops).Some? ==> FirstRoot(sessions, table, Up(table, pid, hops).value).None?
  }

  /** The first session of the closest valid root fewer than `depth` links up, or none if there is no such root. */
  ghost predicate IsClosest(sessions: seq<Session>, table: Table, pid: Pid, depth: nat, owner: Option<nat>) {
    match owner
    case Some(i) => exists hops: nat :: hops < depth && ReachesRoot(sessions, table, pid, hops, i)
    case None => forall hops: nat :: hops < depth ==> Rootless(sessions, table, pid, hops)
  }

  lemma {:induction false} NearestNone(sessions: seq<Session>, table: Table, pid: Pid, depth: nat, hops: nat)
    requires Nearest(sessions, table, pid, depth).None? && hops < depth
    ensures Rootless(sessions, table, pid, hops)
    decreases depth
  {
    if hops > 0 && pid in table && table[pid].parent.Some? {
      NearestNone(sessions, table, table[pid].parent.value, depth - 1, hops - 1);
    }
  }

  /** The walk is exact in both directions: it finds the closest root, and nothing only when there is none. */
  lemma {:induction false} NearestIsExact(sessions: seq<Session>, table: Table, pid: Pid, depth: nat)
    ensures IsClosest(sessions, table, pid, depth, Nearest(sessions, table, pid, depth))
  {
    if Nearest(sessions, table, pid, depth).Some? {
      var hops := NearestIsClosest(sessions, table, pid, depth);
      assert ReachesRoot(sessions, table, pid, hops, Nearest(sessions, table, pid, depth).value);
    } else {
      forall hops: nat | hops < depth ensures Rootless(sessions, table, pid, hops) {
        NearestNone(sessions, table, pid, depth, hops);
      }
    }
  }

  method NearestRegisteredOwner(sessions: seq<Session>, table: Table, pid: Pid) returns (owner: Option<nat>)
    ensures owner == Owner(sessions, table, pid)
    ensures IsClosest(sessions, table, pid, MAX_PARENT_WALK_DEPTH, owner)
  {
    NearestIsExact(sessions, table, pid, MAX_PARENT_WALK_DEPTH);
    var current := pid;
    for hop := 0 to MAX_PARENT_WALK_DEPTH
      invariant Nearest(sessions, table, current, MAX_PARENT_WALK_DEPTH - hop) == Owner(sessions, table, pid)
    {
      var root := FirstRoot(sessions, table, current);
      if root.Some? { return root; }
      if current !in table || table[current].parent.None? { return None; }
      current := table[current].parent.value;
    }
    return None;
  }

  lemma {:induction false} OwnersAreExact(sessions: seq<Session>, table: Table, owners: map<Pid, nat>)
    requires owners == Owners(sessions, table)
    ensures forall pid :: pid in table ==>
              IsClosest(sessions, table, pid, MAX_PARENT_WALK_DEPTH, if pid in owners then Some(owners[pid]) else None)
  {
    forall pid | pid in table
      ensures IsClosest(sessions, table, pid, MAX_PARENT_WALK_DEPTH, if pid in owners then Some(owners[pid]) else None)
    {
      NearestIsExact(sessions, table, pid, MAX_PARENT_WALK_DEPTH);
    }
  }

  /** Its root pid is in the table, started less than a second from when the session registered it. */
  predicate StillRuns(session: Session, table: Table) {
    session.root in table && -1_000 < session.startedAt - table[session.root].startedAt < 1_000
  }

  /** A session whose root is gone, or whose pid was given to another process, owns nothing; a root that still
      runs is owned by a session registered for it. */
  ghost predicate OwnedByRunning(sessions: seq<Session>, table: Table, owners: map<Pid, nat>) {
    && (forall pid :: pid in owners ==>
          pid in table && owners[pid] < |sessions| && StillRuns(sessions[owners[pid]], table))
    && (forall i :: 0 <= i < |sessions| && StillRuns(sessions[i], table) ==>
          sessions[i].root in owners && owners[sessions[i].root] < |sessions|
          && sessions[owners[sessions[i].root]].root == sessions[i].root)
  }

  lemma ReusedPidOwnsNothing(sessions: seq<Session>, table: Table)
    ensures OwnedByRunning(sessions, table, Owners(sessions, table))
    ensures forall i, pid :: 0 <= i < |sessions| && !StillRuns(sessions[i], table) && pid in Owners(sessions, table) ==>
              Owners(sessions, table)[pid] != i
  {
    var owners := Owners(sessions, table);
    forall pid | pid in owners
      ensures pid in table && owners[pid] < |sessions| && StillRuns(sessions[owners[pid]], table)
    {
      var hops := NearestIsClosest(sessions, table, pid, MAX_PARENT_WALK_DEPTH);
    }
    forall i | 0 <= i < |sessions| && StillRuns(sessions[i], table)
      ensures sessions[i].root in owners && owners[sessions[i].root] < |sessions|
      ensures sessions[owners[sessions[i].root]].root == sessions[i].root
    {
      assert RootedAt(sessions[i], table, sessions[i].root);
    }
  }

  method AssignProcessOwners(sessions: seq<Session>, table: Table) returns (owners: map<Pid, nat>)
    ensures owners == Owners(sessions, table)
    ensures forall pid :: pid in table ==>
              IsClosest(sessions, table, pid, MAX_PARENT_WALK_DEPTH, if pid in owners then Some(owners[pid]) else None)
    ensures OwnedByRunning(sessions, table, owners)
  {
    owners := map[];
    var todo := table.Keys;
    while todo != {}
      invariant todo <= table.Keys
      invariant owners == map pid | pid in Owners(sessions, table) && pid !in todo :: Owners(sessions, table)[pid]
    {
      var pid :| pid in todo;
      var owner := NearestRegisteredOwner(sessions, table, pid);
      if owner.Some? { owners := owners[pid := owner.value]; }
      todo := todo - {pid};
    }
    OwnersAreExact(sessions, table, owners);
    ReusedPidOwnsNothing(sessions, table);
  }

  /** Ownership is by connected subtree: everything between an owned process and its session's root
      has the same owner and lies below that root. */
  lemma OwnedPathIsOwned(sessions: seq<Session>, table: Table, pid: Pid) returns (hops: nat)
    requires pid in Owners(sessions, table)
    ensures var i := Owners(sessions, table)[pid];
            && i < |sessions| && ValidRoot(sessions[i], table)
            && hops < MAX_PARENT_WALK_DEPTH && Up(table, pid, hops) == Some(sessions[i].root)
            && (forall k: nat :: k <= hops ==> OwnedStep(sessions, table, pid, k, i))
  {
    var i := Owners(sessions, table)[pid];
    hops := NearestIsClosest(sessions, table, pid, MAX_PARENT_WALK_DEPTH);
    forall k: nat | k <= hops ensures OwnedStep(sessions, table, pid, k, i) {
      StepIsOwned(sessions, table, pid, k, hops, i);
    }
  }

  lemma {:induction false} StepIsOwned(sessions: seq<Session>, table: Table, pid: Pid, k: nat, hops: nat, i: nat)
    requires k <= hops < MAX_PARENT_WALK_DEPTH && pid in table && i < |sessions|
    requires Owner(sessions, table, pid) == Some(i) && Up(table, pid, hops) == Some(sessions[i].root)
    requires sessions[i].root in table
    requires forall j: nat :: j < hops ==>
               Up(table, pid, j).Some? && FirstRoot(sessions, table, Up(table, pid, j).value).None?
    ensures OwnedStep(sessions, table, pid, k, i)
  {
    UpEarlier(table, pid, k, hops);
    var q := Up(table, pid, k).value;
    StepIsBelow(table, pid, k, hops, sessions[i].root);
    NearestAlong(sessions, table, pid, k, hops);
    NearestMonotone(sessions, table, q, MAX_PARENT_WALK_DEPTH - k, MAX_PARENT_WALK_DEPTH);
  }

  lemma {:induction false} StepIsBelow(table: Table, pid: Pid, k: nat, hops: nat, root: Pid)
    requires k <= hops && Up(table, pid, hops) == Some(root) && root in table
    ensures Up(table, pid, k).Some? && Up(table, pid, k).value in table
    ensures Up(table, pid, k).value in Descendants(table, root)
  {
    UpEarlier(table, pid, k, hops);
    UpPlus(table, pid, k, hops - k);
    assert Up(table, Up(table, pid, k).value, hops - k) == Some(root);
  }

  ghost predicate OwnedStep(sessions: seq<Session>, table: Table, pid: Pid, k: nat, i: nat) {
    && i < |sessions|
    && Up(table, pid, k).Some?
    && Up(table, pid, k).value in Owners(sessions, table)
    && Owners(sessions, table)[Up(table, pid, k).value] == i
    && Up(table, pid, k).value in Descendants(table, sessions[i].root)
  }

  lemma {:induction false} NearestAlong(sessions: seq<Session>, table: Table, pid: Pid, k: nat, hops: nat)
    requires k <= hops < MAX_PARENT_WALK_DEPTH && Up(table, pid, hops).Some? && Up(table, pid, k).Some?
    requires forall j: nat :: j < hops ==>
               Up(table, pid, j).Some? && FirstRoot(sessions, table, Up(table, pid, j).value).None?
    ensures Nearest(sessions, table, Up(table, pid, k).value, MAX_PARENT_WALK_DEPTH - k) ==
            Nearest(sessions, table, pid, MAX_PARENT_WALK_DEPTH)
    decreases k
  {
    if k > 0 {
      UpEarlier(table, pid, k - 1, hops);
      NearestAlong(sessions, table, pid, k - 1, hops);
      var q := Up(table, pid, k - 1).value;
      UpPlus(table, pid, k - 1, 1);
      assert Up(table, pid, k - 1 + 1) == Up(table, q, 1);
      assert Up(table, q, 1) == Some(table[q].parent.value);
    }
  }

  // ---------------------------------------------------------------- overlap

  method TreeHasOverlap(session: nat, root: Pid, owners: map<Pid, nat>, table: Table, children: map<Pid, seq<Pid>>)
    returns (overlap: bool)
    requires IsChildrenIndex(children, table)
    ensures overlap <==> exists q :: StrictlyBelow(table, q, root) && q in owners && owners[q] != session
  {
    var below := CollectDescendants(root, table, children);
    overlap := exists q :: q in below && q != root && q in owners && owners[q] != session;
    if exists q :: StrictlyBelow(table, q, root) && q in owners && owners[q] != session {
      var q :| StrictlyBelow(table, q, root) && q in owners && owners[q] != session;
      InTableWhenBelow(table, q, root);
      assert q in below;
    }
  }

  lemma InTableWhenBelow(table: Table, q: Pid, root: Pid)
    requires StrictlyBelow(table, q, root)
    ensures q in table
  {
    var hops: nat :| Up(table, q, hops) == Some(root);
  }

  ghost predicate SomeRootBelow(sessions: seq<Session>, table: Table, root: Pid) {
    exists j :: 0 <= j < |sessions| && ValidRoot(sessions[j], table) && StrictlyBelow(table, sessions[j].root, root)
  }

  ghost predicate SomethingBelow(table: Table, root: Pid) {
    exists q :: StrictlyBelow(table, q, root)
  }

  ghost predicate ForeignBelow(sessions: seq<Session>, table: Table, i: nat, root: Pid) {
    exists q :: StrictlyBelow(table, q, root) && q in Owners(sessions, table) && Owners(sessions, table)[q] != i
  }

  /** Overlap is exact: a valid root's tree holds a process of another session exactly when another
      session's valid root lies in it, or when an earlier session shares the root and the tree has
      anything below it. */
  lemma OverlapIsExact(sessions: seq<Session>, table: Table, i: nat)
    requires i < |sessions| && ValidRoot(sessions[i], table)
    ensures var root := sessions[i].root;
            ForeignBelow(sessions, table, i, root) <==>
              SomeRootBelow(sessions, table, root) ||
              (FirstRoot(sessions, table, root) != Some(i) && SomethingBelow(table, root))
  {
    var root := sessions[i].root;
    assert RootedAt(sessions[i], table, root);
    if ForeignBelow(sessions, table, i, root) {
      var q :| StrictlyBelow(table, q, root) && q in Owners(sessions, table) && Owners(sessions, table)[q] != i;
      ForeignMeansRootBelow(sessions, table, i, q);
    }
    if SomeRootBelow(sessions, table, root) {
      var j :| 0 <= j < |sessions| && ValidRoot(sessions[j], table) && StrictlyBelow(table, sessions[j].root, root);
      var q := sessions[j].root;
      assert RootedAt(sessions[j], table, q);
      assert Owner(sessions, table, q) == FirstRoot(sessions, table, q);
      assert q in Owners(sessions, table) && Owners(sessions, table)[q] != i;
    }
    if FirstRoot(sessions, table, root) != Some(i) && SomethingBelow(table, root) {
      var q :| StrictlyBelow(table, q, root);
      var kid := ChildOfRoot(table, q, root);
      assert Nearest(sessions, table, root, MAX_PARENT_WALK_DEPTH - 1) == FirstRoot(sessions, table, root);
      assert kid in Owners(sessions, table) && Owners(sessions, table)[kid] != i;
    }
  }

  lemma ForeignMeansRootBelow(sessions: seq<Session>, table: Table, i: nat, q: Pid)
    requires i < |sessions| && ValidRoot(sessions[i], table)
    requires StrictlyBelow(table, q, sessions[i].root)
    requires q in Owners(sessions, table) && Owners(sessions, table)[q] != i
    ensures var root := sessions[i].root;
            || SomeRootBelow(sessions, table, root)
            || (FirstRoot(sessions, table, root) != Some(i) && SomethingBelow(table, root))
  {
    var root := sessions[i].root;
    assert RootedAt(sessions[i], table, root);
    var up: nat :| Up(table, q, up) == Some(root);
    var m := NearestIsClosest(sessions, table, q, MAX_PARENT_WALK_DEPTH);
    var found := Up(table, q, m).value;
    var j := Owners(sessions, table)[q];
    assert RootedAt(sessions[j], table, found);
    if m <= up && found != root { MetOnTheWay(table, q, m, up, found, root); }
  }

  /** What lies on the way up to a root, short of it, is strictly below it. */
  lemma MetOnTheWay(table: Table, q: Pid, m: nat, up: nat, found: Pid, root: Pid)
    requires Up(table, q, up) == Some(root) && m <= up && Up(table, q, m) == Some(found) && found != root
    ensures StrictlyBelow(table, found, root)
  {
    UpPlus(table, q, m, up - m);
    assert Up(table, found, up - m) == Some(root);
  }

  /** Below a root with anything strictly below it, some process is its child and not itself. */
  lemma {:induction false} ChildOfRoot(table: Table, q: Pid, root: Pid) returns (kid: Pid)
    requires StrictlyBelow(table, q, root)
    ensures kid != root && IsChild(table, kid, root) && StrictlyBelow(table, kid, root)
  {
    var hops: nat :| Up(table, q, hops) == Some(root);
    kid := ChildOnPath(table, q, root, hops);
    assert Up(table, kid, 1) == Some(root);
  }

  lemma {:induction false} ChildOnPath(table: Table, q: Pid, root: Pid, hops: nat) returns (kid: Pid)
    requires q != root && Up(table, q, hops) == Some(root)
    ensures kid != root && IsChild(table, kid, root)
    decreases hops
  {
    var parent := table[q].parent.value;
    if parent == root { kid := q; } else { kid := ChildOnPath(table, parent, root, hops - 1); }
  }

  ghost predicate DistinctRoots(sessions: seq<Session>) {
    forall i, j :: 0 <= i < j < |sessions| ==> sessions[i].root != sessions[j].root
  }

  /** With distinct root pids the answer is exactly: another session's valid root lies below. */
  lemma OverlapWithDistinctRoots(sessions: seq<Session>, table: Table, i: nat)
    requires DistinctRoots(sessions) && i < |sessions| && ValidRoot(sessions[i], table)
    ensures ForeignBelow(sessions, table, i, sessions[i].root) <==> SomeRootBelow(sessions, table, sessions[i].root)
  {
    OverlapIsExact(sessions, table, i);
    assert RootedAt(sessions[i], table, sessions[i].root);
    var first := FirstRoot(sessions, table, sessions[i].root).value;
    assert sessions[first].root == sessions[i].root;
  }

  // ---------------------------------------------------------------- parent gaps

  predicate Gap(table: Table, root: Pid, pid: Pid, depth: nat)
    decreases depth
  {
    depth > 0 &&
    (pid !in table || table[pid].parent.None? ||
     (table[pid].parent.value != root && Gap(table, root, table[pid].parent.value, depth - 1)))
  }

  /** The parent chain ends `hops` links up without having passed the root. */
  ghost predicate BreaksAt(table: Table, root: Pid, pid: Pid, hops: nat) {
    && Up(table, pid, hops).Some? && Up(table, pid, hops + 1).None?
    && forall k: nat :: 1 <= k <= hops ==> Up(table, pid, k) != Some(root)
  }

  ghost predicate Breaks(table: Table, root: Pid, pid: Pid, depth: nat) {
    exists hops: nat :: hops < depth && BreaksAt(table, root, pid, hops)
  }

  lemma {:induction false} BreakFromParent(table: Table, root: Pid, pid: Pid, hops: nat)
    requires pid in table && table[pid].parent.Some?
    ensures BreaksAt(table, root, pid, hops + 1) <==>
            table[pid].parent.value != root && BreaksAt(table, root, table[pid].parent.value, hops)
  {
    var parent := table[pid].parent.value;
    assert Up(table, pid, 1) == Some(parent);
    assert forall k: nat :: Up(table, pid, k + 1) == Up(table, parent, k);
    if table[pid].parent.value != root && BreaksAt(table, root, parent, hops) {
      forall k: nat | 1 <= k <= hops + 1 ensures Up(table, pid, k) != Some(root) {
        assert Up(table, pid, k - 1 + 1) == Up(table, parent, k - 1);
      }
    }
    if BreaksAt(table, root, pid, hops + 1) {
      forall k: nat | 1 <= k <= hops ensures Up(table, parent, k) != Some(root) {
        assert Up(table, pid, k + 1) == Up(table, parent, k);
      }
    }
  }

  /** The gap walk is exact: it reports a process exactly when its chain breaks off before the root. */
  lemma {:induction false} GapIsBreak(table: Table, root: Pid, pid: Pid, depth: nat)
    ensures Gap(table, root, pid, depth) <==> Breaks(table, root, pid, depth)
    decreases depth
  {
    if depth > 0 {
      if pid !in table || table[pid].parent.None? {
        assert BreaksAt(table, root, pid, 0);
      } else {
        var parent := table[pid].parent.value;
        GapIsBreak(table, root, parent, depth - 1);
        if Gap(table, root, pid, depth) {
          var hops: nat :| hops < depth - 1 && BreaksAt(table, root, parent, hops);
          BreakFromParent(table, root, pid, hops);
        }
        if Breaks(table, root, pid, depth) {
          var hops: nat :| hops < depth && BreaksAt(table, root, pid, hops);
          assert Up(table, pid, 1) == Some(parent) && hops != 0;
          BreakFromParent(table, root, pid, hops - 1);
        }
      }
    }
  }

  method TreeHasParentGaps(root: Pid, owned: set<Pid>, table: Table) returns (gaps: bool)
    ensures gaps <==> exists pid :: pid in owned && pid != root && Breaks(table, root, pid, MAX_PARENT_WALK_DEPTH)
  {
    forall pid | pid in owned
      ensures Gap(table, root, pid, MAX_PARENT_WALK_DEPTH) <==> Breaks(table, root, pid, MAX_PARENT_WALK_DEPTH)
    {
      GapIsBreak(table, root, pid, MAX_PARENT_WALK_DEPTH);
    }
    var todo := owned;
    while todo != {}
      invariant todo <= owned
      invariant forall pid :: pid in owned - todo && pid != root ==> !Gap(table, root, pid, MAX_PARENT_WALK_DEPTH)
    {
      var pid :| pid in todo;
      todo := todo - {pid};
      if pid != root {
        var current, hop := pid, 0;
        while hop < MAX_PARENT_WALK_DEPTH
          invariant 0 <= hop <= MAX_PARENT_WALK_DEPTH
          invariant Gap(table, root, current, MAX_PARENT_WALK_DEPTH - hop) ==
                      Gap(table, root, pid, MAX_PARENT_WALK_DEPTH)
        {
          if current !in table || table[current].parent.None? { return true; }
          if table[current].parent.value == root { break; }
          current, hop := table[current].parent.value, hop + 1;
        }
        assert !Gap(table, root, pid, MAX_PARENT_WALK_DEPTH);
      }
    }
    gaps := false;
  }

  /** An owned process's chain never breaks off before its session's root. */
  lemma {:induction false} OwnedChainIsWhole(sessions: seq<Session>, table: Table, pid: Pid)
    requires pid in Owners(sessions, table)
    ensures var i := Owners(sessions, table)[pid];
            i < |sessions| && (pid != sessions[i].root ==> !Breaks(table, sessions[i].root, pid, MAX_PARENT_WALK_DEPTH))
  {
    var up := OwnedPathIsOwned(sessions, table, pid);
    var root := sessions[Owners(sessions, table)[pid]].root;
    if pid != root {
      forall hops: nat | hops < MAX_PARENT_WALK_DEPTH ensures !BreaksAt(table, root, pid, hops) {
        if up <= hops {
          assert Up(table, pid, up) == Some(root) && 1 <= up;
        } else {
          UpEarlier(table, pid, hops + 1, up);
        }
      }
    }
  }

  /** What a session's metrics are summed over. */
  function OwnedBy(owners: map<Pid, nat>, i: nat): set<Pid> { set pid | pid in owners && owners[pid] == i }

  /** On a session's own processes the gap test is never true. */
  lemma {:induction false} OwnedSetHasNoGaps(sessions: seq<Session>, table: Table, i: nat)
    requires i < |sessions|
    ensures !exists pid :: pid in OwnedBy(Owners(sessions, table), i) && pid != sessions[i].root
                           && Breaks(table, sessions[i].root, pid, MAX_PARENT_WALK_DEPTH)
  {
    forall pid | pid in OwnedBy(Owners(sessions, table), i) && pid != sessions[i].root
      ensures !Breaks(table, sessions[i].root, pid, MAX_PARENT_WALK_DEPTH)
    {
      OwnedChainIsWhole(sessions, table, pid);
    }
  }
}
