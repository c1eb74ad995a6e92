/**
 Which worker processes may be reaped: those whose parent is gone, never the running process or the visible
 ancestors that the bounded walk reaches.
 */
module OrphanReaper {
  import opened Options

  /** `worker` says that the command line is that of a test worker. */
  datatype Proc = Proc(pid: nat, ppid: nat, worker: bool)

  predicate Visible(procs: seq<Proc>, pid: nat) {
    exists p | p in procs :: p.pid == pid
  }

  predicate LastEntryAt(procs: seq<Proc>, pid: nat, k: nat) {
    k < |procs| && procs[k].pid == pid && forall j | k < j < |procs| :: procs[j].pid != pid
  }

  /** The process has this parent in its last entry in the listing. */
  predicate ChildOf(procs: seq<Proc>, pid: nat, ppid: nat) {
    exists k: nat | k < |procs| :: LastEntryAt(procs, pid, k) && procs[k].ppid == ppid
  }

  /** The parent of a visible process, by its last entry in the listing. */
  function ParentOf(procs: seq<Proc>, pid: nat): (parent: Option<nat>)
    ensures parent.Some? <==> Visible(procs, pid)
    ensures parent.Some? ==> exists p | p in procs :: p.pid == pid && p.ppid == parent.value
  {
    if procs == [] then None
    else
      var n := |procs| - 1;
      assert procs == procs[..n] + [procs[n]];
      if procs[n].pid == pid then Some(procs[n].ppid) else ParentOf(procs[..n], pid)
  }

  const LIMIT := 64

  /** Where the walk goes from a process: its parent, if that is not 0 and is visible. */
  function Up(procs: seq<Proc>, pid: nat): Option<nat> {
    match ParentOf(procs, pid)
    case None => None
    case Some(parent) => if parent != 0 && Visible(procs, parent) then Some(parent) else None
  }

  /** The k-th visible ancestor, the process itself being the 0-th. */
  function Ancestor(procs: seq<Proc>, start: nat, k: nat): Option<nat> {
    if k == 0 then Some(start)
    else
      match Ancestor(procs, start, k - 1)
      case None => None
      case Some(pid) => Up(procs, pid)
  }

  lemma {:induction false} LastEntryIsParent(procs: seq<Proc>, pid: nat, k: nat)
    requires LastEntryAt(procs, pid, k)
    ensures ParentOf(procs, pid) == Some(procs[k].ppid)
  {
    if k < |procs| - 1 {
      LastEntryIsParent(procs[..|procs| - 1], pid, k);
    }
  }

  lemma {:induction false} ParentHasEntry(procs: seq<Proc>, pid: nat) returns (k: nat)
    requires ParentOf(procs, pid).Some?
    ensures LastEntryAt(procs, pid, k) && ParentOf(procs, pid) == Some(procs[k].ppid)
  {
    var n := |procs| - 1;
    if procs[n].pid == pid {
      k := n;
    } else {
      k := ParentHasEntry(procs[..n], pid);
    }
  }

  lemma {:induction false} ParentIsLast(procs: seq<Proc>, pid: nat, ppid: nat)
    ensures ParentOf(procs, pid) == Some(ppid) <==> ChildOf(procs, pid, ppid)
  {
    hide ParentOf;
    if ParentOf(procs, pid) == Some(ppid) {
      var k := ParentHasEntry(procs, pid);
    }
    if ChildOf(procs, pid, ppid) {
      var k: nat :| k < |procs| && LastEntryAt(procs, pid, k) && procs[k].ppid == ppid;
      LastEntryIsParent(procs, pid, k);
    }
  }

  /** Each ancestor is the parent of the one before it, if that is a visible process and not 0. */
  lemma {:induction false} AncestorMeans(procs: seq<Proc>, start: nat, k: nat, pid: nat)
    ensures Ancestor(procs, start, 0) == Some(start)
    ensures Ancestor(procs, start, k + 1) == Some(pid) <==>
            && Ancestor(procs, start, k).Some? && ChildOf(procs, Ancestor(procs, start, k).value, pid)
            && pid != 0 && exists p | p in procs :: p.pid == pid
  {
    var before := Ancestor(procs, start, k);
    if before.Some? {
      ParentIsLast(procs, before.value, pid);
    }
    hide ParentOf, ChildOf;
  }

  ghost predicate IsAncestorWithin(procs: seq<Proc>, start: nat, pid: nat, n: nat) {
    exists k | 0 <= k <= n :: Ancestor(procs, start, k) == Some(pid)
  }

  lemma {:induction false} FirstAncestor(procs: seq<Proc>, start: nat)
    ensures Ancestor(procs, start, 0) == Some(start)
    ensures forall pid: nat :: IsAncestorWithin(procs, start, pid, 0) <==> pid == start
  {
  }

  lemma {:induction false} NextAncestor(procs: seq<Proc>, start: nat, i: nat, last: nat)
    requires Ancestor(procs, start, i) == Some(last)
    ensures Ancestor(procs, start, i + 1) ==
            var parent := ParentOf(procs, last);
            if parent.Some? && parent.value != 0 && Visible(procs, parent.value) then parent else None
  {
  }

  lemma {:induction false} GrowsByOne(procs: seq<Proc>, start: nat, i: nat)
    ensures forall pid: nat :: IsAncestorWithin(procs, start, pid, i + 1) <==>
                          IsAncestorWithin(procs, start, pid, i) || Ancestor(procs, start, i + 1) == Some(pid)
  {
    forall pid: nat
      ensures IsAncestorWithin(procs, start, pid, i + 1) <==>
              IsAncestorWithin(procs, start, pid, i) || Ancestor(procs, start, i + 1) == Some(pid)
    {
      if IsAncestorWithin(procs, start, pid, i) {
        var k :| 0 <= k <= i && Ancestor(procs, start, k) == Some(pid);
        assert 0 <= k <= i + 1;
      }
    }
  }

  lemma {:induction false} LaterIsOld(procs: seq<Proc>, start: nat, i: nat, k: nat)
    requires Ancestor(procs, start, i + 1).None? ||
             IsAncestorWithin(procs, start, Ancestor(procs, start, i + 1).value, i)
    requires Ancestor(procs, start, k).Some?
    ensures IsAncestorWithin(procs, start, Ancestor(procs, start, k).value, i)
    decreases k
  {
    if k > i {
      LaterIsOld(procs, start, i, k - 1);
      var before := Ancestor(procs, start, k - 1).value;
      var j :| 0 <= j <= i && Ancestor(procs, start, j) == Some(before);
      assert Ancestor(procs, start, j + 1) == Up(procs, before) == Ancestor(procs, start, k);
      if j < i {
        assert 0 <= j + 1 <= i;
      }
    }
  }

  /** Once the next ancestor is none or an old one, no later one is new: the walk may stop, also in a cycle. */
  lemma {:induction false} WalkIsComplete(procs: seq<Proc>, start: nat, i: nat, n: nat)
    requires i <= n
    requires Ancestor(procs, start, i + 1).None? ||
             IsAncestorWithin(procs, start, Ancestor(procs, start, i + 1).value, i)
    ensures forall pid: nat :: IsAncestorWithin(procs, start, pid, n) <==> IsAncestorWithin(procs, start, pid, i)
  {
    forall pid: nat | IsAncestorWithin(procs, start, pid, n) ensures IsAncestorWithin(procs, start, pid, i) {
      var k :| 0 <= k <= n && Ancestor(procs, start, k) == Some(pid);
      LaterIsOld(procs, start, i, k);
    }
    forall pid: nat | IsAncestorWithin(procs, start, pid, i) ensures IsAncestorWithin(procs, start, pid, n) {
      var k :| 0 <= k <= i && Ancestor(procs, start, k) == Some(pid);
      assert 0 <= k <= n;
    }
  }

  method SelfAndAncestorsFrom(procs: seq<Proc>, start: nat) returns (chain: set<nat>)
    ensures forall pid: nat :: pid in chain <==> IsAncestorWithin(procs, start, pid, 64)
  {
    chain := {start};
    var cur := ParentOf(procs, start);
    FirstAncestor(procs, start);
    hide Ancestor, ParentOf, Visible, IsAncestorWithin;
    ghost var last := start;
    var i := 0;
    while i < LIMIT && cur.Some? && cur.value != 0 && Visible(procs, cur.value) && cur.value !in chain
      invariant 0 <= i <= LIMIT
      invariant cur == ParentOf(procs, last) && Ancestor(procs, start, i) == Some(last)
      invariant forall pid: nat :: pid in chain <==> IsAncestorWithin(procs, start, pid, i)
    {
      NextAncestor(procs, start, i, last);
      GrowsByOne(procs, start, i);
      chain := chain + {cur.value};
      last := cur.value;
      cur := ParentOf(procs, cur.value);
      i := i + 1;
    }
    if i < LIMIT {
      NextAncestor(procs, start, i, last);
      WalkIsComplete(procs, start, i, LIMIT);
    }
  }

  /** A worker without a visible parent, not spared. */
  ghost predicate Orphan(procs: seq<Proc>, self: nat, p: Proc) {
    p.worker && !Visible(procs, p.ppid) && !IsAncestorWithin(procs, self, p.pid, 64)
  }

  method SelectOrphans(procs: seq<Proc>, self: nat) returns (orphans: seq<Proc>)
    ensures forall p :: p in orphans <==> p in procs && Orphan(procs, self, p)
  {
    var spared := SelfAndAncestorsFrom(procs, self);
    orphans := [];
    for i := 0 to |procs|
      invariant forall p :: p in orphans <==> p in procs[..i] && Orphan(procs, self, p)
    {
      assert procs[..i + 1] == procs[..i] + [procs[i]];
      if procs[i].worker && procs[i].pid !in spared && !Visible(procs, procs[i].ppid) {
        orphans := orphans + [procs[i]];
      }
    }
    assert procs[..|procs|] == procs;
  }

  // ----- who is never selected -----

  predicate UniquePids(procs: seq<Proc>) {
    forall p, q | p in procs && q in procs && p.pid == q.pid :: p == q
  }

  lemma {:induction false} AncestorsHaveDescendants(procs: seq<Proc>, start: nat, k: nat)
    requires k >= 1 && Ancestor(procs, start, k).Some?
    ensures Up(procs, start).Some?
  {
    if k > 1 {
      AncestorsHaveDescendants(procs, start, k - 1);
    } else {
      assert Ancestor(procs, start, 0) == Some(start);
    }
  }

  /** No descendant of any process, reached through visible parents, is selected: so none of the caller's. */
  lemma {:induction false} DescendantsAreSpared(procs: seq<Proc>, self: nat, p: Proc, k: nat, forebear: nat)
    requires UniquePids(procs) && p in procs
    requires k >= 1 && Ancestor(procs, p.pid, k) == Some(forebear)
    ensures !Orphan(procs, self, p)
  {
    AncestorsHaveDescendants(procs, p.pid, k);
  }

  /** Above a process whose parent is not visible there is nothing. */
  lemma {:induction false} NothingAbove(procs: seq<Proc>, start: nat, p: Proc, k: nat, j: nat)
    requires UniquePids(procs) && p in procs && !Visible(procs, p.ppid)
    requires Ancestor(procs, start, k) == Some(p.pid) && k < j
    ensures Ancestor(procs, start, j).None?
    decreases j
  {
    if j > k + 1 {
      NothingAbove(procs, start, p, k, j - 1);
    } else {
      assert ParentOf(procs, p.pid) == Some(p.ppid);
    }
  }

  /**
   A visible ancestor of the running process, however far up, is selected exactly if it is a worker, has no
   visible parent, and is further up than the walk goes. (The running process is its own ancestor, at 0.)
   */
  lemma {:induction false} AncestorSelectedIff(procs: seq<Proc>, self: nat, p: Proc, k: nat)
    requires UniquePids(procs) && p in procs && Ancestor(procs, self, k) == Some(p.pid)
    ensures Orphan(procs, self, p) <==> p.worker && !Visible(procs, p.ppid) && k > 64
  {
    if !Visible(procs, p.ppid) {
      if k > LIMIT && IsAncestorWithin(procs, self, p.pid, LIMIT) {
        var j :| 0 <= j <= LIMIT && Ancestor(procs, self, j) == Some(p.pid);
        NothingAbove(procs, self, p, j, k);
      }
    }
  }

  // ----- the bound is exact -----

  /** Processes 1 to n, each the child of the next. */
  function Line(n: nat): seq<Proc> {
    if n == 0 then [] else Line(n - 1) + [Proc(n, n + 1, true)]
  }

  lemma {:induction false} LineHolds(n: nat)
    ensures forall p :: p in Line(n) <==> 1 <= p.pid <= n && p == Proc(p.pid, p.pid + 1, true)
  {
    if n > 0 {
      LineHolds(n - 1);
    }
  }

  lemma {:induction false} LineShows(n: nat, pid: nat)
    ensures Visible(Line(n), pid) <==> 1 <= pid <= n
    ensures 1 <= pid <= n ==> ParentOf(Line(n), pid) == Some(pid + 1) && Proc(pid, pid + 1, true) in Line(n)
  {
    hide Line;
    LineHolds(n);
    if 1 <= pid <= n {
      assert Proc(pid, pid + 1, true) in Line(n);
    }
  }

  lemma {:induction false} LineAncestors(n: nat, k: nat)
    requires n >= 1
    ensures Ancestor(Line(n), 1, k) == if k < n then Some(k + 1) else None
  {
    hide Line, ParentOf, Visible;
    if k > 0 {
      LineAncestors(n, k - 1);
      LineShows(n, k);
      LineShows(n, k + 1);
    }
  }

  /** The bound is met: a line of processes in which the next ancestor is selected. */
  lemma {:induction false} FurtherAncestorIsSelected()
    ensures exists procs: seq<Proc>, self: nat, p: Proc ::
              && UniquePids(procs) && p in procs
              && Ancestor(procs, self, 65) == Some(p.pid) && Orphan(procs, self, p)
  {
    hide Line, Ancestor, Orphan;
    var n := LIMIT + 2;
    var procs, p := Line(n), Proc(n, n + 1, true);
    LineHolds(n);
    LineShows(n, n);
    LineShows(n, n + 1);
    LineAncestors(n, LIMIT + 1);
    AncestorSelectedIff(procs, 1, p, LIMIT + 1);
  }
}
