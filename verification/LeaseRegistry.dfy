/**
 The write-lease registry: leases, the claim, release and check commands, and the file that holds them.

 A time is a number of milliseconds. `expiresAt` is None when the stored text is not a date.
 */
module LeaseRegistry {
  import opened Options
  import opened Globs
  import RegExp

  datatype Lease = Lease(
    lane: string, paths: seq<string>, branch: string, purpose: string, acquiredAt: int, expiresAt: Option<int>)

  /** What the shared path holds: no file, something that is not a registry, or a registry. */
  datatype FileContent = Missing | Garbled | Registry(leases: seq<Lease>)

  datatype ClaimRequest = ClaimRequest(
    lane: string, paths: seq<string>, branch: string, purpose: string, ttl: Option<int>)

  datatype Outcome =
    | Usage
    | Refused(conflicts: seq<Lease>)
    | BadTime
    | Granted(lease: Lease)
    | Released

  datatype Verdict = Unleased | Own | Deny(holder: Lease) | Advise(holder: Lease)

  /** The largest distance from the epoch that a JavaScript date can hold. */
  const MAX_TIME: int := 8_640_000_000_000_000

  function Read(content: FileContent): seq<Lease> {
    if content.Registry? then content.leases else []
  }

  predicate Expired(l: Lease, now: int) {
    l.expiresAt.None? || l.expiresAt.value <= now
  }

  function Active(leases: seq<Lease>, now: int): (r: seq<Lease>)
    ensures forall l :: l in r <==> l in leases && !Expired(l, now)
  {
    if leases == [] then []
    else (if Expired(leases[0], now) then [] else [leases[0]]) + Active(leases[1..], now)
  }

  function OfOtherLanes(leases: seq<Lease>, lane: string): (r: seq<Lease>)
    ensures forall l :: l in r <==> l in leases && l.lane != lane
  {
    if leases == [] then []
    else (if leases[0].lane == lane then [] else [leases[0]]) + OfOtherLanes(leases[1..], lane)
  }

  predicate PathsMayOverlap(a: seq<string>, b: seq<string>) {
    exists p, q | p in a && q in b :: MayOverlap(p, q)
  }

  function Conflicts(active: seq<Lease>, lane: string, paths: seq<string>): (r: seq<Lease>)
    ensures forall l :: l in r <==> l in active && l.lane != lane && PathsMayOverlap(l.paths, paths)
  {
    if active == [] then []
    else
      (if active[0].lane != lane && PathsMayOverlap(active[0].paths, paths) then [active[0]] else []) +
      Conflicts(active[1..], lane, paths)
  }

  /** What `claim` answers, given the leases it read. */
  function ClaimOutcome(leases: seq<Lease>, now: int, c: ClaimRequest): Outcome {
    if c.lane == "" || c.paths == [] then Usage
    else
      var conflicts := Conflicts(Active(leases, now), c.lane, c.paths);
      if conflicts != [] then Refused(conflicts)
      else if !(-MAX_TIME <= now <= MAX_TIME) || c.ttl.None? || !(-MAX_TIME <= now + c.ttl.value <= MAX_TIME) then
        BadTime
      else Granted(Lease(c.lane, c.paths, c.branch, c.purpose, now, Some(now + c.ttl.value)))
  }

  function WithLease(leases: seq<Lease>, now: int, lease: Lease): seq<Lease> {
    OfOtherLanes(Active(leases, now), lease.lane) + [lease]
  }

  function WithoutLane(leases: seq<Lease>, now: int, lane: string): seq<Lease> {
    OfOtherLanes(Active(leases, now), lane)
  }

  // ----- what a command does to the registry -----

  /** The lease stops the claim: another lane's, still running, and a pair of their globs may overlap. */
  predicate InTheWay(l: Lease, now: int, c: ClaimRequest) {
    && l.lane != c.lane
    && l.expiresAt.Some? && now < l.expiresAt.value
    && exists p, q | p in l.paths && q in c.paths :: MayOverlap(p, q)
  }

  /** The lease outlives a command of the lane: another lane's, and still running. */
  predicate Outlives(l: Lease, now: int, lane: string) {
    l.lane != lane && l.expiresAt.Some? && now < l.expiresAt.value
  }

  predicate Representable(time: int) {
    -8_640_000_000_000_000 <= time <= 8_640_000_000_000_000
  }

  /** What a claim answers, and which leases are there once it is granted. */
  ghost predicate ClaimDecides(leases: seq<Lease>, now: int, c: ClaimRequest, outcome: Outcome, after: seq<Lease>) {
    match outcome
    case Usage => c.lane == "" || c.paths == []
    case Refused(conflicts) =>
      && c.lane != "" && c.paths != [] && conflicts != []
      && forall l :: l in conflicts <==> l in leases && InTheWay(l, now, c)
    case BadTime =>
      && c.lane != "" && c.paths != [] && (forall l | l in leases :: !InTheWay(l, now, c))
      && !(Representable(now) && c.ttl.Some? && Representable(now + c.ttl.value))
    case Granted(lease) =>
      && c.lane != "" && c.paths != [] && (forall l | l in leases :: !InTheWay(l, now, c))
      && Representable(now) && c.ttl.Some? && Representable(now + c.ttl.value)
      && lease == Lease(c.lane, c.paths, c.branch, c.purpose, now, Some(now + c.ttl.value))
      && forall l :: l in after <==> l == lease || (l in leases && Outlives(l, now, c.lane))
    case Released => false
  }

  lemma {:induction false} ConflictsInTheWay(leases: seq<Lease>, now: int, c: ClaimRequest)
    ensures forall l :: l in Conflicts(Active(leases, now), c.lane, c.paths) <==> l in leases && InTheWay(l, now, c)
  {
  }

  lemma {:induction false} ClaimOutcomeDecides(leases: seq<Lease>, now: int, c: ClaimRequest)
    ensures var outcome := ClaimOutcome(leases, now, c);
            var after := if outcome.Granted? then WithLease(leases, now, outcome.lease) else leases;
            ClaimDecides(leases, now, c, outcome, after)
  {
    ConflictsInTheWay(leases, now, c);
    var conflicts := Conflicts(Active(leases, now), c.lane, c.paths);
    assert conflicts != [] ==> conflicts[0] in conflicts;
    hide InTheWay, Conflicts, PathsMayOverlap;
    if forall l | l in leases :: !InTheWay(l, now, c) {
      assert conflicts == [];
    }
  }

  lemma {:induction false} WithoutLaneLeaves(leases: seq<Lease>, now: int, lane: string)
    ensures forall l :: l in WithoutLane(leases, now, lane) <==> l in leases && Outlives(l, now, lane)
  {
  }

  // ----- what the registry keeps -----

  /** Different lanes, and no pair of their globs that may overlap. */
  predicate Apart(a: Lease, b: Lease) {
    a.lane != b.lane && !PathsMayOverlap(a.paths, b.paths)
  }

  /** One lease per lane, and no two leases that may overlap. */
  predicate Sound(leases: seq<Lease>) {
    leases == [] || ((forall l | l in leases[1..] :: Apart(leases[0], l)) && Sound(leases[1..]))
  }

  lemma {:induction false} SoundMeansPairwiseApart(leases: seq<Lease>, i: nat, j: nat)
    requires Sound(leases) && i < j < |leases|
    ensures Apart(leases[i], leases[j])
  {
    if i == 0 {
      assert leases[j] == leases[1..][j - 1];
    } else {
      SoundMeansPairwiseApart(leases[1..], i - 1, j - 1);
    }
  }

  lemma {:induction false} ActiveStaysSound(leases: seq<Lease>, now: int)
    requires Sound(leases)
    ensures Sound(Active(leases, now))
  {
    if leases != [] {
      ActiveStaysSound(leases[1..], now);
      if Expired(leases[0], now) {
        assert Active(leases, now) == Active(leases[1..], now);
      } else {
        assert Active(leases, now)[1..] == Active(leases[1..], now);
      }
    }
  }

  lemma {:induction false} OtherLanesStaySound(leases: seq<Lease>, lane: string)
    requires Sound(leases)
    ensures Sound(OfOtherLanes(leases, lane))
  {
    if leases != [] {
      OtherLanesStaySound(leases[1..], lane);
      if leases[0].lane == lane {
        assert OfOtherLanes(leases, lane) == OfOtherLanes(leases[1..], lane);
      } else {
        assert OfOtherLanes(leases, lane)[1..] == OfOtherLanes(leases[1..], lane);
      }
    }
  }

  lemma {:induction false} AppendStaysSound(leases: seq<Lease>, lease: Lease)
    requires Sound(leases) && forall l | l in leases :: Apart(l, lease)
    ensures Sound(leases + [lease])
  {
    if leases != [] {
      AppendStaysSound(leases[1..], lease);
      assert (leases + [lease])[1..] == leases[1..] + [lease];
    }
  }

  /** A granted claim leaves a sound registry, whatever the clocks say. */
  lemma {:induction false} GrantKeepsSound(leases: seq<Lease>, now: int, c: ClaimRequest)
    requires Sound(leases) && ClaimOutcome(leases, now, c).Granted?
    ensures Sound(WithLease(leases, now, ClaimOutcome(leases, now, c).lease))
  {
    var active := Active(leases, now);
    var lease := ClaimOutcome(leases, now, c).lease;
    ActiveStaysSound(leases, now);
    OtherLanesStaySound(active, c.lane);
    forall l | l in OfOtherLanes(active, c.lane)
      ensures Apart(l, lease)
    {
      assert l !in Conflicts(active, c.lane, c.paths);
    }
    AppendStaysSound(OfOtherLanes(active, c.lane), lease);
  }

  lemma {:induction false} ReleaseKeepsSound(leases: seq<Lease>, now: int, lane: string)
    requires Sound(leases)
    ensures Sound(WithoutLane(leases, now, lane))
  {
    ActiveStaysSound(leases, now);
    OtherLanesStaySound(Active(leases, now), lane);
  }

  // ----- who holds a file -----

  /** The files a lease covers. */
  predicate Covers(l: Lease, file: string) {
    exists g | g in l.paths :: Matches(g, file)
  }

  /** The first lease in the list that covers the file. */
  function HolderOf(leases: seq<Lease>, file: string): (holder: Option<Lease>)
    ensures holder.None? <==> forall l | l in leases :: !Covers(l, file)
    ensures holder.Some? ==> holder.value in leases && Covers(holder.value, file)
  {
    if leases == [] then None
    else if Covers(leases[0], file) then Some(leases[0])
    else HolderOf(leases[1..], file)
  }

  /** In a sound registry no two leases cover a common file. */
  lemma {:induction false} CommonFileMeansSameLease(leases: seq<Lease>, a: Lease, b: Lease, file: string)
    requires Sound(leases) && a in leases && b in leases
    requires Covers(a, file) && Covers(b, file)
    ensures a == b
  {
    var i :| 0 <= i < |leases| && leases[i] == a;
    var j :| 0 <= j < |leases| && leases[j] == b;
    if i != j {
      var p :| p in a.paths && Matches(p, file);
      var q :| q in b.paths && Matches(q, file);
      OverlapSound(p, q, file);
      OverlapSound(q, p, file);
      SoundMeansPairwiseApart(leases, if i < j then i else j, if i < j then j else i);
    }
  }

  /** So the holder that `check` finds does not depend on the order of the list. */
  lemma {:induction false} HolderIgnoresOrder(leases: seq<Lease>, reordered: seq<Lease>, now: int, file: string)
    requires Sound(leases) && multiset(leases) == multiset(reordered)
    ensures HolderOf(Active(leases, now), file) == HolderOf(Active(reordered, now), file)
  {
    assert forall l :: l in leases <==> l in multiset(leases);
    assert forall l :: l in reordered <==> l in multiset(reordered);
    var a, b := HolderOf(Active(leases, now), file), HolderOf(Active(reordered, now), file);
    if a.Some? && b.Some? {
      CommonFileMeansSameLease(leases, a.value, b.value, file);
    }
  }

  // ----- the commands, on the file -----

  method AnyPathTests(paths: seq<string>, file: string) returns (covered: bool)
    ensures covered <==> exists p | p in paths :: Matches(p, file)
  {
    for j := 0 to |paths|
      invariant forall k | 0 <= k < j :: !Matches(paths[k], file)
    {
      var source := GlobToRegExp(paths[j]);
      if RegExp.Test(source, file) {
        assert paths[j] in paths;
        return true;
      }
    }
    covered := false;
  }

  /** The search of `check`: the first lease with a glob whose regular expression accepts the file. */
  method FindHolder(active: seq<Lease>, file: string) returns (holder: Option<Lease>)
    ensures holder == HolderOf(active, file)
  {
    for i := 0 to |active|
      invariant HolderOf(active, file) == HolderOf(active[i..], file)
    {
      assert active[i..][1..] == active[i + 1..];
      var covered := AnyPathTests(active[i].paths, file);
      if covered {
        return Some(active[i]);
      }
    }
    holder := None;
  }

  class LeaseFile {
    var content: FileContent

    constructor ()
      ensures content == Missing
    {
      content := Missing;
    }

    /**
     A claim is granted unless a running lease of another lane is in its way, or its times are not dates; and a
     grant leaves the new lease and the running ones of other lanes.
     */
    method Claim(now: int, c: ClaimRequest) returns (outcome: Outcome)
      modifies this
      ensures var leases := if old(content).Registry? then old(content).leases else [];
              ClaimDecides(leases, now, c, outcome, if content.Registry? then content.leases else [])
      ensures outcome == ClaimOutcome(Read(old(content)), now, c)
      ensures outcome.Granted? ==> Read(content) == WithLease(Read(old(content)), now, outcome.lease)
      ensures !outcome.Granted? ==> content == old(content)
      ensures Sound(Read(old(content))) ==> Sound(Read(content))
    {
      var leases := Read(content);
      outcome := ClaimOutcome(leases, now, c);
      ClaimOutcomeDecides(leases, now, c);
      if outcome.Granted? {
        content := Registry(WithLease(leases, now, outcome.lease));
        if Sound(leases) {
          GrantKeepsSound(leases, now, c);
        }
      }
    }

    /** A release leaves the running leases of other lanes. */
    method Release(now: int, lane: string) returns (outcome: Outcome)
      modifies this
      ensures var leases := if old(content).Registry? then old(content).leases else [];
              outcome.Released? ==>
                content.Registry? && forall l :: l in content.leases <==> l in leases && Outlives(l, now, lane)
      ensures outcome == if lane == "" then Usage else Released
      ensures outcome.Released? ==> Read(content) == WithoutLane(Read(old(content)), now, lane)
      ensures outcome.Usage? ==> content == old(content)
      ensures Sound(Read(old(content))) ==> Sound(Read(content))
    {
      if lane == "" {
        return Usage;
      }
      var leases := Read(content);
      content := Registry(WithoutLane(leases, now, lane));
      WithoutLaneLeaves(leases, now, lane);
      if Sound(leases) {
        ReleaseKeepsSound(leases, now, lane);
      }
      outcome := Released;
    }

    /** May `lane` write the file? The empty lane and "-" ask without naming one. */
    method Check(now: int, lane: string, file: string) returns (verdict: Verdict)
      ensures verdict.Unleased? <==> forall l | l in Read(content) && !Expired(l, now) :: !Covers(l, file)
      ensures verdict.Deny? || verdict.Advise? ==>
                HolderOf(Active(Read(content), now), file) == Some(verdict.holder)
      ensures verdict.Own? ==> lane != "" && lane != "-"
      ensures Sound(Read(content)) ==>
                forall l | l in Read(content) && !Expired(l, now) && Covers(l, file) ::
                  verdict == if lane == "" || lane == "-" then Advise(l) else if l.lane == lane then Own else Deny(l)
    {
      var active := Active(Read(content), now);
      var holder := FindHolder(active, file);
      if Sound(Read(content)) && holder.Some? {
        forall l | l in Read(content) && !Expired(l, now) && Covers(l, file)
          ensures l == holder.value
        {
          CommonFileMeansSameLease(Read(content), l, holder.value, file);
        }
      }
      if holder.None? {
        verdict := Unleased;
      } else if lane != "" && lane != "-" && holder.value.lane == lane {
        verdict := Own;
      } else if lane != "" && lane != "-" {
        verdict := Deny(holder.value);
      } else {
        verdict := Advise(holder.value);
      }
    }
  }
}
