/**
 The lease commands as processes on one shared file. Each command takes the time, reads the whole file,
 decides, stages its new content in a file of its own and renames that over the shared one. Only the read
 and the rename touch the shared file, and any other process may run between them.

 A run is a sequence of events in any order, at any clock values; an event that is not enabled does
 nothing. Processes may die at any point, and the shared file may become unreadable at any point.
 */
module LeaseProtocol {
  import opened Options
  import opened LeaseRegistry
  import opened Globs

  datatype Command = Claiming(request: ClaimRequest) | Releasing(lane: string) {
    function Lane(): string {
      match this
      case Claiming(request) => request.lane
      case Releasing(lane) => lane
    }
  }

  datatype Phase =
    | Started
    | Loaded(now: int, seen: seq<Lease>)
    | Staged(at: int, read: seq<Lease>, staged: seq<Lease>)
    | Finished(outcome: Outcome)

  datatype Process = Process(command: Command, phase: Phase)

  datatype System = System(file: FileContent, processes: map<nat, Process>)

  datatype Event =
    | Spawn(pid: nat, command: Command)
    | Load(pid: nat, now: int)
    | Decide(pid: nat)
    | Rename(pid: nat)
    | Die(pid: nat)
    | Damage(garbled: bool)

  /** What a command answers on the leases it read. */
  function Answer(command: Command, leases: seq<Lease>, now: int): Outcome {
    match command
    case Claiming(request) => ClaimOutcome(leases, now, request)
    case Releasing(lane) => if lane == "" then Usage else Released
  }

  /** What it leaves, given that answer: its new content, or what was there. */
  function Effect(command: Command, leases: seq<Lease>, now: int): seq<Lease> {
    match Answer(command, leases, now)
    case Granted(lease) => WithLease(leases, now, lease)
    case Released => WithoutLane(leases, now, command.Lane())
    case _ => leases
  }

  predicate Writes(outcome: Outcome) {
    outcome.Granted? || outcome.Released?
  }

  function Advance(s: System, pid: nat, phase: Phase): System
    requires pid in s.processes
  {
    s.(processes := s.processes[pid := s.processes[pid].(phase := phase)])
  }

  function Step(s: System, e: Event): System {
    match e
    case Spawn(pid, command) =>
      if pid in s.processes then s else s.(processes := s.processes[pid := Process(command, Started)])
    case Load(pid, now) =>
      if pid in s.processes && s.processes[pid].phase.Started? then
        Advance(s, pid, Loaded(now, Read(s.file)))
      else s
    case Decide(pid) =>
      if pid in s.processes && s.processes[pid].phase.Loaded? then
        var p := s.processes[pid];
        var outcome := Answer(p.command, p.phase.seen, p.phase.now);
        Advance(s, pid,
                if Writes(outcome) then Staged(p.phase.now, p.phase.seen, Effect(p.command, p.phase.seen, p.phase.now))
                else Finished(outcome))
      else s
    case Rename(pid) =>
      if pid in s.processes && s.processes[pid].phase.Staged? then
        var p := s.processes[pid];
        Advance(s, pid, Finished(Answer(p.command, p.phase.read, p.phase.at))).(file := Registry(p.phase.staged))
      else s
    case Die(pid) => s.(processes := s.processes - {pid})
    case Damage(garbled) => s.(file := if garbled then Garbled else Missing)
  }

  function Run(s: System, events: seq<Event>): System
    decreases |events|
  {
    if events == [] then s else Run(Step(s, events[0]), events[1..])
  }

  predicate Initial(s: System) {
    !s.file.Registry? && s.processes == map[]
  }

  // ----- safety under every interleaving -----

  lemma {:induction false} EffectKeepsSound(command: Command, leases: seq<Lease>, now: int)
    requires Sound(leases)
    ensures Sound(Effect(command, leases, now))
  {
    match Answer(command, leases, now)
    case Granted(_) => GrantKeepsSound(leases, now, command.request);
    case Released => ReleaseKeepsSound(leases, now, command.Lane());
    case _ =>
  }

  predicate PhaseSound(p: Process) {
    match p.phase
    case Loaded(_, seen) => Sound(seen)
    case Staged(at, read, staged) =>
      Sound(read) && staged == Effect(p.command, read, at) && Writes(Answer(p.command, read, at))
    case _ => true
  }

  predicate SystemSound(s: System) {
    Sound(Read(s.file)) && forall pid | pid in s.processes :: PhaseSound(s.processes[pid])
  }

  lemma {:induction false} StepKeepsSystemSound(s: System, e: Event)
    requires SystemSound(s)
    ensures SystemSound(Step(s, e))
  {
    if e.Rename? && e.pid in s.processes && s.processes[e.pid].phase.Staged? {
      var p := s.processes[e.pid];
      EffectKeepsSound(p.command, p.phase.read, p.phase.at);
    }
  }

  lemma {:induction false} RunKeepsSystemSound(s: System, events: seq<Event>)
    requires SystemSound(s)
    ensures SystemSound(Run(s, events))
    decreases |events|
  {
    if events != [] {
      StepKeepsSystemSound(s, events[0]);
      RunKeepsSystemSound(Step(s, events[0]), events[1..]);
    }
  }

  /**
   However the processes interleave and whatever their clocks say, the registry holds at most one lease
   per lane, and no file is covered by two of its leases.
   */
  lemma {:induction false} RegistryStaysExclusive(s: System, events: seq<Event>, i: nat, j: nat, file: string)
    requires Initial(s)
    requires var leases := Read(Run(s, events).file); i < j < |leases|
    ensures var leases := Read(Run(s, events).file);
            leases[i].lane != leases[j].lane && !(Covers(leases[i], file) && Covers(leases[j], file))
  {
    RunKeepsSystemSound(s, events);
    var leases := Read(Run(s, events).file);
    SoundMeansPairwiseApart(leases, i, j);
    if Covers(leases[i], file) && Covers(leases[j], file) {
      CommonFileMeansSameLease(leases, leases[i], leases[j], file);
    }
  }

  // ----- but a grant can be lost -----

  lemma {:induction false} EffectKeepsLeaseIff(command: Command, leases: seq<Lease>, now: int, l: Lease)
    requires command.Lane() != l.lane
    ensures l in Effect(command, leases, now) <==>
            l in leases && (Writes(Answer(command, leases, now)) ==> !Expired(l, now))
  {
  }

  /** A rename at this position of a run takes effect. */
  predicate RenamesAt(s: System, events: seq<Event>, x: nat)
    requires x < |events|
  {
    var t := Run(s, events[..x]);
    events[x].Rename? && events[x].pid in t.processes && t.processes[events[x].pid].phase.Staged?
  }

  /** The process that renames there, as it was. */
  function Renamer(s: System, events: seq<Event>, x: nat): Process
    requires x < |events| && RenamesAt(s, events, x)
  {
    Run(s, events[..x]).processes[events[x].pid]
  }

  predicate TouchesAt(s: System, events: seq<Event>, x: nat)
    requires x < |events|
  {
    events[x].Damage? || RenamesAt(s, events, x)
  }

  lemma {:induction false} PrefixRenames(s: System, events: seq<Event>, n: nat)
    requires n <= |events|
    ensures forall y | 0 <= y < n :: RenamesAt(s, events[..n], y) <==> RenamesAt(s, events, y)
    ensures forall y | 0 <= y < n && RenamesAt(s, events, y) :: Renamer(s, events[..n], y) == Renamer(s, events, y)
    ensures forall y | 0 <= y < n :: TouchesAt(s, events[..n], y) <==> TouchesAt(s, events, y)
  {
    assert forall y | 0 <= y < n :: events[..n][..y] == events[..y];
  }

  lemma {:induction false} RunSnoc(s: System, events: seq<Event>, e: Event)
    ensures Run(s, events + [e]) == Step(Run(s, events), e)
    decreases |events|
  {
    if events == [] {
      assert [e][1..] == [] && [] + [e] == [e];
    } else {
      RunSnoc(Step(s, events[0]), events[1..], e);
      assert (events + [e])[1..] == events[1..] + [e];
    }
  }

  lemma {:induction false} EffectLeaves(command: Command, leases: seq<Lease>, now: int, l: Lease)
    requires Writes(Answer(command, leases, now))
    ensures l in Effect(command, leases, now) <==>
            Answer(command, leases, now) == Granted(l) || (l in leases && Outlives(l, now, command.Lane()))
  {
    if command.Claiming? {
      ClaimOutcomeDecides(leases, now, command.request);
    } else {
      WithoutLaneLeaves(leases, now, command.lane);
    }
  }

  /**
   The rename takes no second look: after any run, a lease is in the registry exactly if the process that last
   renamed was granted it, or had read it, of another lane and at a clock at which it was still running.
   */
  lemma {:induction false} RunKeepsLeaseIff(s: System, events: seq<Event>, x: nat, l: Lease)
    requires Initial(s) && x < |events| && RenamesAt(s, events, x)
    requires forall y | x < y < |events| :: !TouchesAt(s, events, y)
    ensures var p := Renamer(s, events, x);
            l in Read(Run(s, events).file) <==>
              || Answer(p.command, p.phase.read, p.phase.at) == Granted(l)
              || (l in p.phase.read && Outlives(l, p.phase.at, p.command.Lane()))
    decreases |events|
  {
    var n := |events| - 1;
    assert events == events[..n] + [events[n]];
    RunSnoc(s, events[..n], events[n]);
    if x == n {
      var p := Renamer(s, events, x);
      RunKeepsSystemSound(s, events[..x]);
      assert PhaseSound(p);
      EffectLeaves(p.command, p.phase.read, p.phase.at, l);
    } else {
      assert !TouchesAt(s, events, n);
      PrefixRenames(s, events, n);
      RunKeepsLeaseIff(s, events[..n], x, l);
    }
  }

  function BothLoad(c: ClaimRequest, d: ClaimRequest, now: int): seq<Event> {
    [] + [Spawn(1, Claiming(c))] + [Spawn(2, Claiming(d))] + [Load(1, now)] + [Load(2, now)]
  }

  /** Both processes read before either renames. */
  function BothReadFirst(c: ClaimRequest, d: ClaimRequest, now: int): seq<Event> {
    BothLoad(c, d, now) + [Decide(1)] + [Decide(2)] + [Rename(1)] + [Rename(2)]
  }

  lemma {:induction false} BothLoaded(s: System, c: ClaimRequest, d: ClaimRequest, now: int)
    requires s.processes == map[]
    ensures Run(s, BothLoad(c, d, now)) ==
            System(s.file, map[1 := Process(Claiming(c), Loaded(now, Read(s.file))),
                               2 := Process(Claiming(d), Loaded(now, Read(s.file)))])
  {
    var e1, e2, e3 := Spawn(1, Claiming(c)), Spawn(2, Claiming(d)), Load(1, now);
    RunSnoc(s, [], e1);
    RunSnoc(s, [] + [e1], e2);
    RunSnoc(s, [] + [e1] + [e2], e3);
    RunSnoc(s, [] + [e1] + [e2] + [e3], Load(2, now));
  }

  /** Any two claims that would be granted alone are then both granted, and the later rename is what remains. */
  lemma {:induction false} BothGranted(file: FileContent, c: ClaimRequest, d: ClaimRequest, now: int)
    requires ClaimOutcome(Read(file), now, c).Granted? && ClaimOutcome(Read(file), now, d).Granted?
    ensures var t := Run(System(file, map[]), BothReadFirst(c, d, now));
            && 1 in t.processes && t.processes[1].phase == Finished(ClaimOutcome(Read(file), now, c))
            && 2 in t.processes && t.processes[2].phase == Finished(ClaimOutcome(Read(file), now, d))
            && Read(t.file) == WithLease(Read(file), now, ClaimOutcome(Read(file), now, d).lease)
  {
    var s, es := System(file, map[]), BothLoad(c, d, now);
    BothLoaded(s, c, d, now);
    RunSnoc(s, es, Decide(1));
    RunSnoc(s, es + [Decide(1)], Decide(2));
    RunSnoc(s, es + [Decide(1)] + [Decide(2)], Rename(1));
    RunSnoc(s, es + [Decide(1)] + [Decide(2)] + [Rename(1)], Rename(2));
  }

  lemma {:induction false} DeepCoversAll(l: Lease, file: string)
    requires l.paths == ["**"] && OneLine(file)
    ensures Covers(l, file)
  {
    DirectoryClaim("", file);
    assert "" + "**" == "**" && file[0..] == file;
    assert l.paths[0] in l.paths;
  }

  lemma {:induction false} FirstClaimGranted(c: ClaimRequest)
    requires c.lane != "" && c.paths != [] && c.ttl == Some(1000)
    ensures ClaimOutcome([], 0, c) == Granted(Lease(c.lane, c.paths, c.branch, c.purpose, 0, Some(1000)))
    ensures WithLease([], 0, ClaimOutcome([], 0, c).lease) == [ClaimOutcome([], 0, c).lease]
  {
    assert Active([], 0) == [] && OfOtherLanes([], c.lane) == [] && Conflicts([], c.lane, c.paths) == [];
  }

  /** Two lanes can both be told that they hold the same file, and only one of the leases remains. */
  lemma {:induction false} InterleavedClaimsClash(file: string)
    requires OneLine(file)
    ensures exists events: seq<Event>, a: Lease, b: Lease ::
              var t := Run(System(Missing, map[]), events);
              && 1 in t.processes && t.processes[1].phase == Finished(Granted(a))
              && 2 in t.processes && t.processes[2].phase == Finished(Granted(b))
              && a.lane != b.lane && a !in Read(t.file)
              && Covers(a, file) && Covers(b, file)
  {
    var c := ClaimRequest("GA", ["**"], "main", "one", Some(1000));
    var d := ClaimRequest("XC", ["**"], "main", "two", Some(1000));
    assert "GA"[0] != "XC"[0];
    hide Run, ClaimOutcome, WithLease, Covers, OneLine, BothReadFirst;
    FirstClaimGranted(c);
    FirstClaimGranted(d);
    BothGranted(Missing, c, d, 0);
    DeepCoversAll(ClaimOutcome([], 0, c).lease, file);
    DeepCoversAll(ClaimOutcome([], 0, d).lease, file);
  }

  // ----- runs in which no rename is stale, and runs one command at a time -----

  datatype Commit = Commit(command: Command, now: int)

  function RunSerially(leases: seq<Lease>, commits: seq<Commit>): seq<Lease>
    decreases |commits|
  {
    if commits == [] then leases
    else RunSerially(Effect(commits[0].command, leases, commits[0].now), commits[1..])
  }

  /** Every rename finds the file as its process read it, and nothing damages the file. */
  predicate FreshRun(s: System, events: seq<Event>)
    decreases |events|
  {
    events == [] ||
    (&& !events[0].Damage?
     && (events[0].Rename? && events[0].pid in s.processes && s.processes[events[0].pid].phase.Staged? ==>
           s.processes[events[0].pid].phase.read == Read(s.file))
     && FreshRun(Step(s, events[0]), events[1..]))
  }

  /** The commands whose rename took effect, in that order. */
  function Commits(s: System, events: seq<Event>): seq<Commit>
    decreases |events|
  {
    if events == [] then []
    else
      var e := events[0];
      (if e.Rename? && e.pid in s.processes && s.processes[e.pid].phase.Staged? then
         [Commit(s.processes[e.pid].command, s.processes[e.pid].phase.at)]
       else []) + Commits(Step(s, e), events[1..])
  }

  /** Without stale renames, an interleaved run leaves what its commands leave one after another. */
  lemma {:induction false} FreshRunIsSerial(s: System, events: seq<Event>)
    requires SystemSound(s) && FreshRun(s, events)
    ensures Read(Run(s, events).file) == RunSerially(Read(s.file), Commits(s, events))
    decreases |events|
  {
    if events != [] {
      var e, rest := events[0], Commits(Step(s, events[0]), events[1..]);
      StepKeepsSystemSound(s, e);
      FreshRunIsSerial(Step(s, e), events[1..]);
      if e.Rename? && e.pid in s.processes && s.processes[e.pid].phase.Staged? {
        assert PhaseSound(s.processes[e.pid]);
        assert Commits(s, events)[1..] == rest;
      } else {
        assert Commits(s, events) == rest;
      }
    }
  }

  // ----- why two grants can clash -----

  predicate GrantsAt(s: System, events: seq<Event>, x: nat, l: Lease)
    requires x < |events|
  {
    RenamesAt(s, events, x) &&
    var p := Renamer(s, events, x);
    Answer(p.command, p.phase.read, p.phase.at) == Granted(l)
  }

  lemma {:induction false} LaterGrantIsApart(leases: seq<Lease>, held: Lease, d: ClaimRequest, now: int, file: string)
    requires Sound(leases) && held in leases && !Expired(held, now) && held.lane != d.lane
    requires ClaimOutcome(leases, now, d).Granted?
    ensures !(Covers(held, file) && Covers(ClaimOutcome(leases, now, d).lease, file))
  {
    var second := ClaimOutcome(leases, now, d).lease;
    var final := WithLease(leases, now, second);
    GrantKeepsSound(leases, now, d);
    if Covers(held, file) && Covers(second, file) {
      CommonFileMeansSameLease(final, held, second, file);
    }
  }

  /**
   In any run, however it interleaves: a grant shares a file with a lease of another lane only if the process
   that was granted had not read that lease, or found it expired at its clock. Nothing else can go wrong.
   */
  lemma {:induction false} ClashNeedsUnreadLease(
      s: System, events: seq<Event>, y: nat, a: Lease, b: Lease, file: string)
    requires Initial(s) && y < |events| && GrantsAt(s, events, y, b) && a.lane != b.lane
    requires Covers(a, file) && Covers(b, file)
    ensures a !in Renamer(s, events, y).phase.read || Expired(a, Renamer(s, events, y).phase.at)
  {
    var q := Renamer(s, events, y);
    RunKeepsSystemSound(s, events[..y]);
    assert PhaseSound(q);
    if a in q.phase.read && !Expired(a, q.phase.at) {
      LaterGrantIsApart(q.phase.read, a, q.command.request, q.phase.at, file);
    }
  }

  /**
   Between two positions nothing happens to the lease: no damage, and every rename is of another lane, at a
   clock at which the lease has not expired, by a process that had read the file as it then was.
   */
  predicate Undisturbed(s: System, events: seq<Event>, l: Lease, x: nat, n: nat)
    requires n <= |events|
  {
    forall z | x < z < n ::
      && !events[z].Damage?
      && (RenamesAt(s, events, z) ==>
            var p := Renamer(s, events, z);
            && p.command.Lane() != l.lane && !Expired(l, p.phase.at)
            && p.phase.read == Read(Run(s, events[..z]).file))
  }

  lemma {:induction false} GrantStays(s: System, events: seq<Event>, x: nat, n: nat, l: Lease)
    requires SystemSound(s) && x < n <= |events|
    requires GrantsAt(s, events, x, l) && Undisturbed(s, events, l, x, n)
    ensures l in Read(Run(s, events[..n]).file)
    decreases n
  {
    hide Run, Sound, Expired;
    var z := n - 1;
    assert events[..n] == events[..z] + [events[z]];
    RunSnoc(s, events[..z], events[z]);
    if RenamesAt(s, events, z) {
      var p := Renamer(s, events, z);
      RunKeepsSystemSound(s, events[..z]);
      assert PhaseSound(p);
      if z > x {
        GrantStays(s, events, x, z, l);
        EffectKeepsLeaseIff(p.command, p.phase.read, p.phase.at, l);
      }
    } else {
      GrantStays(s, events, x, z, l);
    }
  }

  /** A lease that nothing disturbed since its grant was read by the next process to be granted. */
  lemma {:induction false} UndisturbedIsRead(s: System, events: seq<Event>, x: nat, y: nat, a: Lease)
    requires SystemSound(s) && x < y < |events| && GrantsAt(s, events, x, a) && RenamesAt(s, events, y)
    requires Undisturbed(s, events, a, x, y + 1)
    ensures a in Renamer(s, events, y).phase.read && !Expired(a, Renamer(s, events, y).phase.at)
  {
    GrantStays(s, events, x, y, a);
  }

  /** The position at which a process that was told Granted renamed last. */
  predicate ToldAt(s: System, events: seq<Event>, x: nat, pid: nat, l: Lease) {
    && x < |events| && GrantsAt(s, events, x, l) && events[x].pid == pid
    && forall y | x < y < |events| && RenamesAt(s, events, y) :: events[y].pid != pid
  }

  predicate WasTold(t: System, pid: nat, l: Lease) {
    pid in t.processes && t.processes[pid].phase == Finished(Granted(l))
  }

  lemma {:induction false} GrantedBefore(s: System, e: Event, pid: nat, l: Lease)
    requires WasTold(Step(s, e), pid, l)
    requires !(e.Rename? && e.pid == pid && pid in s.processes && s.processes[pid].phase.Staged?)
    ensures WasTold(s, pid, l)
  {
  }

  lemma {:induction false} ToldGranted(s: System, events: seq<Event>, pid: nat, l: Lease) returns (x: nat)
    requires s.processes == map[] && WasTold(Run(s, events), pid, l)
    ensures ToldAt(s, events, x, pid, l)
    decreases |events|
  {
    var n := |events| - 1;
    assert events == events[..n] + [events[n]];
    RunSnoc(s, events[..n], events[n]);
    if RenamesAt(s, events, n) && events[n].pid == pid {
      x := n;
    } else {
      GrantedBefore(Run(s, events[..n]), events[n], pid, l);
      x := ToldGranted(s, events[..n], pid, l);
      PrefixRenames(s, events, n);
    }
  }

  /**
   So two processes that were told Granted, for different lanes, hold a common file only if the later one had
   not read the lease of the earlier, or found it expired; and if nothing disturbed the earlier lease between
   the two renames, it had read it. What happened before, or after, or elsewhere does not matter.
   */
  lemma {:induction false} GrantedProcessesAreExclusive(
      s: System, events: seq<Event>, p: nat, q: nat, a: Lease, b: Lease, file: string) returns (x: nat, y: nat)
    requires Initial(s) && a.lane != b.lane
    requires WasTold(Run(s, events), p, a) && WasTold(Run(s, events), q, b)
    ensures ToldAt(s, events, x, p, a) && ToldAt(s, events, y, q, b) && x != y
    ensures x < y && Covers(a, file) && Covers(b, file) ==>
              && (a !in Renamer(s, events, y).phase.read || Expired(a, Renamer(s, events, y).phase.at))
              && !Undisturbed(s, events, a, x, y + 1)
    ensures y < x && Covers(a, file) && Covers(b, file) ==>
              && (b !in Renamer(s, events, x).phase.read || Expired(b, Renamer(s, events, x).phase.at))
              && !Undisturbed(s, events, b, y, x + 1)
  {
    x := ToldGranted(s, events, p, a);
    y := ToldGranted(s, events, q, b);
    if Covers(a, file) && Covers(b, file) {
      ClashNeedsUnreadLease(s, events, y, a, b, file);
      ClashNeedsUnreadLease(s, events, x, b, a, file);
      if x < y && Undisturbed(s, events, a, x, y + 1) {
        UndisturbedIsRead(s, events, x, y, a);
      }
      if y < x && Undisturbed(s, events, b, y, x + 1) {
        UndisturbedIsRead(s, events, y, x, b);
      }
    }
  }

  // ----- how long a lease stays -----

  predicate WritesAt(leases: seq<Lease>, commits: seq<Commit>, i: nat)
    requires i < |commits|
  {
    Writes(Answer(commits[i].command, RunSerially(leases, commits[..i]), commits[i].now))
  }

  lemma {:induction false} RunSeriallySnoc(leases: seq<Lease>, commits: seq<Commit>, c: Commit)
    ensures RunSerially(leases, commits + [c]) == Effect(c.command, RunSerially(leases, commits), c.now)
    decreases |commits|
  {
    if commits == [] {
      assert [c][1..] == [] && [] + [c] == [c];
    } else {
      RunSeriallySnoc(Effect(commits[0].command, leases, commits[0].now), commits[1..], c);
      assert (commits + [c])[1..] == commits[1..] + [c];
    }
  }

  /**
   One command at a time, and whatever the clocks say: a lease stays through commands of other lanes exactly
   if each of them that writes does so at a clock at which the lease has not expired.
   */
  lemma {:induction false} LeaseStaysIff(leases: seq<Lease>, commits: seq<Commit>, l: Lease)
    requires l in leases && forall c | c in commits :: c.command.Lane() != l.lane
    ensures l in RunSerially(leases, commits) <==>
            forall i | 0 <= i < |commits| && WritesAt(leases, commits, i) :: !Expired(l, commits[i].now)
    decreases |commits|
  {
    if commits != [] {
      var n := |commits| - 1;
      var init, c := commits[..n], commits[n];
      assert commits == init + [c];
      LeaseStaysIff(leases, init, l);
      RunSeriallySnoc(leases, init, c);
      EffectKeepsLeaseIff(c.command, RunSerially(leases, init), c.now, l);
      assert forall i | 0 <= i < n :: commits[..i] == init[..i];
      assert forall i | 0 <= i < n :: WritesAt(leases, init, i) <==> WritesAt(leases, commits, i);
      assert WritesAt(leases, commits, n) <==> Writes(Answer(c.command, RunSerially(leases, init), c.now));
    }
  }

  predicate ClockNondecreasing(commits: seq<Commit>) {
    forall i, j | 0 <= i < j < |commits| :: commits[i].now <= commits[j].now
  }

  /** So with a clock that never goes back it stays until it expires. */
  lemma {:induction false} GrantSurvives(leases: seq<Lease>, commits: seq<Commit>, l: Lease)
    requires l in leases
    requires ClockNondecreasing(commits)
    requires forall c | c in commits :: c.command.Lane() != l.lane
    requires commits != [] ==> !Expired(l, commits[|commits| - 1].now)
    ensures l in RunSerially(leases, commits)
  {
    LeaseStaysIff(leases, commits, l);
    forall i | 0 <= i < |commits| ensures !Expired(l, commits[i].now) {
      assert commits[i].now <= commits[|commits| - 1].now;
    }
  }

  /** The clock matters: after it goes back, a lease that still looks live has already been dropped. */
  lemma {:induction false} ClockGoingBackDropsLease()
    ensures exists leases: seq<Lease>, commits: seq<Commit>, l: Lease ::
              && l in leases && |commits| == 2 && !Expired(l, commits[1].now)
              && (forall c | c in commits :: c.command.Lane() != l.lane)
              && l !in RunSerially(leases, commits)
  {
    var l := Lease("GA", ["src/**"], "main", "one", 0, Some(10));
    var commits := [Commit(Releasing("XC"), 20), Commit(Releasing("XC"), 5)];
    var after := Effect(commits[0].command, [l], 20);
    assert l !in after;
    assert RunSerially([l], commits) == RunSerially(after, commits[1..])
        == RunSerially(Effect(commits[1].command, after, 5), []);
    assert "XC"[0] != "GA"[0];
    assert forall c | c in commits :: c == commits[0] || c == commits[1];
    assert l in [l] && |commits| == 2;
  }

  lemma {:induction false} SerialStaysSound(leases: seq<Lease>, commits: seq<Commit>)
    requires Sound(leases)
    ensures Sound(RunSerially(leases, commits))
    decreases |commits|
  {
    if commits != [] {
      EffectKeepsSound(commits[0].command, leases, commits[0].now);
      SerialStaysSound(Effect(commits[0].command, leases, commits[0].now), commits[1..]);
    }
  }

  /**
   With serial commands, leases that were granted to different lanes, and that no command that wrote found
   expired, never cover a common file: what interleaving breaks.
   */
  lemma {:induction false} SerialGrantsAreExclusive(
      leases: seq<Lease>, c: ClaimRequest, now: int, commits: seq<Commit>, d: ClaimRequest, later: int, file: string)
    requires Sound(leases) && ClaimOutcome(leases, now, c).Granted? && c.lane != d.lane
    requires forall x | x in commits :: x.command.Lane() != c.lane
    requires var before := Effect(Claiming(c), leases, now);
             && ClaimOutcome(RunSerially(before, commits), later, d).Granted?
             && (forall i | 0 <= i < |commits| && WritesAt(before, commits, i) ::
                   !Expired(ClaimOutcome(leases, now, c).lease, commits[i].now))
             && !Expired(ClaimOutcome(leases, now, c).lease, later)
    ensures var after := RunSerially(Effect(Claiming(c), leases, now), commits);
            !(Covers(ClaimOutcome(leases, now, c).lease, file) && Covers(ClaimOutcome(after, later, d).lease, file))
  {
    var before := Effect(Claiming(c), leases, now);
    var first := ClaimOutcome(leases, now, c).lease;
    LeaseStaysIff(before, commits, first);
    EffectKeepsSound(Claiming(c), leases, now);
    SerialStaysSound(before, commits);
    LaterGrantIsApart(RunSerially(before, commits), first, d, later, file);
  }
}
