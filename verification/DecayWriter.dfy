/**
 The decay writer: for each decayed agent one compare-and-set on the score that the run read, then one log
 row, while other writers change scores at any time and any statement may fail, also after it committed.
 */
module DecayWriter {
  import opened Options

  datatype Agent = Agent(score: int, active: bool)

  /** A row as it was read, and what the decay function made of it. */
  datatype Decay = Decay(id: string, name: Option<string>, read: int, amount: int, before: int, after: int) {
    function Label(): string {
      if name.Some? then name.value else id
    }
  }

  datatype LogRow = LogRow(id: string, earned: int, vested: int)

  /** A score update of this run, with the agent as the update found it. */
  datatype Write = Write(decay: Decay, found: Agent)

  /** How the call of one statement ends: normally, or with an error before or after it committed. */
  datatype Call = Returns | FailsBefore | FailsAfter

  /** The statements of a run, each with how its call ended and an update with the row it found. */
  datatype Statement =
    | UpdateScore(decay: Decay, found: Option<Agent>, call: Call)
    | InsertRow(row: LogRow, call: Call)

  // ----- what can become of one decay -----

  datatype Fate =
    | Applied
    | Changed
    | UpdateFailed(committed: bool)
    | LogFailed(committed: bool)
  {
    predicate Updated() {
      Applied? || LogFailed? || (UpdateFailed? && committed)
    }

    predicate Logged() {
      Applied? || (LogFailed? && committed)
    }

    predicate Failed() {
      UpdateFailed? || LogFailed?
    }
  }

  /** What one decay met: the row its update found, and how the calls of its two statements ended. */
  datatype Trial = Trial(found: Option<Agent>, update: Call, insert: Call) {
    predicate Hits(d: Decay) {
      found == Some(Agent(d.read, true))
    }

    /** One update, and one insert if it hit: nothing is tried again. */
    function Issued(d: Decay): seq<Statement> {
      if update == Returns && Hits(d) then
        [UpdateScore(d, found, update), InsertRow(LogRow(d.id, d.before, d.after), insert)]
      else [UpdateScore(d, found, update)]
    }

    function Fate(d: Decay): Fate {
      if update != Returns then UpdateFailed(update == FailsAfter && Hits(d))
      else if !Hits(d) then Changed
      else if insert == Returns then Applied
      else LogFailed(insert == FailsAfter)
    }
  }

  function AppendIf<T>(wanted: bool, s: seq<T>, x: T): seq<T> {
    if wanted then s + [x] else s
  }

  lemma {:induction false} Regroup<T>(wanted: bool, s: seq<T>, t: seq<T>, x: T)
    ensures AppendIf(wanted, s + t, x) == s + AppendIf(wanted, t, x)
  {
  }

  function Positive(decays: seq<Decay>): (positive: seq<Decay>)
    ensures forall d :: d in positive <==> d in decays && d.amount > 0
  {
    if decays == [] then []
    else (if decays[0].amount > 0 then [decays[0]] else []) + Positive(decays[1..])
  }

  /** The decays with an amount, as often as they are listed, and no others. */
  lemma {:induction false} PositiveCounts(decays: seq<Decay>, d: Decay)
    ensures multiset(Positive(decays))[d] == if d.amount > 0 then multiset(decays)[d] else 0
  {
    if decays != [] {
      PositiveCounts(decays[1..], d);
      assert decays == [decays[0]] + decays[1..];
    }
  }

  lemma {:induction false} PositiveConcat(a: seq<Decay>, b: seq<Decay>)
    ensures Positive(a + b) == Positive(a) + Positive(b)
  {
    if a == [] {
      assert a + b == b;
    } else {
      assert (a + b)[1..] == a[1..] + b;
      PositiveConcat(a[1..], b);
    }
  }

  /** What a run reports, and what it leaves behind. */
  datatype Outcome = Outcome(
    applied: nat, changed: nat, failed: seq<string>, writes: seq<Write>, rows: seq<LogRow>, sent: seq<Statement>)
  {
    function After(d: Decay, t: Trial): Outcome {
      var fate := t.Fate(d);
      Outcome(
        applied + if fate.Applied? then 1 else 0,
        changed + if fate.Changed? then 1 else 0,
        AppendIf(fate.Failed(), failed, d.Label()),
        AppendIf(fate.Updated(), writes, Write(d, Agent(d.read, true))),
        AppendIf(fate.Logged(), rows, LogRow(d.id, d.before, d.after)),
        sent + t.Issued(d))
    }
  }

  /** The outcome of a run in which the decays met these trials. */
  function RunOf(tried: seq<Decay>, trials: seq<Trial>): Outcome
    requires |tried| == |trials|
  {
    if trials == [] then Outcome(0, 0, [], [], [], [])
    else
      var n := |trials| - 1;
      RunOf(tried[..n], trials[..n]).After(tried[n], trials[n])
  }

  lemma {:induction false} RunSnoc(tried: seq<Decay>, trials: seq<Trial>, d: Decay, t: Trial)
    requires |tried| == |trials|
    ensures RunOf(tried + [d], trials + [t]) == RunOf(tried, trials).After(d, t)
  {
    assert (tried + [d])[..|tried|] == tried && (trials + [t])[..|trials|] == trials;
  }

  // ----- what the numbers of a report say -----

  /**
   Whatever the other writers do and whatever fails, even after committing: every positive decay is applied,
   changed or failed; there is a log row for each applied decay, an update for each log row, and no update
   beyond the applied and the failed ones. So without failures the three numbers agree.
   */
  lemma {:induction false} ReportBoundsWrites(tried: seq<Decay>, trials: seq<Trial>)
    requires |tried| == |trials|
    ensures var run := RunOf(tried, trials);
            && run.applied + run.changed + |run.failed| == |tried|
            && run.applied <= |run.rows| <= |run.writes| <= run.applied + |run.failed|
            && (run.failed == [] ==> run.applied == |run.rows| == |run.writes|)
  {
    if trials != [] {
      ReportBoundsWrites(tried[..|tried| - 1], trials[..|trials| - 1]);
    }
  }

  /** No update lands on a score other than the one read, on an inactive agent, or without being asked for. */
  lemma {:induction false} WritesLandOnWhatWasRead(tried: seq<Decay>, trials: seq<Trial>, w: Write)
    requires |tried| == |trials| && w in RunOf(tried, trials).writes
    ensures w.decay in tried && w.found == Agent(w.decay.read, true)
  {
    var n := |trials| - 1;
    if w in RunOf(tried[..n], trials[..n]).writes {
      WritesLandOnWhatWasRead(tried[..n], trials[..n], w);
    }
  }

  // How one decay ended, by what its update found and how the calls ended.

  predicate AppliedFully(d: Decay, t: Trial) {
    t.found == Some(Agent(d.read, true)) && t.update == Returns && t.insert == Returns
  }

  predicate FoundChanged(d: Decay, t: Trial) {
    t.found != Some(Agent(d.read, true)) && t.update == Returns
  }

  predicate CallFailed(d: Decay, t: Trial) {
    t.update != Returns || (t.found == Some(Agent(d.read, true)) && t.insert != Returns)
  }

  predicate UpdateCommitted(d: Decay, t: Trial) {
    t.found == Some(Agent(d.read, true)) && t.update != FailsBefore
  }

  predicate InsertSent(d: Decay, t: Trial) {
    t.found == Some(Agent(d.read, true)) && t.update == Returns
  }

  predicate InsertCommitted(d: Decay, t: Trial) {
    t.found == Some(Agent(d.read, true)) && t.update == Returns && t.insert != FailsBefore
  }

  /** The places at which a decay met a trial of this kind. */
  function Places(kind: (Decay, Trial) -> bool, tried: seq<Decay>, trials: seq<Trial>): set<nat>
    requires |tried| == |trials|
  {
    set i: nat | i < |tried| && kind(tried[i], trials[i])
  }

  lemma {:induction false} PlacesSnoc(kind: (Decay, Trial) -> bool, tried: seq<Decay>, trials: seq<Trial>)
    requires |tried| == |trials| > 0
    ensures var n := |tried| - 1;
            |Places(kind, tried, trials)| ==
            |Places(kind, tried[..n], trials[..n])| + if kind(tried[n], trials[n]) then 1 else 0
  {
    var n := |tried| - 1;
    var before := Places(kind, tried[..n], trials[..n]);
    assert n !in before;
    assert Places(kind, tried, trials) == before + if kind(tried[n], trials[n]) then {n} else {};
  }

  /** What a run reports and leaves, counted over the decays by how each ended. */
  predicate Tallies(run: Outcome, tried: seq<Decay>, trials: seq<Trial>)
    requires |tried| == |trials|
  {
    && run.applied == |Places(AppliedFully, tried, trials)|
    && run.changed == |Places(FoundChanged, tried, trials)|
    && |run.failed| == |Places(CallFailed, tried, trials)|
    && |run.writes| == |Places(UpdateCommitted, tried, trials)|
    && |run.rows| == |Places(InsertCommitted, tried, trials)|
    && |run.sent| == |tried| + |Places(InsertSent, tried, trials)|
  }

  /** So a decay is reported as applied, changed or failed exactly as its update and its insert ended. */
  lemma {:induction false} RunTallies(tried: seq<Decay>, trials: seq<Trial>)
    requires |tried| == |trials|
    ensures Tallies(RunOf(tried, trials), tried, trials)
  {
    if trials != [] {
      var n := |trials| - 1;
      RunTallies(tried[..n], trials[..n]);
      PlacesSnoc(AppliedFully, tried, trials);
      PlacesSnoc(FoundChanged, tried, trials);
      PlacesSnoc(CallFailed, tried, trials);
      PlacesSnoc(UpdateCommitted, tried, trials);
      PlacesSnoc(InsertCommitted, tried, trials);
      PlacesSnoc(InsertSent, tried, trials);
      assert RunOf(tried, trials) == RunOf(tried[..n], trials[..n]).After(tried[n], trials[n]);
      hide RunOf, Places;
    }
  }

  predicate FailedAs(tried: seq<Decay>, trials: seq<Trial>, i: nat, name: string)
    requires |tried| == |trials|
  {
    i < |tried| && CallFailed(tried[i], trials[i]) &&
    name == if tried[i].name.Some? then tried[i].name.value else tried[i].id
  }

  /** The names reported as failed are those of the decays for which a call failed. */
  lemma {:induction false} FailedAreNamed(tried: seq<Decay>, trials: seq<Trial>, name: string)
    requires |tried| == |trials|
    ensures name in RunOf(tried, trials).failed <==>
            exists i: nat | i < |tried| :: FailedAs(tried, trials, i, name)
  {
    if trials != [] {
      var n := |trials| - 1;
      FailedAreNamed(tried[..n], trials[..n], name);
      assert forall i: nat | i < n :: FailedAs(tried[..n], trials[..n], i, name) <==> FailedAs(tried, trials, i, name);
      assert RunOf(tried, trials) == RunOf(tried[..n], trials[..n]).After(tried[n], trials[n]);
      assert name in RunOf(tried, trials).failed <==>
             name in RunOf(tried[..n], trials[..n]).failed || FailedAs(tried, trials, n, name) by { hide RunOf; }
      hide RunOf, FailedAs;
      if exists i: nat | i < |tried| :: FailedAs(tried, trials, i, name) {
        var i: nat :| i < |tried| && FailedAs(tried, trials, i, name);
        assert i < n ==> FailedAs(tried[..n], trials[..n], i, name);
      }
    }
  }

  predicate RecordedIn(row: LogRow, writes: seq<Write>) {
    exists w | w in writes :: row == LogRow(w.decay.id, w.decay.before, w.decay.after)
  }

  /** Every log row records an update that committed. */
  lemma {:induction false} RowsRecordWrites(tried: seq<Decay>, trials: seq<Trial>, row: LogRow)
    requires |tried| == |trials| && row in RunOf(tried, trials).rows
    ensures RecordedIn(row, RunOf(tried, trials).writes)
  {
    var n := |trials| - 1;
    var before, after := RunOf(tried[..n], trials[..n]), RunOf(tried, trials);
    if row in before.rows {
      RowsRecordWrites(tried[..n], trials[..n], row);
      assert forall w | w in before.writes :: w in after.writes;
    } else {
      assert Write(tried[n], Agent(tried[n].read, true)) in after.writes;
    }
  }

  /** An update is missing its log row exactly when its own call failed late or its row did not commit. */
  lemma {:induction false} EveryUpdateLogged(tried: seq<Decay>, trials: seq<Trial>)
    requires |tried| == |trials|
    ensures |RunOf(tried, trials).rows| <= |RunOf(tried, trials).writes|
    ensures |RunOf(tried, trials).rows| == |RunOf(tried, trials).writes| <==>
            forall i | 0 <= i < |trials| ::
              trials[i].Fate(tried[i]) != UpdateFailed(true) && trials[i].Fate(tried[i]) != LogFailed(false)
  {
    if trials != [] {
      EveryUpdateLogged(tried[..|tried| - 1], trials[..|trials| - 1]);
    }
  }

  function Updates(sent: seq<Statement>, d: Decay): nat {
    if sent == [] then 0 else Updates(sent[1..], d) + if sent[0].UpdateScore? && sent[0].decay == d then 1 else 0
  }

  lemma {:induction false} UpdatesConcat(a: seq<Statement>, b: seq<Statement>, d: Decay)
    ensures Updates(a + b, d) == Updates(a, d) + Updates(b, d)
  {
    if a == [] {
      assert a + b == b;
    } else {
      assert (a + b)[1..] == a[1..] + b;
      UpdatesConcat(a[1..], b, d);
    }
  }

  lemma {:induction false} UpdatesOne(x: Statement, d: Decay)
    ensures Updates([x], d) == if x.UpdateScore? && x.decay == d then 1 else 0
  {
    assert [x][1..] == [];
  }

  lemma {:induction false} UpdatesIssued(t: Trial, tried: Decay, d: Decay)
    ensures Updates(t.Issued(tried), d) == if tried == d then 1 else 0
  {
    hide Updates;
    var sent := t.Issued(tried);
    UpdatesOne(sent[0], d);
    if |sent| == 2 {
      assert sent == [sent[0]] + [sent[1]];
      UpdatesConcat([sent[0]], [sent[1]], d);
      UpdatesOne(sent[1], d);
    } else {
      assert sent == [sent[0]];
    }
  }

  lemma {:induction false} TimesListed(before: seq<Decay>, last: Decay, d: Decay)
    ensures multiset(before + [last])[d] == multiset(before)[d] + if last == d then 1 else 0
  {
  }

  /** Each write is sent once: one update for each time a decay is listed, and no decay unlisted. */
  lemma {:induction false} EachWriteSentOnce(tried: seq<Decay>, trials: seq<Trial>, d: Decay)
    requires |tried| == |trials|
    ensures Updates(RunOf(tried, trials).sent, d) == multiset(tried)[d]
  {
    if trials != [] {
      var n := |trials| - 1;
      var before := RunOf(tried[..n], trials[..n]);
      EachWriteSentOnce(tried[..n], trials[..n], d);
      assert RunOf(tried, trials) == before.After(tried[n], trials[n]);
      hide Updates, RunOf;
      UpdatesConcat(before.sent, trials[n].Issued(tried[n]), d);
      UpdatesIssued(trials[n], tried[n], d);
      TimesListed(tried[..n], tried[n], d);
      assert tried == tried[..n] + [tried[n]];
    }
  }

  // ----- the store and the run -----

  lemma {:induction false} PositiveSnoc(decays: seq<Decay>, i: nat)
    requires i < |decays|
    ensures Positive(decays[..i + 1]) == AppendIf(decays[i].amount > 0, Positive(decays[..i]), decays[i])
  {
    assert decays[..i + 1] == decays[..i] + [decays[i]];
    PositiveConcat(decays[..i], [decays[i]]);
    assert Positive([decays[i]]) == AppendIf(decays[i].amount > 0, [], decays[i]);
  }

  class Store {
    var agents: map<string, Agent>
    var log: seq<LogRow>
    ghost var writes: seq<Write>          // the updates of the last run that committed
    ghost var statements: seq<Statement>  // everything the last run sent

    constructor (agents: map<string, Agent>)
      ensures this.agents == agents && log == [] && writes == [] && statements == []
    {
      this.agents := agents;
      log, writes, statements := [], [], [];
    }

    function Find(id: string): Option<Agent>
      reads this
    {
      if id in agents then Some(agents[id]) else None
    }

    /** Any writers of scores and statuses, any number of steps. */
    method OtherWriters()
      modifies this`agents
    {
      agents := *;
    }

    /** The update: None when the call failed, otherwise the number of rows it hit. */
    method Update(d: Decay, call: Call) returns (hits: Option<nat>)
      modifies this`agents, this`writes, this`statements
      ensures statements == old(statements) + [UpdateScore(d, old(Find(d.id)), call)]
      ensures var found := old(Find(d.id));
              var committed := call != FailsBefore && found == Some(Agent(d.read, true));
              && agents == (if committed then old(agents)[d.id := Agent(d.after, true)] else old(agents))
              && (committed ==> writes == old(writes) + [Write(d, found.value)])
              && (!committed ==> writes == old(writes))
              && hits == if call != Returns then None else Some(if committed then 1 else 0)
    {
      statements := statements + [UpdateScore(d, Find(d.id), call)];
      if call == FailsBefore {
        return None;
      }
      hits := Some(0);
      if d.id in agents && agents[d.id].active && agents[d.id].score == d.read {
        writes := writes + [Write(d, agents[d.id])];
        agents := agents[d.id := agents[d.id].(score := d.after)];
        hits := Some(1);
      }
      if call == FailsAfter {
        hits := None;
      }
    }

    method Insert(d: Decay, call: Call) returns (ok: bool)
      modifies this`log, this`statements
      ensures statements == old(statements) + [InsertRow(LogRow(d.id, d.before, d.after), call)]
      ensures ok <==> call == Returns
      ensures log == AppendIf(call != FailsBefore, old(log), LogRow(d.id, d.before, d.after))
    {
      statements := statements + [InsertRow(LogRow(d.id, d.before, d.after), call)];
      if call != FailsBefore {
        log := log + [LogRow(d.id, d.before, d.after)];
      }
      ok := call == Returns;
    }

    /** What a run has left behind so far. */
    ghost predicate Shows(run: Outcome, earlier: seq<LogRow>)
      reads this
    {
      writes == run.writes && statements == run.sent && log == earlier + run.rows
    }

    /** One decay: None when a call failed, otherwise whether the update applied. */
    method TryDecay(d: Decay, ghost run: Outcome, ghost earlier: seq<LogRow>)
      returns (done: Option<bool>, ghost trial: Trial)
      requires Shows(run, earlier)
      modifies this
      ensures Shows(run.After(d, trial), earlier)
      ensures done == if trial.Fate(d).Failed() then None else Some(trial.Fate(d).Applied?)
    {
      Regroup(true, earlier, run.rows, LogRow(d.id, d.before, d.after));
      OtherWriters();
      var call: Call := *;
      trial := Trial(Find(d.id), call, Returns);
      var hits := Update(d, call);
      if hits.None? {
        return None, trial;
      }
      if hits.value == 0 {
        return Some(false), trial;
      }
      OtherWriters();
      call := *;
      trial := trial.(insert := call);
      var ok := Insert(d, call);
      done := if ok then Some(true) else None;
    }

    /**
     Its report, the committed updates, the log rows and everything it sent are those of the trials that the
     positive decays met. So every positive decay is counted once in the report, there is a log row for each
     applied decay and an update for each log row, no update goes beyond the applied and the failed ones, and
     none lands on a score other than the one read.
     */
    method ApplyDecays(decays: seq<Decay>)
      returns (applied: nat, changed: nat, failed: seq<string>, ghost trials: seq<Trial>)
      modifies this
      ensures |trials| == |Positive(decays)|
      ensures var run := RunOf(Positive(decays), trials);
              && applied == run.applied && changed == run.changed && failed == run.failed
              && writes == run.writes && statements == run.sent
              && log == old(log) + run.rows
      ensures var left := Outcome(applied, changed, failed, writes, log[|old(log)|..], statements);
              Tallies(left, Positive(decays), trials)
      ensures applied + changed + |failed| == |Positive(decays)|
      ensures applied <= |log| - |old(log)| <= |writes| <= applied + |failed|
      ensures forall w | w in writes :: w.decay in Positive(decays) && w.found == Agent(w.decay.read, true)
    {
      writes, statements := [], [];
      applied, changed, failed, trials := 0, 0, [], [];
      ghost var run := RunOf([], []);
      hide RunOf;
      for i := 0 to |decays|
        invariant |trials| == |Positive(decays[..i])| && run == RunOf(Positive(decays[..i]), trials)
        invariant applied == run.applied && changed == run.changed && failed == run.failed
        invariant Shows(run, old(log))
      {
        var d := decays[i];
        PositiveSnoc(decays, i);
        if d.amount <= 0 {
          continue;
        }
        var done, trial := TryDecay(d, run, old(log));
        RunSnoc(Positive(decays[..i]), trials, d, trial);
        trials := trials + [trial];
        run := run.After(d, trial);
        if done.None? {
          failed := failed + [d.Label()];
        } else if done.value {
          applied := applied + 1;
        } else {
          changed := changed + 1;
        }
      }
      assert decays[..|decays|] == decays;
      ReportBoundsWrites(Positive(decays), trials);
      RunTallies(Positive(decays), trials);
      assert log[|old(log)|..] == run.rows;
      forall w | w in writes ensures w.decay in Positive(decays) && w.found == Agent(w.decay.read, true) {
        WritesLandOnWhatWasRead(Positive(decays), trials, w);
      }
    }
  }
}
