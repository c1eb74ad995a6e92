/**
 The answer key's supersession log: the script a run emits, what its statements do to the three tables,
 and the linear history of checks that results.

 A table is a sequence, a row's id is its position. `Exec` gives one statement its meaning, with the
 tables' constraints and the trigger that guards `supersedes`; None is an error, which aborts the whole
 transaction. A time is a number.
 */
module AnswerKey {
  import opened Options

  datatype Outcome = Supports | Contradicts | Unchecked
  datatype Record = Record(
    kind: string, locator: string, url: string, sha256: string, snapshot: string, fetchedAt: int)
  datatype SeedClaim = SeedClaim(id: string, claim: string, spec: string)
  datatype RunRow = RunRow(seed: string, outcome: Outcome, reason: string, checker: string, record: Option<Record>)

  // ----- the script of a run -----

  datatype Stmt =
    | InsertClaim(seed: SeedClaim)
    | InsertRecord(record: Record)
    | InsertCheck(seedId: string, locator: Option<string>, checker: string, outcome: Outcome, reason: string,
                  runId: string, checkedAt: int)

  function LocatorOf(r: RunRow): Option<string> {
    if r.record.Some? then Some(r.record.value.locator) else None
  }

  function RowScript(s: SeedClaim, r: RunRow, runId: string, checkedAt: int): seq<Stmt> {
    [InsertClaim(s)] +
    (if r.record.Some? then [InsertRecord(r.record.value)] else []) +
    [InsertCheck(s.id, LocatorOf(r), r.checker, r.outcome, r.reason, runId, checkedAt)]
  }

  /** The last seed with an id, as the map built from the seeds finds it. */
  function SeedOf(seeds: seq<SeedClaim>, id: string): (s: Option<SeedClaim>)
    ensures s.Some? ==> s.value in seeds && s.value.id == id
    ensures s.None? ==> forall x | x in seeds :: x.id != id
  {
    if seeds == [] then None
    else if seeds[|seeds| - 1].id == id then Some(seeds[|seeds| - 1])
    else SeedOf(seeds[..|seeds| - 1], id)
  }

  function Script(seeds: seq<SeedClaim>, rows: seq<RunRow>, runId: string, checkedAt: int): Option<seq<Stmt>> {
    if rows == [] then Some([])
    else
      var n := |rows| - 1;
      match (Script(seeds, rows[..n], runId, checkedAt), SeedOf(seeds, rows[n].seed))
      case (Some(stmts), Some(s)) => Some(stmts + RowScript(s, rows[n], runId, checkedAt))
      case _ => None
  }

  lemma {:induction false} ScriptNeedsSeeds(
      seeds: seq<SeedClaim>, rows: seq<RunRow>, i: nat, runId: string, checkedAt: int)
    requires i < |rows| && SeedOf(seeds, rows[i].seed) == None
    ensures Script(seeds, rows, runId, checkedAt) == None
  {
    if i < |rows| - 1 {
      ScriptNeedsSeeds(seeds, rows[..|rows| - 1], i, runId, checkedAt);
    }
  }

  /** Emits the statements row by row. A row whose seed is unknown is a crash. */
  method ToSql(seeds: seq<SeedClaim>, rows: seq<RunRow>, runId: string, checkedAt: int)
    returns (out: Option<seq<Stmt>>)
    ensures out == Script(seeds, rows, runId, checkedAt)
    ensures out.Some? <==> forall r | r in rows :: exists s | s in seeds :: s.id == r.seed
  {
    var bySeed: map<string, SeedClaim> := map[];
    for i := 0 to |seeds|
      invariant forall id :: SeedOf(seeds[..i], id) == if id in bySeed then Some(bySeed[id]) else None
    {
      assert seeds[..i + 1][..i] == seeds[..i];
      bySeed := bySeed[seeds[i].id := seeds[i]];
    }
    assert seeds[..|seeds|] == seeds;
    var stmts: seq<Stmt> := [];
    for i := 0 to |rows|
      invariant Script(seeds, rows[..i], runId, checkedAt) == Some(stmts)
      invariant forall r | r in rows[..i] :: exists s | s in seeds :: s.id == r.seed
    {
      var r := rows[i];
      assert rows[..i + 1][..i] == rows[..i];
      if r.seed !in bySeed {
        assert SeedOf(seeds, r.seed) == None;
        ScriptNeedsSeeds(seeds, rows, i, runId, checkedAt);
        return None;
      }
      assert SeedOf(seeds, r.seed) == Some(bySeed[r.seed]);
      stmts := stmts + RowScript(bySeed[r.seed], r, runId, checkedAt);
    }
    assert rows[..|rows|] == rows;
    out := Some(stmts);
  }

  // ----- the tables and what a statement does to them -----

  datatype Check = Check(
    claimId: nat, recordId: Option<nat>, checker: string, outcome: Outcome, reason: string, runId: string,
    checkedAt: int, supersedes: Option<nat>)

  datatype Db = Db(claims: seq<SeedClaim>, records: seq<Record>, checks: seq<Check>)

  const EMPTY: Db := Db([], [], [])

  function ClaimId(claims: seq<SeedClaim>, seedId: string): (id: Option<nat>)
    ensures id.Some? ==> id.value < |claims| && claims[id.value].id == seedId
    ensures id.None? ==> forall c | c in claims :: c.id != seedId
  {
    if claims == [] then None
    else if claims[0].id == seedId then Some(0)
    else
      match ClaimId(claims[1..], seedId)
      case Some(i) => Some(i + 1)
      case None => None
  }

  function RecordId(records: seq<Record>, locator: string): (id: Option<nat>)
    ensures id.Some? ==> id.value < |records| && records[id.value].locator == locator
    ensures id.None? ==> forall r | r in records :: r.locator != locator
  {
    if records == [] then None
    else if records[0].locator == locator then Some(0)
    else
      match RecordId(records[1..], locator)
      case Some(i) => Some(i + 1)
      case None => None
  }

  /** The checks the table places on a record row. */
  predicate RecordAllowed(r: Record) {
    && r.kind in {"npm", "pypi", "wikidata", "claimreview", "arxiv"}
    && |r.sha256| == 64
    && forall i | 0 <= i < |r.sha256| :: '0' <= r.sha256[i] <= '9' || 'a' <= r.sha256[i] <= 'f'
  }

  predicate InGroup(c: Check, claimId: nat, checker: string) {
    c.claimId == claimId && c.checker == checker
  }

  predicate Superseded(checks: seq<Check>, k: nat) {
    exists i | 0 <= i < |checks| :: checks[i].supersedes == Some(k)
  }

  /** A check this run may supersede: same claim and checker, another run, and current. */
  predicate Replaceable(checks: seq<Check>, k: nat, claimId: nat, checker: string, runId: string)
    requires k < |checks|
  {
    InGroup(checks[k], claimId, checker) && checks[k].runId != runId && !Superseded(checks, k)
  }

  /** Among the first n checks, a replaceable one with the latest time. */
  function Prior(checks: seq<Check>, n: nat, claimId: nat, checker: string, runId: string): (p: Option<nat>)
    requires n <= |checks|
    ensures p.Some? ==> p.value < n && Replaceable(checks, p.value, claimId, checker, runId)
    ensures p.None? ==> forall k | 0 <= k < n :: !Replaceable(checks, k, claimId, checker, runId)
    ensures p.Some? ==> forall k | 0 <= k < n && Replaceable(checks, k, claimId, checker, runId) ::
                          checks[k].checkedAt <= checks[p.value].checkedAt
  {
    if n == 0 then None
    else
      var p := Prior(checks, n - 1, claimId, checker, runId);
      if Replaceable(checks, n - 1, claimId, checker, runId) &&
         (p.None? || checks[n - 1].checkedAt > checks[p.value].checkedAt)
      then Some(n - 1) else p
  }

  predicate Recorded(checks: seq<Check>, claimId: nat, checker: string, runId: string) {
    exists c | c in checks :: InGroup(c, claimId, checker) && c.runId == runId
  }

  /** The trigger and the constraints on a new check. */
  predicate CheckAllowed(checks: seq<Check>, c: Check) {
    && (c.outcome != Unchecked ==> c.recordId.Some?)
    && (c.supersedes.Some? ==>
          && c.supersedes.value < |checks|
          && checks[c.supersedes.value].claimId == c.claimId
          && checks[c.supersedes.value].checkedAt < c.checkedAt
          && !Superseded(checks, c.supersedes.value))
  }

  function NewCheck(db: Db, s: Stmt, claimId: nat): Check
    requires s.InsertCheck?
  {
    Check(claimId, if s.locator.Some? then RecordId(db.records, s.locator.value) else None,
          s.checker, s.outcome, s.reason, s.runId, s.checkedAt,
          Prior(db.checks, |db.checks|, claimId, s.checker, s.runId))
  }

  function Exec(db: Db, s: Stmt): Option<Db> {
    match s
    case InsertClaim(seed) =>
      Some(if ClaimId(db.claims, seed.id).Some? then db else db.(claims := db.claims + [seed]))
    case InsertRecord(record) =>
      if !RecordAllowed(record) then None
      else Some(if RecordId(db.records, record.locator).Some? then db else db.(records := db.records + [record]))
    case InsertCheck(_, _, _, _, _, _, _) =>
      match ClaimId(db.claims, s.seedId)
      case None => None
      case Some(claimId) =>
        if Recorded(db.checks, claimId, s.checker, s.runId) then Some(db)
        else
          var c := NewCheck(db, s, claimId);
          if CheckAllowed(db.checks, c) then Some(db.(checks := db.checks + [c])) else None
  }

  function ExecAll(db: Db, stmts: seq<Stmt>): Option<Db> {
    if stmts == [] then Some(db)
    else
      match ExecAll(db, stmts[..|stmts| - 1])
      case Some(next) => Exec(next, stmts[|stmts| - 1])
      case None => None
  }

  /** A transaction commits all of its statements or none. */
  function Transact(db: Db, stmts: seq<Stmt>): Db {
    match ExecAll(db, stmts)
    case Some(next) => next
    case None => db
  }

  function TransactAll(db: Db, scripts: seq<seq<Stmt>>): Db {
    if scripts == [] then db else Transact(TransactAll(db, scripts[..|scripts| - 1]), scripts[|scripts| - 1])
  }

  lemma {:induction false} ExecStops(db: Db, stmts: seq<Stmt>, n: nat)
    requires n <= |stmts| && ExecAll(db, stmts[..n]) == None
    ensures ExecAll(db, stmts) == None
  {
    if n == |stmts| {
      assert stmts[..n] == stmts;
    } else {
      assert stmts[..|stmts| - 1][..n] == stmts[..n];
      ExecStops(db, stmts[..|stmts| - 1], n);
    }
  }

  class Database {
    var db: Db

    constructor ()
      ensures db == EMPTY
    {
      db := EMPTY;
    }

    /** Runs a script statement by statement; the first error rolls everything back. */
    method RunScript(stmts: seq<Stmt>) returns (committed: bool)
      modifies this
      ensures db == Transact(old(db), stmts)
      ensures committed <==> ExecAll(old(db), stmts).Some?
      ensures !committed ==> db == old(db)
    {
      var start := db;
      for i := 0 to |stmts|
        invariant ExecAll(start, stmts[..i]) == Some(db)
      {
        assert stmts[..i + 1][..i] == stmts[..i];
        match Exec(db, stmts[i]) {
          case Some(next) =>
            db := next;
          case None =>
            ExecStops(start, stmts, i + 1);
            db := start;
            return false;
        }
      }
      assert stmts[..|stmts|] == stmts;
      committed := true;
    }
  }

  // ----- the history is linear -----

  /** The last of the first n checks that belongs to a group. */
  function LastBefore(checks: seq<Check>, n: nat, claimId: nat, checker: string): (p: Option<nat>)
    requires n <= |checks|
    ensures p.Some? ==> p.value < n && InGroup(checks[p.value], claimId, checker)
    ensures p.Some? ==> forall k | p.value < k < n :: !InGroup(checks[k], claimId, checker)
    ensures p.None? ==> forall k | 0 <= k < n :: !InGroup(checks[k], claimId, checker)
  {
    if n == 0 then None
    else if InGroup(checks[n - 1], claimId, checker) then Some(n - 1)
    else LastBefore(checks, n - 1, claimId, checker)
  }

  /** Every check supersedes the check of its claim and checker that came just before it. */
  predicate LinkedAt(checks: seq<Check>, i: nat)
    requires i < |checks|
  {
    checks[i].supersedes == LastBefore(checks, i, checks[i].claimId, checks[i].checker)
  }

  predicate Linked(checks: seq<Check>) {
    forall i | 0 <= i < |checks| :: LinkedAt(checks, i)
  }

  /** A check is strictly later than the one it supersedes. */
  predicate Forward(checks: seq<Check>) {
    forall i | 0 <= i < |checks| && checks[i].supersedes.Some? ::
      checks[i].supersedes.value < |checks| && checks[checks[i].supersedes.value].checkedAt < checks[i].checkedAt
  }

  /** No run has two checks of one claim and checker. */
  predicate OncePerRun(checks: seq<Check>) {
    forall i, j | 0 <= i < j < |checks| && InGroup(checks[j], checks[i].claimId, checks[i].checker) ::
      checks[i].runId != checks[j].runId
  }

  predicate Linear(checks: seq<Check>) {
    Linked(checks) && Forward(checks) && OncePerRun(checks)
  }

  lemma {:induction false} SupersededByNext(checks: seq<Check>, k: nat, i: nat)
    requires Linear(checks) && k < i < |checks|
    requires InGroup(checks[i], checks[k].claimId, checks[k].checker)
    ensures Superseded(checks, k)
    decreases i
  {
    assert LinkedAt(checks, i);
    var j := checks[i].supersedes.value;
    if j != k {
      SupersededByNext(checks, k, j);
    }
  }

  /** In a linear history a check is superseded exactly if its group has a later one. */
  lemma {:induction false} SupersededIffNotLast(checks: seq<Check>, k: nat)
    requires Linear(checks) && k < |checks|
    ensures Superseded(checks, k) <==>
            exists i | k < i < |checks| :: InGroup(checks[i], checks[k].claimId, checks[k].checker)
  {
    assert forall i | 0 <= i < |checks| :: LinkedAt(checks, i);
    if i :| k < i < |checks| && InGroup(checks[i], checks[k].claimId, checks[k].checker) {
      SupersededByNext(checks, k, i);
    }
    if i :| 0 <= i < |checks| && checks[i].supersedes == Some(k) {
      assert LinkedAt(checks, i);
    }
  }

  lemma {:induction false} PriorIsLast(checks: seq<Check>, claimId: nat, checker: string, runId: string)
    requires Linear(checks) && !Recorded(checks, claimId, checker, runId)
    ensures Prior(checks, |checks|, claimId, checker, runId) == LastBefore(checks, |checks|, claimId, checker)
  {
    forall k | 0 <= k < |checks|
      ensures Replaceable(checks, k, claimId, checker, runId) <==>
              LastBefore(checks, |checks|, claimId, checker) == Some(k)
    {
      assert checks[k] in checks;
      if InGroup(checks[k], claimId, checker) {
        SupersededIffNotLast(checks, k);
      }
    }
  }

  lemma {:induction false} LastBeforeOfPrefix(checks: seq<Check>, c: Check, n: nat, claimId: nat, checker: string)
    requires n <= |checks|
    ensures LastBefore(checks + [c], n, claimId, checker) == LastBefore(checks, n, claimId, checker)
    decreases n
  {
    if n > 0 && !InGroup(checks[n - 1], claimId, checker) {
      LastBeforeOfPrefix(checks, c, n - 1, claimId, checker);
    }
  }

  lemma {:induction false} AppendKeepsLinked(checks: seq<Check>, c: Check)
    requires Linked(checks) && c.supersedes == LastBefore(checks, |checks|, c.claimId, c.checker)
    ensures Linked(checks + [c])
  {
    forall i | 0 <= i <= |checks| ensures LinkedAt(checks + [c], i) {
      var x := (checks + [c])[i];
      LastBeforeOfPrefix(checks, c, i, x.claimId, x.checker);
      assert i < |checks| ==> LinkedAt(checks, i);
    }
  }

  lemma {:induction false} AppendKeepsForward(checks: seq<Check>, c: Check)
    requires Forward(checks)
    requires c.supersedes.Some? ==>
               c.supersedes.value < |checks| && checks[c.supersedes.value].checkedAt < c.checkedAt
    ensures Forward(checks + [c])
  {
  }

  lemma {:induction false} AppendKeepsOncePerRun(checks: seq<Check>, c: Check)
    requires OncePerRun(checks) && !Recorded(checks, c.claimId, c.checker, c.runId)
    ensures OncePerRun(checks + [c])
  {
    var longer := checks + [c];
    forall i, j | 0 <= i < j < |longer| && InGroup(longer[j], longer[i].claimId, longer[i].checker)
      ensures longer[i].runId != longer[j].runId
    {
      assert checks[i] in checks;
    }
  }

  lemma {:induction false} ExecKeepsLinear(db: Db, s: Stmt)
    requires Linear(db.checks) && Exec(db, s).Some?
    ensures Linear(Exec(db, s).value.checks)
  {
    if Exec(db, s).value.checks != db.checks {
      var claimId := ClaimId(db.claims, s.seedId).value;
      PriorIsLast(db.checks, claimId, s.checker, s.runId);
      AppendKeepsLinked(db.checks, NewCheck(db, s, claimId));
      AppendKeepsForward(db.checks, NewCheck(db, s, claimId));
      AppendKeepsOncePerRun(db.checks, NewCheck(db, s, claimId));
    }
  }

  lemma {:induction false} ScriptKeepsLinear(db: Db, stmts: seq<Stmt>)
    requires Linear(db.checks)
    ensures ExecAll(db, stmts).Some? ==> Linear(ExecAll(db, stmts).value.checks)
  {
    if stmts != [] {
      ScriptKeepsLinear(db, stmts[..|stmts| - 1]);
      if ExecAll(db, stmts).Some? {
        ExecKeepsLinear(ExecAll(db, stmts[..|stmts| - 1]).value, stmts[|stmts| - 1]);
      }
    }
  }

  /** After any scripts whatever, in any order and repeated at will, the history is linear. */
  lemma {:induction false} HistoryStaysLinear(scripts: seq<seq<Stmt>>)
    ensures Linear(TransactAll(EMPTY, scripts).checks)
  {
    if scripts != [] {
      HistoryStaysLinear(scripts[..|scripts| - 1]);
      ScriptKeepsLinear(TransactAll(EMPTY, scripts[..|scripts| - 1]), scripts[|scripts| - 1]);
    }
  }

  // ----- one chain with one head -----

  predicate Current(checks: seq<Check>, k: nat) {
    k < |checks| && !Superseded(checks, k)
  }

  /** The checks met by following `supersedes` from one of them. */
  function ChainFrom(checks: seq<Check>, k: nat): set<nat>
    requires Linear(checks) && k < |checks|
    decreases k
  {
    assert LinkedAt(checks, k);
    {k} + if checks[k].supersedes.Some? then ChainFrom(checks, checks[k].supersedes.value) else {}
  }

  lemma {:induction false} ChainIsGroup(checks: seq<Check>, k: nat)
    requires Linear(checks) && k < |checks|
    ensures ChainFrom(checks, k) == set i | 0 <= i <= k && InGroup(checks[i], checks[k].claimId, checks[k].checker)
    ensures forall i | i in ChainFrom(checks, k) && i != k :: checks[i].checkedAt < checks[k].checkedAt
    decreases k
  {
    assert LinkedAt(checks, k);
    if checks[k].supersedes.Some? {
      ChainIsGroup(checks, checks[k].supersedes.value);
    }
  }

  function Group(checks: seq<Check>, claimId: nat, checker: string): set<nat> {
    set k | 0 <= k < |checks| && InGroup(checks[k], claimId, checker)
  }

  /** The only current check of its group, the latest, and the start of a chain through all of it. */
  predicate IsHead(checks: seq<Check>, head: nat, claimId: nat, checker: string)
    requires Linear(checks)
  {
    && head in Group(checks, claimId, checker)
    && (forall k | k in Group(checks, claimId, checker) :: Current(checks, k) <==> k == head)
    && (forall k | k in Group(checks, claimId, checker) && k != head :: checks[k].checkedAt < checks[head].checkedAt)
    && ChainFrom(checks, head) == Group(checks, claimId, checker)
  }

  lemma {:induction false} LastIsHead(checks: seq<Check>, claimId: nat, checker: string)
    requires Linear(checks) && Group(checks, claimId, checker) != {}
    ensures LastBefore(checks, |checks|, claimId, checker).Some?
    ensures IsHead(checks, LastBefore(checks, |checks|, claimId, checker).value, claimId, checker)
  {
    var some :| some in Group(checks, claimId, checker);
    var head := LastBefore(checks, |checks|, claimId, checker).value;
    forall k | k in Group(checks, claimId, checker)
      ensures Current(checks, k) <==> k == head
    {
      SupersededIffNotLast(checks, k);
    }
    ChainIsGroup(checks, head);
    assert ChainFrom(checks, head) == Group(checks, claimId, checker);
  }

  /**
   After any scripts, the checks of a claim and checker form one chain: exactly one of them is current, it
   is the latest, and following `supersedes` from it meets every other one.
   */
  lemma {:induction false} OneHeadPerGroup(scripts: seq<seq<Stmt>>, claimId: nat, checker: string)
    requires Group(TransactAll(EMPTY, scripts).checks, claimId, checker) != {}
    ensures Linear(TransactAll(EMPTY, scripts).checks)
    ensures exists head :: IsHead(TransactAll(EMPTY, scripts).checks, head, claimId, checker)
  {
    HistoryStaysLinear(scripts);
    LastIsHead(TransactAll(EMPTY, scripts).checks, claimId, checker);
  }

  /** The links only ever point back, so they cannot form a cycle, and no check is superseded twice. */
  lemma {:induction false} LinksPointBack(checks: seq<Check>, i: nat, j: nat)
    requires Linear(checks) && i < |checks| && j < |checks| && checks[i].supersedes.Some?
    ensures checks[i].supersedes.value < i
    ensures checks[i].supersedes == checks[j].supersedes ==> i == j
  {
    assert LinkedAt(checks, i) && LinkedAt(checks, j);
    var k := checks[i].supersedes.value;
    if checks[i].supersedes == checks[j].supersedes {
      assert InGroup(checks[k], checks[i].claimId, checks[i].checker);
      assert InGroup(checks[k], checks[j].claimId, checks[j].checker);
      assert i < j ==> InGroup(checks[i], checks[j].claimId, checks[j].checker);
      assert j < i ==> InGroup(checks[j], checks[i].claimId, checks[i].checker);
    }
  }

  // ----- when a check is accepted -----

  /**
   A first check of a run in a group goes in exactly if a verdict names its record and the run is strictly
   later than the group's last check: the guard against forks and cycles is never what refuses it.
   */
  lemma {:induction false} CheckAcceptedIff(db: Db, s: Stmt)
    requires Linear(db.checks) && s.InsertCheck? && ClaimId(db.claims, s.seedId).Some?
    requires !Recorded(db.checks, ClaimId(db.claims, s.seedId).value, s.checker, s.runId)
    ensures var claimId := ClaimId(db.claims, s.seedId).value;
            var last := LastBefore(db.checks, |db.checks|, claimId, s.checker);
            Exec(db, s).Some? <==>
            && (s.outcome == Unchecked ||
                (s.locator.Some? && exists r | r in db.records :: r.locator == s.locator.value))
            && (last.Some? ==> db.checks[last.value].checkedAt < s.checkedAt)
  {
    var claimId := ClaimId(db.claims, s.seedId).value;
    PriorIsLast(db.checks, claimId, s.checker, s.runId);
    if s.locator.Some? {
      var id := RecordId(db.records, s.locator.value);
      assert id.Some? ==> db.records[id.value] in db.records;
    }
  }

  // ----- replaying a run -----

  /** What one statement leaves behind once it has taken effect. */
  predicate Done(db: Db, s: Stmt) {
    match s
    case InsertClaim(seed) => ClaimId(db.claims, seed.id).Some?
    case InsertRecord(record) => RecordAllowed(record) && RecordId(db.records, record.locator).Some?
    case InsertCheck(_, _, _, _, _, _, _) =>
      ClaimId(db.claims, s.seedId).Some? &&
      Recorded(db.checks, ClaimId(db.claims, s.seedId).value, s.checker, s.runId)
  }

  predicate Extends(db: Db, later: Db) {
    db.claims <= later.claims && db.records <= later.records && db.checks <= later.checks
  }

  lemma {:induction false} ClaimIdStays(claims: seq<SeedClaim>, later: seq<SeedClaim>, seedId: string)
    requires claims <= later && ClaimId(claims, seedId).Some?
    ensures ClaimId(later, seedId) == ClaimId(claims, seedId)
  {
    if claims[0].id != seedId {
      ClaimIdStays(claims[1..], later[1..], seedId);
    }
  }

  lemma {:induction false} DoneStays(db: Db, later: Db, s: Stmt)
    requires Extends(db, later) && Done(db, s)
    ensures Done(later, s)
  {
    match s
    case InsertClaim(seed) => ClaimIdStays(db.claims, later.claims, seed.id);
    case InsertRecord(record) =>
      var r := db.records[RecordId(db.records, record.locator).value];
      assert r in later.records && r.locator == record.locator;
    case InsertCheck(_, _, _, _, _, _, _) =>
      ClaimIdStays(db.claims, later.claims, s.seedId);
      var claimId := ClaimId(db.claims, s.seedId).value;
      var c :| c in db.checks && InGroup(c, claimId, s.checker) && c.runId == s.runId;
      assert c in later.checks;
  }

  lemma {:induction false} ExecDoes(db: Db, s: Stmt)
    requires Exec(db, s).Some?
    ensures Extends(db, Exec(db, s).value) && Done(Exec(db, s).value, s)
  {
    var next := Exec(db, s).value;
    match s
    case InsertClaim(seed) =>
      if ClaimId(db.claims, seed.id).None? {
        assert next.claims[|db.claims|] == seed && seed in next.claims;
      }
    case InsertRecord(record) =>
      if RecordId(db.records, record.locator).None? {
        assert next.records[|db.records|] == record && record in next.records;
      }
    case InsertCheck(_, _, _, _, _, _, _) =>
      if next != db {
        assert next.checks[|db.checks|] in next.checks;
      }
  }

  lemma {:induction false} ScriptDoes(db: Db, stmts: seq<Stmt>)
    requires ExecAll(db, stmts).Some?
    ensures Extends(db, ExecAll(db, stmts).value)
    ensures forall s | s in stmts :: Done(ExecAll(db, stmts).value, s)
  {
    if stmts != [] {
      var n := |stmts| - 1;
      var before := ExecAll(db, stmts[..n]).value;
      ScriptDoes(db, stmts[..n]);
      ExecDoes(before, stmts[n]);
      forall s | s in stmts ensures Done(ExecAll(db, stmts).value, s) {
        if s in stmts[..n] {
          DoneStays(before, ExecAll(db, stmts).value, s);
        }
      }
    }
  }

  lemma {:induction false} HistoryExtends(db: Db, scripts: seq<seq<Stmt>>)
    ensures Extends(db, TransactAll(db, scripts))
  {
    if scripts != [] {
      var before := TransactAll(db, scripts[..|scripts| - 1]);
      HistoryExtends(db, scripts[..|scripts| - 1]);
      if ExecAll(before, scripts[|scripts| - 1]).Some? {
        ScriptDoes(before, scripts[|scripts| - 1]);
      }
    }
  }

  lemma {:induction false} DoneChangesNothing(db: Db, stmts: seq<Stmt>)
    requires forall s | s in stmts :: Done(db, s)
    ensures ExecAll(db, stmts) == Some(db)
  {
    if stmts != [] {
      DoneChangesNothing(db, stmts[..|stmts| - 1]);
      assert Done(db, stmts[|stmts| - 1]);
    }
  }

  /** Replaying a run that has committed changes nothing, whatever ran before and since. */
  lemma {:induction false} ReplayChangesNothing(db: Db, stmts: seq<Stmt>, since: seq<seq<Stmt>>)
    requires ExecAll(db, stmts).Some?
    ensures var now := TransactAll(Transact(db, stmts), since);
            ExecAll(now, stmts) == Some(now)
  {
    var after := Transact(db, stmts);
    var now := TransactAll(after, since);
    ScriptDoes(db, stmts);
    HistoryExtends(after, since);
    forall s | s in stmts ensures Done(now, s) {
      DoneStays(after, now, s);
    }
    DoneChangesNothing(now, stmts);
  }
}
