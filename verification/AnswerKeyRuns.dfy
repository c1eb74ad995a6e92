/**
 What running an emitted script does to the answer key's tables, stated of the rows of the run and of the tables
 before and after.
 */
module AnswerKeyRuns {
  import opened Options
  import opened AnswerKey

  // ----- tables whose keys are unique -----

  /** No two claims with one id, no two records with one locator, and every reference names a row. */
  predicate Keyed(db: Db) {
    && (forall i, j | 0 <= i < j < |db.claims| :: db.claims[i].id != db.claims[j].id)
    && (forall i, j | 0 <= i < j < |db.records| :: db.records[i].locator != db.records[j].locator)
    && forall c | c in db.checks ::
         c.claimId < |db.claims| && (c.recordId.Some? ==> c.recordId.value < |db.records|)
  }

  lemma {:induction false} ExecKeepsKeyed(db: Db, s: Stmt)
    requires Keyed(db) && Exec(db, s).Some?
    ensures Keyed(Exec(db, s).value)
  {
    match s
    case InsertClaim(seed) =>
    case InsertRecord(record) =>
    case InsertCheck(_, _, _, _, _, _, _) =>
  }

  lemma {:induction false} ScriptKeepsKeyed(db: Db, stmts: seq<Stmt>)
    requires Keyed(db) && ExecAll(db, stmts).Some?
    ensures Keyed(ExecAll(db, stmts).value)
  {
    if stmts != [] {
      ScriptKeepsKeyed(db, stmts[..|stmts| - 1]);
      ExecKeepsKeyed(ExecAll(db, stmts[..|stmts| - 1]).value, stmts[|stmts| - 1]);
    }
  }

  /** So the keys are unique after any scripts. */
  lemma {:induction false} HistoryStaysKeyed(scripts: seq<seq<Stmt>>)
    ensures Keyed(TransactAll(EMPTY, scripts))
  {
    if scripts != [] {
      var before := TransactAll(EMPTY, scripts[..|scripts| - 1]);
      HistoryStaysKeyed(scripts[..|scripts| - 1]);
      if ExecAll(before, scripts[|scripts| - 1]).Some? {
        ScriptKeepsKeyed(before, scripts[|scripts| - 1]);
      }
    }
  }

  // ----- what the rows of a run leave -----

  /** The check is of this claim, by this checker, in this run. */
  predicate Names(db: Db, c: Check, seedId: string, checker: string, runId: string) {
    && c.claimId < |db.claims| && db.claims[c.claimId].id == seedId
    && c.checker == checker && c.runId == runId
  }

  /** The tables hold a check of this run already. */
  predicate Holds(db: Db, seedId: string, checker: string, runId: string) {
    exists c | c in db.checks :: Names(db, c, seedId, checker, runId)
  }

  /** The check says what the row says, and names the record that the row names. */
  predicate Carries(db: Db, c: Check, r: RunRow, runId: string, checkedAt: int) {
    && Names(db, c, r.seed, r.checker, runId)
    && c.outcome == r.outcome && c.reason == r.reason && c.checkedAt == checkedAt
    && match r.record
       case None => c.recordId.None?
       case Some(record) =>
         && c.recordId.Some? && c.recordId.value < |db.records|
         && db.records[c.recordId.value].locator == record.locator
  }

  /** The first row of the run for its claim and checker. */
  predicate FirstOfGroup(rows: seq<RunRow>, i: nat) {
    i < |rows| && forall j | 0 <= j < i :: !(rows[j].seed == rows[i].seed && rows[j].checker == rows[i].checker)
  }

  /** The row adds a check: the first of its group, in a group that had none of this run. */
  predicate Adds(db: Db, rows: seq<RunRow>, i: nat, runId: string) {
    FirstOfGroup(rows, i) && !Holds(db, rows[i].seed, rows[i].checker, runId)
  }

  // ----- one row -----

  lemma {:induction false} ExecOne(db: Db, s: Stmt)
    ensures ExecAll(db, [s]) == Exec(db, s)
  {
    assert [s][..0] == [] && ExecAll(db, []) == Some(db);
  }

  lemma {:induction false} ExecConcat(db: Db, a: seq<Stmt>, b: seq<Stmt>)
    ensures ExecAll(db, a + b) == match ExecAll(db, a) case Some(next) => ExecAll(next, b) case None => None
    decreases |b|
  {
    if b == [] {
      assert a + b == a;
    } else {
      ExecConcat(db, a, b[..|b| - 1]);
      assert (a + b)[..|a + b| - 1] == a + b[..|b| - 1];
    }
  }

  /** The tables once the claim is there, and once the record is. */
  function WithClaim(db: Db, s: SeedClaim): Db {
    if ClaimId(db.claims, s.id).Some? then db else db.(claims := db.claims + [s])
  }

  function WithRecord(db: Db, r: RunRow): Db {
    if r.record.None? || RecordId(db.records, r.record.value.locator).Some? then db
    else db.(records := db.records + [r.record.value])
  }

  function CheckStmt(r: RunRow, runId: string, checkedAt: int): Stmt {
    InsertCheck(r.seed, LocatorOf(r), r.checker, r.outcome, r.reason, runId, checkedAt)
  }

  lemma {:induction false} RowRuns(db: Db, s: SeedClaim, r: RunRow, runId: string, checkedAt: int)
    requires s.id == r.seed
    ensures ExecAll(db, RowScript(s, r, runId, checkedAt)) ==
            if r.record.Some? && !RecordAllowed(r.record.value) then None
            else Exec(WithRecord(WithClaim(db, s), r), CheckStmt(r, runId, checkedAt))
  {
    var claim, check := [InsertClaim(s)], [CheckStmt(r, runId, checkedAt)];
    var record := if r.record.Some? then [InsertRecord(r.record.value)] else [];
    assert RowScript(s, r, runId, checkedAt) == claim + record + check;
    ExecOne(db, claim[0]);
    ExecConcat(db, claim, record);
    ExecConcat(db, claim + record, check);
    if r.record.Some? {
      ExecOne(WithClaim(db, s), record[0]);
    }
    forall d ensures ExecAll(d, check) == Exec(d, check[0]) {
      ExecOne(d, check[0]);
    }
  }

  lemma {:induction false} ClaimIsThere(db: Db, s: SeedClaim)
    requires Keyed(db)
    ensures Keyed(WithClaim(db, s)) && ClaimId(WithClaim(db, s).claims, s.id).Some?
    ensures forall k | 0 <= k < |WithClaim(db, s).claims| :: WithClaim(db, s).claims[k].id == s.id <==>
                       ClaimId(WithClaim(db, s).claims, s.id) == Some(k)
  {
    var d := WithClaim(db, s);
    if ClaimId(db.claims, s.id).None? {
      assert d.claims[|db.claims|] == s && s in d.claims;
      assert forall i | 0 <= i < |db.claims| :: db.claims[i] in db.claims;
    }
  }

  lemma {:induction false} RecordIsThere(db: Db, r: RunRow)
    requires Keyed(db)
    ensures Keyed(WithRecord(db, r)) && WithRecord(db, r).claims == db.claims && WithRecord(db, r).checks == db.checks
    ensures r.record.Some? ==> RecordId(WithRecord(db, r).records, r.record.value.locator).Some?
  {
    var d := WithRecord(db, r);
    if r.record.Some? && RecordId(db.records, r.record.value.locator).None? {
      assert d.records[|db.records|] == r.record.value && r.record.value in d.records;
      assert forall i | 0 <= i < |db.records| :: db.records[i] in db.records;
    }
  }

  /** A check of the run is there in terms of ids exactly if it is in terms of the claims. */
  lemma {:induction false} RecordedIffHolds(db: Db, s: SeedClaim, checker: string, runId: string)
    requires Keyed(db)
    ensures Recorded(db.checks, ClaimId(WithClaim(db, s).claims, s.id).value, checker, runId) <==>
            Holds(db, s.id, checker, runId)
  {
    ClaimIsThere(db, s);
    var k := ClaimId(WithClaim(db, s).claims, s.id).value;
    forall c | c in db.checks ensures c.claimId == k <==> db.claims[c.claimId].id == s.id {
    }
  }

  /** What one row does to the checks. */
  predicate RowChecks(db: Db, next: Db, r: RunRow, runId: string, checkedAt: int) {
    if Holds(db, r.seed, r.checker, runId) then next.checks == db.checks
    else
      && |next.checks| == |db.checks| + 1 && next.checks[..|db.checks|] == db.checks
      && Carries(next, next.checks[|db.checks|], r, runId, checkedAt)
  }

  lemma {:induction false} RecordAfterClaim(db: Db, s: SeedClaim, r: RunRow)
    ensures WithRecord(WithClaim(db, s), r).records == WithRecord(db, r).records
    ensures WithRecord(WithClaim(db, s), r).claims == WithClaim(db, s).claims
  {
  }

  lemma {:induction false} CheckDoes(d: Db, r: RunRow, runId: string, checkedAt: int, next: Db)
    requires Exec(d, CheckStmt(r, runId, checkedAt)) == Some(next)
    requires ClaimId(d.claims, r.seed).Some?
    requires r.record.Some? ==> RecordId(d.records, r.record.value.locator).Some?
    ensures next.claims == d.claims && next.records == d.records
    ensures if Recorded(d.checks, ClaimId(d.claims, r.seed).value, r.checker, runId) then next.checks == d.checks
            else
              && |next.checks| == |d.checks| + 1 && next.checks[..|d.checks|] == d.checks
              && Carries(next, next.checks[|d.checks|], r, runId, checkedAt)
  {
    hide ClaimId, RecordId, Recorded, CheckAllowed, Prior;
  }

  lemma {:induction false} RowDoes(db: Db, s: SeedClaim, r: RunRow, runId: string, checkedAt: int, next: Db)
    requires Keyed(db) && s.id == r.seed && ExecAll(db, RowScript(s, r, runId, checkedAt)) == Some(next)
    ensures Keyed(next)
    ensures next.claims == WithClaim(db, s).claims && next.records == WithRecord(db, r).records
    ensures RowChecks(db, next, r, runId, checkedAt)
  {
    hide Keyed, Holds, RowScript, ClaimId, RecordId, Recorded, Exec, Carries, RecordAllowed, ExecAll;
    ScriptKeepsKeyed(db, RowScript(s, r, runId, checkedAt));
    RowRuns(db, s, r, runId, checkedAt);
    ClaimIsThere(db, s);
    RecordIsThere(WithClaim(db, s), r);
    RecordedIffHolds(db, s, r.checker, runId);
    RecordAfterClaim(db, s, r);
    CheckDoes(WithRecord(WithClaim(db, s), r), r, runId, checkedAt, next);
  }

  // ----- when a row is accepted -----

  lemma {:induction false} GroupAscends(checks: seq<Check>, k: nat, last: nat)
    requires Linear(checks) && k <= last < |checks|
    requires InGroup(checks[k], checks[last].claimId, checks[last].checker)
    ensures checks[k].checkedAt <= checks[last].checkedAt
    decreases last
  {
    if k < last {
      assert LinkedAt(checks, last);
      GroupAscends(checks, k, checks[last].supersedes.value);
    }
  }

  /** The last check of a group is its latest: all are before a time exactly if it is. */
  lemma {:induction false} AllBeforeIff(checks: seq<Check>, claimId: nat, checker: string, time: int)
    requires Linear(checks)
    ensures var last := LastBefore(checks, |checks|, claimId, checker);
            (last.Some? ==> checks[last.value].checkedAt < time) <==>
            forall c | c in checks && InGroup(c, claimId, checker) :: c.checkedAt < time
  {
    var last := LastBefore(checks, |checks|, claimId, checker);
    if last.Some? {
      assert checks[last.value] in checks;
      forall c | c in checks && InGroup(c, claimId, checker) ensures c.checkedAt <= checks[last.value].checkedAt {
        var k :| 0 <= k < |checks| && checks[k] == c;
        GroupAscends(checks, k, last.value);
      }
    }
  }

  /** Every check of the claim by the checker is strictly earlier. */
  predicate AllEarlier(db: Db, seedId: string, checker: string, time: int) {
    forall c | c in db.checks && c.claimId < |db.claims| && db.claims[c.claimId].id == seedId && c.checker == checker ::
      c.checkedAt < time
  }

  /** The row can be recorded: its record is of a known kind and hash, and its check is allowed if it adds one. */
  predicate RowAllowed(db: Db, r: RunRow, runId: string, checkedAt: int) {
    && (r.record.Some? ==> RecordAllowed(r.record.value))
    && (!Holds(db, r.seed, r.checker, runId) ==>
          (r.outcome == Unchecked || r.record.Some?) && AllEarlier(db, r.seed, r.checker, checkedAt))
  }

  lemma {:induction false} SameGroups(db: Db, s: SeedClaim, checker: string, time: int)
    requires Keyed(db)
    ensures AllEarlier(db, s.id, checker, time) <==>
            forall c | c in db.checks && InGroup(c, ClaimId(WithClaim(db, s).claims, s.id).value, checker) ::
              c.checkedAt < time
  {
    ClaimIsThere(db, s);
    var k := ClaimId(WithClaim(db, s).claims, s.id).value;
    forall c | c in db.checks ensures c.claimId == k <==> db.claims[c.claimId].id == s.id {
    }
  }

  lemma {:induction false} NewCheckAllowedIff(db: Db, s: SeedClaim, r: RunRow, runId: string, checkedAt: int)
    requires Keyed(db) && Linear(db.checks) && s.id == r.seed
    requires !Recorded(db.checks, ClaimId(WithClaim(db, s).claims, s.id).value, r.checker, runId)
    ensures Exec(WithRecord(WithClaim(db, s), r), CheckStmt(r, runId, checkedAt)).Some? <==>
            (r.outcome == Unchecked || r.record.Some?) && AllEarlier(db, r.seed, r.checker, checkedAt)
  {
    var d := WithRecord(WithClaim(db, s), r);
    ClaimIsThere(db, s);
    RecordIsThere(WithClaim(db, s), r);
    SameGroups(db, s, r.checker, checkedAt);
    if r.record.Some? {
      assert d.records[RecordId(d.records, r.record.value.locator).value] in d.records;
    }
    hide Keyed, Linear, WithRecord, WithClaim, AllEarlier, Exec, Recorded;
    CheckAcceptedIff(d, CheckStmt(r, runId, checkedAt));
    AllBeforeIff(db.checks, ClaimId(d.claims, r.seed).value, r.checker, checkedAt);
  }

  lemma {:induction false} OldCheckAllowed(db: Db, s: SeedClaim, r: RunRow, runId: string, checkedAt: int)
    requires Keyed(db) && s.id == r.seed
    requires Recorded(db.checks, ClaimId(WithClaim(db, s).claims, s.id).value, r.checker, runId)
    ensures Exec(WithRecord(WithClaim(db, s), r), CheckStmt(r, runId, checkedAt)).Some?
  {
    ClaimIsThere(db, s);
    RecordIsThere(WithClaim(db, s), r);
    hide Keyed, WithRecord, WithClaim, Recorded, CheckAllowed;
  }

  lemma {:induction false} RowAllowedIff(db: Db, s: SeedClaim, r: RunRow, runId: string, checkedAt: int)
    requires Keyed(db) && Linear(db.checks) && s.id == r.seed
    ensures ExecAll(db, RowScript(s, r, runId, checkedAt)).Some? <==> RowAllowed(db, r, runId, checkedAt)
  {
    hide Keyed, Linear, Holds, RowScript, Exec, RecordAllowed, AllEarlier, WithRecord, WithClaim, Recorded;
    RowRuns(db, s, r, runId, checkedAt);
    ClaimIsThere(db, s);
    RecordedIffHolds(db, s, r.checker, runId);
    if Holds(db, r.seed, r.checker, runId) {
      OldCheckAllowed(db, s, r, runId, checkedAt);
    } else {
      NewCheckAllowedIff(db, s, r, runId, checkedAt);
    }
  }

  // ----- a whole run -----

  predicate ExtendsKeys(db: Db, next: Db) {
    db.claims <= next.claims && db.records <= next.records && db.checks <= next.checks
  }

  lemma {:induction false} NamesStays(db: Db, next: Db, c: Check, seedId: string, checker: string, runId: string)
    requires ExtendsKeys(db, next) && c.claimId < |db.claims|
    ensures Names(db, c, seedId, checker, runId) <==> Names(next, c, seedId, checker, runId)
  {
    assert db.claims[c.claimId] == next.claims[c.claimId];
  }

  lemma {:induction false} CarriesStays(db: Db, next: Db, c: Check, r: RunRow, runId: string, checkedAt: int)
    requires ExtendsKeys(db, next) && Carries(db, c, r, runId, checkedAt)
    ensures Carries(next, c, r, runId, checkedAt)
  {
    NamesStays(db, next, c, r.seed, r.checker, runId);
    if r.record.Some? {
      assert db.records[c.recordId.value] == next.records[c.recordId.value];
    }
  }

  lemma {:induction false} HoldsStays(db: Db, next: Db, seedId: string, checker: string, runId: string)
    requires ExtendsKeys(db, next) && Holds(db, seedId, checker, runId)
    ensures Holds(next, seedId, checker, runId)
  {
    var c :| c in db.checks && Names(db, c, seedId, checker, runId);
    NamesStays(db, next, c, seedId, checker, runId);
    assert c in next.checks;
  }

  /** A new check carries this row. */
  predicate NewCheckOf(db: Db, next: Db, r: RunRow, runId: string, checkedAt: int, k: nat) {
    |db.checks| <= k < |next.checks| && Carries(next, next.checks[k], r, runId, checkedAt)
  }

  predicate HasNewCheck(db: Db, next: Db, r: RunRow, runId: string, checkedAt: int) {
    exists k: nat | k < |next.checks| :: NewCheckOf(db, next, r, runId, checkedAt, k)
  }

  /** The check at this place carries a row that adds one. */
  predicate CarriesSome(db: Db, next: Db, rows: seq<RunRow>, runId: string, checkedAt: int, k: nat) {
    exists i: nat | i < |rows| ::
      Adds(db, rows, i, runId) && NewCheckOf(db, next, rows[i], runId, checkedAt, k)
  }

  function AddingRows(db: Db, rows: seq<RunRow>, runId: string): set<nat> {
    set i: nat | i < |rows| && Adds(db, rows, i, runId)
  }

  predicate IsSeedAt(seeds: seq<SeedClaim>, s: SeedClaim, k: nat) {
    k < |seeds| && seeds[k] == s && forall j | k < j < |seeds| :: seeds[j].id != s.id
  }

  /** The last seed with its id. */
  predicate IsSeed(seeds: seq<SeedClaim>, s: SeedClaim) {
    exists k: nat | k < |seeds| :: IsSeedAt(seeds, s, k)
  }

  predicate NamedByRow(rows: seq<RunRow>, s: SeedClaim) {
    exists r | r in rows :: r.seed == s.id
  }

  predicate RecordOfRow(rows: seq<RunRow>, record: Record) {
    exists r | r in rows :: r.record == Some(record)
  }

  /** What was there stays; every claim and record that is new is one that a row names. */
  predicate NewKeys(db: Db, next: Db, seeds: seq<SeedClaim>, rows: seq<RunRow>) {
    && ExtendsKeys(db, next)
    && (forall k | |db.claims| <= k < |next.claims| ::
          IsSeed(seeds, next.claims[k]) && NamedByRow(rows, next.claims[k]))
    && forall k | |db.records| <= k < |next.records| :: RecordOfRow(rows, next.records[k])
  }

  /**
   Every row's claim has a check of its checker in this run. Where there was none, the first row of the claim and
   checker has added one, which carries that row; and no other check is new.
   */
  predicate NewChecks(db: Db, next: Db, rows: seq<RunRow>, runId: string, checkedAt: int) {
    && (forall i | 0 <= i < |rows| :: Holds(next, rows[i].seed, rows[i].checker, runId))
    && (forall i: nat | i < |rows| && Adds(db, rows, i, runId) :: HasNewCheck(db, next, rows[i], runId, checkedAt))
    && (forall k: nat | |db.checks| <= k < |next.checks| :: CarriesSome(db, next, rows, runId, checkedAt, k))
    && |next.checks| == |db.checks| + |AddingRows(db, rows, runId)|
  }

  // ----- one more row -----

  lemma {:induction false} AddsSnoc(db: Db, rows: seq<RunRow>, r: RunRow, i: nat, runId: string)
    requires i < |rows|
    ensures Adds(db, rows + [r], i, runId) <==> Adds(db, rows, i, runId)
  {
    assert forall j | 0 <= j <= i :: (rows + [r])[j] == rows[j];
  }

  /** The next row adds a check exactly if the tables hold none for it by now. */
  lemma {:induction false} AddsIffMissing(
      db: Db, mid: Db, rows: seq<RunRow>, r: RunRow, runId: string, checkedAt: int)
    requires Keyed(db) && ExtendsKeys(db, mid) && Keyed(mid) && NewChecks(db, mid, rows, runId, checkedAt)
    ensures Adds(db, rows + [r], |rows|, runId) <==> !Holds(mid, r.seed, r.checker, runId)
  {
    var all, n := rows + [r], |rows|;
    assert forall j | 0 <= j < n :: all[j] == rows[j];
    if Holds(db, r.seed, r.checker, runId) {
      HoldsStays(db, mid, r.seed, r.checker, runId);
    } else if Holds(mid, r.seed, r.checker, runId) {
      var c :| c in mid.checks && Names(mid, c, r.seed, r.checker, runId);
      forall j | 0 <= j < |db.checks| ensures !Names(mid, mid.checks[j], r.seed, r.checker, runId) {
        assert mid.checks[j] == db.checks[j] && db.checks[j] in db.checks;
        NamesStays(db, mid, db.checks[j], r.seed, r.checker, runId);
      }
      var k: nat :| k < |mid.checks| && mid.checks[k] == c;
      assert CarriesSome(db, mid, rows, runId, checkedAt, k);
      var i: nat :| i < n && Adds(db, rows, i, runId) && NewCheckOf(db, mid, rows[i], runId, checkedAt, k);
      assert all[i].seed == r.seed && all[i].checker == r.checker;
    } else {
      assert forall j | 0 <= j < n :: Holds(mid, all[j].seed, all[j].checker, runId);
    }
  }

  lemma {:induction false} RowExtends(db: Db, s: SeedClaim, r: RunRow, runId: string, checkedAt: int, next: Db)
    requires next.claims == WithClaim(db, s).claims && next.records == WithRecord(db, r).records
    requires RowChecks(db, next, r, runId, checkedAt)
    ensures ExtendsKeys(db, next)
    ensures forall k | |db.claims| <= k < |next.claims| :: next.claims[k] == s
    ensures forall k | |db.records| <= k < |next.records| :: Some(next.records[k]) == r.record
  {
  }

  lemma {:induction false} NewKeysSnoc(
      db: Db, mid: Db, next: Db, seeds: seq<SeedClaim>, rows: seq<RunRow>, s: SeedClaim, r: RunRow)
    requires NewKeys(db, mid, seeds, rows) && ExtendsKeys(mid, next) && s.id == r.seed && IsSeed(seeds, s)
    requires forall k | |mid.claims| <= k < |next.claims| :: next.claims[k] == s
    requires forall k | |mid.records| <= k < |next.records| :: Some(next.records[k]) == r.record
    ensures NewKeys(db, next, seeds, rows + [r])
  {
    assert r in rows + [r];
    assert forall x | x in rows :: x in rows + [r];
    forall k | |db.claims| <= k < |next.claims|
      ensures IsSeed(seeds, next.claims[k]) && NamedByRow(rows + [r], next.claims[k])
    {
      if k < |mid.claims| {
        assert next.claims[k] == mid.claims[k] && NamedByRow(rows, mid.claims[k]);
      }
    }
    forall k | |db.records| <= k < |next.records| ensures RecordOfRow(rows + [r], next.records[k]) {
      if k < |mid.records| {
        assert next.records[k] == mid.records[k] && RecordOfRow(rows, mid.records[k]);
      }
    }
  }

  lemma {:induction false} NewCheckOfStays(
      db: Db, mid: Db, next: Db, r: RunRow, runId: string, checkedAt: int, k: nat)
    requires ExtendsKeys(mid, next) && NewCheckOf(db, mid, r, runId, checkedAt, k)
    ensures NewCheckOf(db, next, r, runId, checkedAt, k)
  {
    CarriesStays(mid, next, mid.checks[k], r, runId, checkedAt);
  }

  lemma {:induction false} AddingRowsSnoc(db: Db, rows: seq<RunRow>, r: RunRow, runId: string)
    ensures AddingRows(db, rows + [r], runId) ==
            AddingRows(db, rows, runId) + if Adds(db, rows + [r], |rows|, runId) then {|rows|} else {}
    ensures |AddingRows(db, rows + [r], runId)| ==
            |AddingRows(db, rows, runId)| + if Adds(db, rows + [r], |rows|, runId) then 1 else 0
  {
    forall i: nat | i < |rows| ensures Adds(db, rows + [r], i, runId) <==> Adds(db, rows, i, runId) {
      AddsSnoc(db, rows, r, i, runId);
    }
    hide Adds;
    assert |rows| !in AddingRows(db, rows, runId);
  }

  lemma {:induction false} RowHolds(db: Db, next: Db, r: RunRow, runId: string, checkedAt: int)
    requires ExtendsKeys(db, next) && RowChecks(db, next, r, runId, checkedAt)
    ensures Holds(next, r.seed, r.checker, runId)
    ensures !Holds(db, r.seed, r.checker, runId) ==> NewCheckOf(db, next, r, runId, checkedAt, |db.checks|)
  {
    if Holds(db, r.seed, r.checker, runId) {
      HoldsStays(db, next, r.seed, r.checker, runId);
    } else {
      assert next.checks[|db.checks|] in next.checks;
    }
  }

  lemma {:induction false} RowsHaveChecks(
      db: Db, mid: Db, next: Db, rows: seq<RunRow>, r: RunRow, runId: string, checkedAt: int, i: nat)
    requires ExtendsKeys(db, mid) && ExtendsKeys(mid, next) && RowChecks(mid, next, r, runId, checkedAt)
    requires Adds(db, rows + [r], |rows|, runId) <==> !Holds(mid, r.seed, r.checker, runId)
    requires NewChecks(db, mid, rows, runId, checkedAt) && i <= |rows| && Adds(db, rows + [r], i, runId)
    ensures HasNewCheck(db, next, (rows + [r])[i], runId, checkedAt)
  {
    if i < |rows| {
      AddsSnoc(db, rows, r, i, runId);
      assert HasNewCheck(db, mid, rows[i], runId, checkedAt);
      var k: nat :| k < |mid.checks| && NewCheckOf(db, mid, rows[i], runId, checkedAt, k);
      NewCheckOfStays(db, mid, next, rows[i], runId, checkedAt, k);
    } else {
      RowHolds(mid, next, r, runId, checkedAt);
      assert NewCheckOf(db, next, r, runId, checkedAt, |mid.checks|);
    }
  }

  lemma {:induction false} ChecksCarryRows(
      db: Db, mid: Db, next: Db, rows: seq<RunRow>, r: RunRow, runId: string, checkedAt: int, k: nat)
    requires ExtendsKeys(db, mid) && ExtendsKeys(mid, next) && RowChecks(mid, next, r, runId, checkedAt)
    requires Adds(db, rows + [r], |rows|, runId) <==> !Holds(mid, r.seed, r.checker, runId)
    requires NewChecks(db, mid, rows, runId, checkedAt) && |db.checks| <= k < |next.checks|
    ensures CarriesSome(db, next, rows + [r], runId, checkedAt, k)
  {
    var all := rows + [r];
    if k < |mid.checks| {
      assert CarriesSome(db, mid, rows, runId, checkedAt, k);
      var i: nat :| i < |rows| && Adds(db, rows, i, runId) && NewCheckOf(db, mid, rows[i], runId, checkedAt, k);
      AddsSnoc(db, rows, r, i, runId);
      NewCheckOfStays(db, mid, next, rows[i], runId, checkedAt, k);
      assert all[i] == rows[i];
    } else {
      RowHolds(mid, next, r, runId, checkedAt);
      assert all[|rows|] == r && NewCheckOf(db, next, all[|rows|], runId, checkedAt, k);
    }
  }

  lemma {:induction false} NewChecksSnoc(
      db: Db, mid: Db, next: Db, rows: seq<RunRow>, r: RunRow, runId: string, checkedAt: int)
    requires Keyed(db) && Keyed(mid) && ExtendsKeys(db, mid) && ExtendsKeys(mid, next)
    requires NewChecks(db, mid, rows, runId, checkedAt) && RowChecks(mid, next, r, runId, checkedAt)
    ensures NewChecks(db, next, rows + [r], runId, checkedAt)
  {
    var all, n := rows + [r], |rows|;
    AddsIffMissing(db, mid, rows, r, runId, checkedAt);
    AddingRowsSnoc(db, rows, r, runId);
    RowHolds(mid, next, r, runId, checkedAt);
    hide Keyed, Adds, AddingRows, Holds, Carries, NewCheckOf;
    forall i | 0 <= i < |all| ensures Holds(next, all[i].seed, all[i].checker, runId) {
      if i < n {
        HoldsStays(mid, next, rows[i].seed, rows[i].checker, runId);
      }
    }
    forall i: nat | i < |all| && Adds(db, all, i, runId) ensures HasNewCheck(db, next, all[i], runId, checkedAt) {
      RowsHaveChecks(db, mid, next, rows, r, runId, checkedAt, i);
    }
    forall k: nat | |db.checks| <= k < |next.checks| ensures CarriesSome(db, next, all, runId, checkedAt, k) {
      ChecksCarryRows(db, mid, next, rows, r, runId, checkedAt, k);
    }
  }

  // ----- what a committed script leaves, and when it commits -----

  lemma {:induction false} SeedIsLast(seeds: seq<SeedClaim>, id: string) returns (k: nat)
    requires SeedOf(seeds, id).Some?
    ensures IsSeedAt(seeds, SeedOf(seeds, id).value, k)
  {
    var n := |seeds| - 1;
    if seeds[n].id == id {
      k := n;
    } else {
      k := SeedIsLast(seeds[..n], id);
    }
  }

  lemma {:induction false} KeysExtend(db: Db, next: Db, seeds: seq<SeedClaim>, rows: seq<RunRow>)
    requires NewKeys(db, next, seeds, rows)
    ensures ExtendsKeys(db, next)
  {
  }

  /**
   What a run's script leaves if it commits, on any tables with unique keys: the claims, records and checks of its
   rows, and what was there before.
   */
  lemma {:induction false} CommittedRunIsRecorded(
      db: Db, seeds: seq<SeedClaim>, rows: seq<RunRow>, runId: string, checkedAt: int, next: Db)
    requires Keyed(db) && Script(seeds, rows, runId, checkedAt).Some?
    requires ExecAll(db, Script(seeds, rows, runId, checkedAt).value) == Some(next)
    ensures Keyed(next) && NewKeys(db, next, seeds, rows) && NewChecks(db, next, rows, runId, checkedAt)
  {
    if rows == [] {
      assert AddingRows(db, rows, runId) == {};
    } else {
      var n := |rows| - 1;
      var before, s := Script(seeds, rows[..n], runId, checkedAt).value, SeedOf(seeds, rows[n].seed).value;
      ExecConcat(db, before, RowScript(s, rows[n], runId, checkedAt));
      var mid := ExecAll(db, before).value;
      CommittedRunIsRecorded(db, seeds, rows[..n], runId, checkedAt, mid);
      var k := SeedIsLast(seeds, rows[n].seed);
      assert IsSeed(seeds, s);
      RowDoes(mid, s, rows[n], runId, checkedAt, next);
      hide *;
      RowExtends(mid, s, rows[n], runId, checkedAt, next);
      NewKeysSnoc(db, mid, next, seeds, rows[..n], s, rows[n]);
      KeysExtend(db, mid, seeds, rows[..n]);
      NewChecksSnoc(db, mid, next, rows[..n], rows[n], runId, checkedAt);
      assert rows == rows[..n] + [rows[n]];
    }
  }

  /** Of a known kind, with a SHA-256 in lower-case hex digits. */
  predicate Citable(record: Record) {
    && record.kind in {"npm", "pypi", "wikidata", "claimreview", "arxiv"}
    && |record.sha256| == 64 && forall c | c in record.sha256 :: '0' <= c <= '9' || 'a' <= c <= 'f'
  }

  lemma {:induction false} CitableIff(record: Record)
    ensures Citable(record) <==> RecordAllowed(record)
  {
    if Citable(record) {
      assert forall i | 0 <= i < |record.sha256| :: record.sha256[i] in record.sha256;
    }
  }

  /** The row's record is admissible; and if it adds a check, that has a record unless unchecked, and is the latest. */
  predicate Admissible(db: Db, rows: seq<RunRow>, i: nat, runId: string, checkedAt: int)
    requires i < |rows|
  {
    && (rows[i].record.Some? ==> Citable(rows[i].record.value))
    && (Adds(db, rows, i, runId) ==>
          && (rows[i].outcome == Unchecked || rows[i].record.Some?)
          && AllEarlier(db, rows[i].seed, rows[i].checker, checkedAt))
  }

  lemma {:induction false} EarlierBeforeRun(
      db: Db, mid: Db, rows: seq<RunRow>, r: RunRow, runId: string, checkedAt: int)
    requires Keyed(db) && Keyed(mid) && ExtendsKeys(db, mid) && NewChecks(db, mid, rows, runId, checkedAt)
    requires !Holds(mid, r.seed, r.checker, runId)
    ensures AllEarlier(mid, r.seed, r.checker, checkedAt) <==> AllEarlier(db, r.seed, r.checker, checkedAt)
  {
    forall c | c in db.checks ensures c in mid.checks && db.claims[c.claimId] == mid.claims[c.claimId] {
    }
    forall k: nat | |db.checks| <= k < |mid.checks| ensures mid.checks[k].runId == runId {
      assert CarriesSome(db, mid, rows, runId, checkedAt, k);
    }
    forall c | c in mid.checks && c !in db.checks
      ensures !(mid.claims[c.claimId].id == r.seed && c.checker == r.checker)
    {
      assert forall j | 0 <= j < |db.checks| :: mid.checks[j] == db.checks[j];
      var k: nat :| k < |mid.checks| && mid.checks[k] == c;
      assert !Names(mid, c, r.seed, r.checker, runId);
    }
  }

  lemma {:induction false} NextRowAdmissible(
      db: Db, mid: Db, rows: seq<RunRow>, r: RunRow, runId: string, checkedAt: int)
    requires Keyed(db) && Keyed(mid) && ExtendsKeys(db, mid) && NewChecks(db, mid, rows, runId, checkedAt)
    ensures Admissible(db, rows + [r], |rows|, runId, checkedAt) <==> RowAllowed(mid, r, runId, checkedAt)
  {
    AddsIffMissing(db, mid, rows, r, runId, checkedAt);
    if !Holds(mid, r.seed, r.checker, runId) {
      EarlierBeforeRun(db, mid, rows, r, runId, checkedAt);
    }
    if r.record.Some? {
      CitableIff(r.record.value);
    }
    hide Keyed, ExtendsKeys, NewChecks, Holds, AllEarlier, Adds, RecordAllowed, Citable;
  }

  /**
   On a linear history with unique keys, a run's script commits exactly if every row is admissible: whatever else
   the run holds, and however its rows repeat.
   */
  lemma {:induction false} RunCommitsIff(
      db: Db, seeds: seq<SeedClaim>, rows: seq<RunRow>, runId: string, checkedAt: int)
    requires Keyed(db) && Linear(db.checks) && Script(seeds, rows, runId, checkedAt).Some?
    ensures ExecAll(db, Script(seeds, rows, runId, checkedAt).value).Some? <==>
            forall i | 0 <= i < |rows| :: Admissible(db, rows, i, runId, checkedAt)
  {
    if rows != [] {
      var n := |rows| - 1;
      var init, r := rows[..n], rows[n];
      var before, s := Script(seeds, init, runId, checkedAt).value, SeedOf(seeds, r.seed).value;
      assert Script(seeds, rows, runId, checkedAt).value == before + RowScript(s, r, runId, checkedAt);
      assert rows == init + [r];
      ExecConcat(db, before, RowScript(s, r, runId, checkedAt));
      RunCommitsIff(db, seeds, init, runId, checkedAt);
      ScriptKeepsLinear(db, before);
      forall i | 0 <= i < n
        ensures Admissible(db, rows, i, runId, checkedAt) <==> Admissible(db, init, i, runId, checkedAt)
      {
        AddsSnoc(db, init, r, i, runId);
      }
      hide Admissible, ExecAll, Script, Keyed, Linear, RowScript;
      if ExecAll(db, before).Some? {
        var mid := ExecAll(db, before).value;
        CommittedRunIsRecorded(db, seeds, init, runId, checkedAt, mid);
        KeysExtend(db, mid, seeds, init);
        RowAllowedIff(mid, s, r, runId, checkedAt);
        NextRowAdmissible(db, mid, init, r, runId, checkedAt);
      }
    }
  }
}
