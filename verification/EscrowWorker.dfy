/**
 The worker that escrows pending contracts, any number of instances at once, beside manual escrow calls and
 any other writers. Every write passes the status trigger of the contracts table.
 */
module EscrowWorker {
  import opened Options

  datatype Status = PENDING | ESCROWED | FULFILLED | SATISFIED | SETTLED | DISPUTED | RESOLVED | EXPIRED | CANCELLED

  datatype Contract = Contract(
    status: Status, service: string, buyer: string, payloadType: Option<string>, createdAt: int, expiresAt: int,
    payment: Option<string>, escrowedAt: Option<int>, settledAt: Option<int>)

  datatype Service = Service(kind: string, active: bool, minRepid: Option<int>)

  datatype Db = Db(contracts: map<string, Contract>, services: map<string, Service>, scores: map<string, int>, now: int)

  // ----- the trigger of the table -----

  predicate InsertAllowed(status: Status) {
    status == PENDING || status == CANCELLED
  }

  predicate UpdateAllowed(was: Status, becomes: Status) {
    match was
    case PENDING => becomes in {PENDING, ESCROWED, EXPIRED, CANCELLED}
    case ESCROWED => becomes in {ESCROWED, FULFILLED, DISPUTED, EXPIRED}
    case FULFILLED => becomes in {FULFILLED, SATISFIED, DISPUTED}
    case SATISFIED => becomes in {SATISFIED, SETTLED}
    case DISPUTED => becomes in {DISPUTED, RESOLVED}
    case _ => false
  }

  /** An update of one row: carried out, or raised by the trigger and so without effect. */
  function Updated(db: Db, id: string, row: Contract): Db {
    if id in db.contracts && UpdateAllowed(db.contracts[id].status, row.status) then
      db.(contracts := db.contracts[id := row])
    else db
  }

  // ----- what the worker reads -----

  datatype Row = Row(id: string, contract: Contract, service: Service)

  predicate Given(s: Option<string>) {
    s.Some? && s.value != ""
  }

  /** The row a poll may return for a contract: pending, unexpired, joined with its service. */
  predicate Pollable(db: Db, enforcement: bool, row: Row) {
    && row.id in db.contracts && db.contracts[row.id] == row.contract
    && row.contract.service in db.services && db.services[row.contract.service] == row.service
    && row.contract.status == PENDING && row.contract.expiresAt > db.now
    && (enforcement ==> row.contract.payment.Some?)
  }

  const BATCH := 10

  predicate Listed(id: string, rows: seq<Row>) {
    exists r | r in rows :: r.id == id
  }

  /** The oldest rows, at most a batch; which of equally old rows come first is open. */
  predicate PollReturns(db: Db, enforcement: bool, rows: seq<Row>) {
    && |rows| <= BATCH
    && (forall r | r in rows :: Pollable(db, enforcement, r))
    && (forall i, j | 0 <= i < j < |rows| :: rows[i].id != rows[j].id)
    && (forall i, j | 0 <= i < j < |rows| :: rows[i].contract.createdAt <= rows[j].contract.createdAt)
    && forall id | id in db.contracts && db.contracts[id].service in db.services && !Listed(id, rows) ::
         Pollable(db, enforcement, Row(id, db.contracts[id], db.services[db.contracts[id].service])) ==>
           |rows| == BATCH && forall q | q in rows :: q.contract.createdAt <= db.contracts[id].createdAt
  }

  predicate TypeResolvable(row: Row) {
    row.service.kind != "" || Given(row.contract.payloadType)
  }

  function Floor(row: Row): int {
    if row.service.minRepid.Some? then row.service.minRepid.value else 0
  }

  predicate BuyerMeets(db: Db, row: Row) {
    row.contract.buyer in db.scores && db.scores[row.contract.buyer] >= Floor(row)
  }

  predicate ServiceOpen(row: Row) {
    TypeResolvable(row) && row.service.active
  }

  // ----- processes and steps -----

  /** How the call of a statement ends: normally, or with an error before or after it committed. */
  datatype Call = Returns | FailsBefore | FailsAfter

  /**
   How a manual call got past the payment gate: there was none, the contract had been settled before, or the
   call read it pending and then held an authorization (or met the settlement of another call), or settled.
   */
  datatype Gate = Legacy | AlreadySettled(payment: string) | Linked(payment: string) | PaidNow(payment: string) {
    predicate NeedsPending() {
      Linked? || PaidNow?
    }

    /** The row that the call's update writes. */
    function Escrowed(row: Contract, now: int): Contract {
      row.(status := ESCROWED, escrowedAt := Some(now), payment := if Legacy? then row.payment else Some(payment),
           settledAt := if PaidNow? then Some(now) else row.settledAt)
    }
  }

  /** A process keeps the states in which it read, besides what it read there. */
  datatype Phase =
    | Idle
    | Working(polled: Db, enforcement: bool, left: seq<Row>)
    | Approved(polled: Db, enforcement: bool, left: seq<Row>, judged: Db)
    | Fetched(id: string, seen: Contract)

  datatype System = System(db: Db, phases: map<string, Phase>) {
    function Of(pid: string): Phase {
      if pid in phases then phases[pid] else Idle
    }

    function Goto(pid: string, phase: Phase): System {
      this.(phases := phases[pid := phase])
    }
  }

  datatype Event =
    | Poll(pid: string, enforcement: bool, rows: seq<Row>)
    | Judge(pid: string, lookup: Call)
    | Transition(pid: string, call: Call)
    | ManualFetch(pid: string, id: string)
    | ManualEscrow(pid: string, gate: Gate, call: Call)
    | OtherInsert(id: string, row: Contract)
    | OtherUpdate(id: string, row: Contract)
    | OtherTables(services: map<string, Service>, scores: map<string, int>, now: int)

  /** The worker's conditional update. */
  function CompareAndSet(db: Db, id: string): Db {
    if id in db.contracts && db.contracts[id].status == PENDING then
      Updated(db, id, db.contracts[id].(status := ESCROWED, escrowedAt := Some(db.now)))
    else db
  }

  /** The manual call's update, which names the contract only. */
  function Overwrite(db: Db, id: string, gate: Gate): Db {
    if id in db.contracts then
      Updated(db, id, gate.Escrowed(db.contracts[id], db.now))
    else db
  }

  /** One row of the batch: passed over, or cleared for the update. */
  function Judged(s: System, p: Phase, lookup: Call): Phase
    requires p.Working? && p.left != []
  {
    var row := p.left[0];
    var skip := Working(p.polled, p.enforcement, p.left[1..]);
    if !ServiceOpen(row) then skip
    else if Floor(row) > 0 && (lookup != Returns || !BuyerMeets(s.db, row)) then skip
    else Approved(p.polled, p.enforcement, p.left, s.db)
  }

  function Step(s: System, e: Event): System {
    match e
    case Poll(pid, enforcement, rows) =>
      if s.Of(pid).Idle? && PollReturns(s.db, enforcement, rows) then s.Goto(pid, Working(s.db, enforcement, rows))
      else s
    case Judge(pid, lookup) =>
      var p := s.Of(pid);
      if !p.Working? then s
      else if p.left == [] then s.Goto(pid, Idle)
      else s.Goto(pid, Judged(s, p, lookup))
    case Transition(pid, call) =>
      var p := s.Of(pid);
      if !p.Approved? || p.left == [] then s
      else
        var db := if call == FailsBefore then s.db else CompareAndSet(s.db, p.left[0].id);
        s.Goto(pid, Working(p.polled, p.enforcement, p.left[1..])).(db := db)
    case ManualFetch(pid, id) =>
      if s.Of(pid).Idle? && id in s.db.contracts then s.Goto(pid, Fetched(id, s.db.contracts[id])) else s
    case ManualEscrow(pid, gate, call) =>
      var p := s.Of(pid);
      if !p.Fetched? then s
      else if gate.NeedsPending() && p.seen.status != PENDING then s.Goto(pid, Idle)
      else
        var db := if call == FailsBefore then s.db else Overwrite(s.db, p.id, gate);
        s.Goto(pid, Idle).(db := db)
    case OtherInsert(id, row) =>
      if id !in s.db.contracts && InsertAllowed(row.status) then
        s.(db := s.db.(contracts := s.db.contracts[id := row]))
      else s
    case OtherUpdate(id, row) => s.(db := Updated(s.db, id, row))
    case OtherTables(services, scores, now) =>
      s.(db := s.db.(services := services, scores := scores, now := now))
  }

  function Run(s: System, events: seq<Event>): System
    decreases |events|
  {
    if events == [] then s else Run(Step(s, events[0]), events[1..])
  }

  lemma {:induction false} RunConcat(s: System, a: seq<Event>, b: seq<Event>)
    ensures Run(s, a + b) == Run(Run(s, a), b)
    decreases |a|
  {
    if a == [] {
      assert a + b == b;
    } else {
      assert (a + b)[1..] == a[1..] + b;
      RunConcat(Step(s, a[0]), a[1..], b);
    }
  }

  function Start(db: Db): System {
    System(db, map[])
  }

  // ----- at most one win -----

  predicate StatusIs(db: Db, id: string, status: Status) {
    id in db.contracts && db.contracts[id].status == status
  }

  predicate LeftPending(db: Db, id: string) {
    id in db.contracts && db.contracts[id].status != PENDING
  }

  /** The step takes the contract from pending to escrowed. */
  predicate Wins(s: System, e: Event, id: string) {
    StatusIs(s.db, id, PENDING) && StatusIs(Step(s, e).db, id, ESCROWED)
  }

  function WinCount(s: System, events: seq<Event>, id: string): nat
    decreases |events|
  {
    if events == [] then 0
    else WinCount(Step(s, events[0]), events[1..], id) + if Wins(s, events[0], id) then 1 else 0
  }

  /** No writer brings a contract back to pending: the trigger forbids it. */
  lemma {:induction false} NeverPendingAgain(s: System, e: Event, id: string)
    requires LeftPending(s.db, id)
    ensures LeftPending(Step(s, e).db, id)
  {
  }

  /** Whatever workers, manual calls and other writers do, each contract is won at most once. */
  lemma {:induction false} AtMostOneWin(s: System, events: seq<Event>, id: string)
    ensures WinCount(s, events, id) <= 1
    ensures LeftPending(s.db, id) ==> WinCount(s, events, id) == 0
    decreases |events|
  {
    if events != [] {
      AtMostOneWin(Step(s, events[0]), events[1..], id);
      if LeftPending(s.db, id) {
        NeverPendingAgain(s, events[0], id);
      }
    }
  }

  lemma {:induction false} RunSnoc(s: System, events: seq<Event>, e: Event)
    ensures Run(s, events + [e]) == Step(Run(s, events), e)
  {
    RunConcat(s, events, [e]);
    assert Run(Run(s, events), [e]) == Run(Step(Run(s, events), e), [e][1..]);
  }

  // ----- what the steps of a worker and of a manual call do -----

  /** All other contracts, and the other tables, are as before. */
  predicate OnlyChanges(before: Db, after: Db, id: string) {
    && after.services == before.services && after.scores == before.scores && after.now == before.now
    && after.contracts.Keys == before.contracts.Keys
    && forall other | other in before.contracts && other != id :: after.contracts[other] == before.contracts[other]
  }

  /** The contract is escrowed as of now, and nothing else about it, or about anything, changed. */
  predicate EscrowedNow(before: Db, after: Db, id: string) {
    && OnlyChanges(before, after, id) && id in before.contracts && id in after.contracts
    && var was, becomes := before.contracts[id], after.contracts[id];
       && becomes.status == ESCROWED && becomes.escrowedAt == Some(before.now)
       && becomes.service == was.service && becomes.buyer == was.buyer && becomes.payloadType == was.payloadType
       && becomes.createdAt == was.createdAt && becomes.expiresAt == was.expiresAt
       && becomes.payment == was.payment && becomes.settledAt == was.settledAt
  }

  /**
   The update of a cleared row wins exactly if it reaches the database while the contract is pending. A win
   sets the status and the time, and keeps the terms and the payment; anything else changes nothing.
   */
  lemma {:induction false} TransitionWins(s: System, pid: string, call: Call, id: string)
    requires s.Of(pid).Approved? && s.Of(pid).left != [] && s.Of(pid).left[0].id == id
    ensures var after := Step(s, Transition(pid, call)).db;
            && (Wins(s, Transition(pid, call), id) <==> call != FailsBefore && StatusIs(s.db, id, PENDING))
            && if Wins(s, Transition(pid, call), id) then EscrowedNow(s.db, after, id) else after == s.db
  {
  }

  /** A row is cleared exactly if its type can be told, its service is active and its buyer meets the floor. */
  lemma {:induction false} JudgeClears(s: System, pid: string, lookup: Call)
    requires s.Of(pid).Working? && s.Of(pid).left != []
    ensures var row, after := s.Of(pid).left[0], Step(s, Judge(pid, lookup));
            && after.db == s.db
            && (after.Of(pid).Approved? <==>
                  && row.service.active
                  && (row.service.kind != "" || row.contract.payloadType !in {None, Some("")})
                  && (row.service.minRepid.Some? && row.service.minRepid.value > 0 ==>
                        && lookup == Returns && row.contract.buyer in s.db.scores
                        && s.db.scores[row.contract.buyer] >= row.service.minRepid.value))
            && after.Of(pid).left == if after.Of(pid).Approved? then s.Of(pid).left else s.Of(pid).left[1..]
  {
  }

  /** The gate lets a manual call pass on what it read. */
  predicate GatePasses(gate: Gate, seen: Contract) {
    match gate
    case Legacy => true
    case AlreadySettled(_) => true
    case Linked(_) => seen.status == PENDING
    case PaidNow(_) => seen.status == PENDING
  }

  /**
   A manual call past its gate escrows the contract if it is pending or escrowed by then. It links the payment of
   its gate, if it has one, and the time of the settlement, if the call settled; it changes nothing else.
   */
  lemma {:induction false} ManualEscrows(s: System, pid: string, gate: Gate, call: Call)
    requires s.Of(pid).Fetched?
    ensures var id, after := s.Of(pid).id, Step(s, ManualEscrow(pid, gate, call)).db;
            if GatePasses(gate, s.Of(pid).seen) && call != FailsBefore &&
               (StatusIs(s.db, id, PENDING) || StatusIs(s.db, id, ESCROWED)) then
              && OnlyChanges(s.db, after, id) && id in after.contracts
              && var was, becomes := s.db.contracts[id], after.contracts[id];
                 && becomes.status == ESCROWED && becomes.escrowedAt == Some(s.db.now)
                 && becomes.payment == (match gate
                                        case Legacy => was.payment
                                        case AlreadySettled(payment) => Some(payment)
                                        case Linked(payment) => Some(payment)
                                        case PaidNow(payment) => Some(payment))
                 && becomes.settledAt == (if gate.PaidNow? then Some(s.db.now) else was.settledAt)
                 && becomes.service == was.service && becomes.buyer == was.buyer
                 && becomes.payloadType == was.payloadType
                 && becomes.createdAt == was.createdAt && becomes.expiresAt == was.expiresAt
            else after == s.db
  {
  }

  /** The changes of status that the table's trigger lets through. */
  const CHANGES: set<(Status, Status)> := {
    (PENDING, PENDING), (PENDING, ESCROWED), (PENDING, EXPIRED), (PENDING, CANCELLED),
    (ESCROWED, ESCROWED), (ESCROWED, FULFILLED), (ESCROWED, DISPUTED), (ESCROWED, EXPIRED),
    (FULFILLED, FULFILLED), (FULFILLED, SATISFIED), (FULFILLED, DISPUTED),
    (SATISFIED, SATISFIED), (SATISFIED, SETTLED), (DISPUTED, DISPUTED), (DISPUTED, RESOLVED)}

  /** Other writers insert new contracts that are pending or cancelled, and update them by those changes. */
  lemma {:induction false} OthersWrite(s: System, id: string, row: Contract)
    ensures Step(s, OtherInsert(id, row)).db ==
            if id !in s.db.contracts && row.status in {PENDING, CANCELLED} then
              s.db.(contracts := s.db.contracts[id := row])
            else s.db
    ensures Step(s, OtherUpdate(id, row)).db ==
            if id in s.db.contracts && (s.db.contracts[id].status, row.status) in CHANGES then
              s.db.(contracts := s.db.contracts[id := row])
            else s.db
  {
  }

  // ----- the life of a contract -----

  /** How far along its life a status is; the last four are final. */
  function Rank(status: Status): nat {
    match status
    case PENDING => 0
    case ESCROWED => 1
    case FULFILLED => 2
    case SATISFIED => 3
    case DISPUTED => 3
    case SETTLED => 4
    case RESOLVED => 4
    case EXPIRED => 4
    case CANCELLED => 4
  }

  /** The contract is as it was in its final status, or as far as it was, or further. */
  predicate Advanced(before: Db, after: Db, id: string) {
    && id in before.contracts && id in after.contracts
    && var was, becomes := before.contracts[id], after.contracts[id];
       && Rank(was.status) <= Rank(becomes.status)
       && (Rank(was.status) == Rank(becomes.status) ==> was.status == becomes.status)
       && (Rank(was.status) == 4 ==> was == becomes)
  }

  lemma {:induction false} StepAdvances(s: System, e: Event, id: string)
    requires id in s.db.contracts
    ensures Advanced(s.db, Step(s, e).db, id)
  {
  }

  /** Whatever anyone does, contracts only advance, and a contract in a final status is never altered. */
  lemma {:induction false} StatusOnlyAdvances(s: System, events: seq<Event>, id: string)
    requires id in s.db.contracts
    ensures Advanced(s.db, Run(s, events).db, id)
    decreases |events|
  {
    if events != [] {
      StepAdvances(s, events[0], id);
      StatusOnlyAdvances(Step(s, events[0]), events[1..], id);
    }
  }

  // ----- every poll has an answer -----

  /** Pending, not expired, of a known service, and paid where that is enforced. */
  predicate OpenToWorkers(db: Db, enforcement: bool, id: string) {
    && id in db.contracts && db.contracts[id].service in db.services
    && db.contracts[id].status == PENDING && db.now < db.contracts[id].expiresAt
    && (enforcement ==> db.contracts[id].payment.Some?)
  }

  /**
   A poll returns at most ten different contracts by age, each open to the worker; one that is open and not
   returned is no older than any of the ten that are.
   */
  lemma {:induction false} PollMeans(db: Db, enforcement: bool, rows: seq<Row>, id: string)
    requires PollReturns(db, enforcement, rows) && id in db.contracts
    ensures |rows| <= 10 && forall r | r in rows :: r.id in db.contracts && r.contract == db.contracts[r.id]
    ensures forall i, j | 0 <= i < j < |rows| ::
              rows[i].id != rows[j].id && rows[i].contract.createdAt <= rows[j].contract.createdAt
    ensures Listed(id, rows) ==> OpenToWorkers(db, enforcement, id)
    ensures OpenToWorkers(db, enforcement, id) && !Listed(id, rows) ==>
              |rows| == 10 && forall r | r in rows :: r.contract.createdAt <= db.contracts[id].createdAt
  {
  }

  lemma {:induction false} OldestOf(db: Db, ids: set<string>) returns (id: string)
    requires ids != {} && ids <= db.contracts.Keys
    ensures id in ids && forall other | other in ids :: db.contracts[id].createdAt <= db.contracts[other].createdAt
    decreases |ids|
  {
    id :| id in ids;
    if ids != {id} {
      var rest := OldestOf(db, ids - {id});
      if db.contracts[rest].createdAt < db.contracts[id].createdAt {
        id := rest;
      }
    }
  }

  /** At most n of these contracts, the oldest ones, in order of age. */
  predicate OldestRows(db: Db, ids: set<string>, n: nat, rows: seq<Row>) {
    && |rows| <= n
    && (forall r | r in rows :: r.id in ids && r.id in db.contracts && r.contract == db.contracts[r.id] &&
          r.contract.service in db.services && r.service == db.services[r.contract.service])
    && (forall i, j | 0 <= i < j < |rows| :: rows[i].id != rows[j].id)
    && (forall i, j | 0 <= i < j < |rows| :: rows[i].contract.createdAt <= rows[j].contract.createdAt)
    && forall id | id in ids && id in db.contracts && !Listed(id, rows) ::
         |rows| == n && forall q | q in rows :: q.contract.createdAt <= db.contracts[id].createdAt
  }

  lemma {:induction false} OldestFirst(db: Db, ids: set<string>, n: nat, id: string, rest: seq<Row>)
    requires n > 0 && id in ids && ids <= db.contracts.Keys && db.contracts[id].service in db.services
    requires forall other | other in ids :: db.contracts[id].createdAt <= db.contracts[other].createdAt
    requires OldestRows(db, ids - {id}, n - 1, rest)
    ensures OldestRows(db, ids, n, [Row(id, db.contracts[id], db.services[db.contracts[id].service])] + rest)
  {
    var rows := [Row(id, db.contracts[id], db.services[db.contracts[id].service])] + rest;
    forall other | other in ids && !Listed(other, rows) ensures other != id && !Listed(other, rest) {
      assert rows[0] in rows;
      assert forall r | r in rest :: r in rows;
    }
  }

  lemma {:induction false} OldestExist(db: Db, ids: set<string>, n: nat) returns (rows: seq<Row>)
    requires ids <= db.contracts.Keys && forall id | id in ids :: db.contracts[id].service in db.services
    ensures OldestRows(db, ids, n, rows)
    decreases n
  {
    if n == 0 || ids == {} {
      rows := [];
    } else {
      var id := OldestOf(db, ids);
      var rest := OldestExist(db, ids - {id}, n - 1);
      var row := Row(id, db.contracts[id], db.services[db.contracts[id].service]);
      rows := [row] + rest;
      OldestFirst(db, ids, n, id, rest);
    }
  }

  /** Whatever the tables hold, some answer is what a poll returns. */
  lemma {:induction false} PollHasAnswer(db: Db, enforcement: bool)
    ensures exists rows :: PollReturns(db, enforcement, rows)
  {
    var ids := set id | id in db.contracts && db.contracts[id].service in db.services &&
                        Pollable(db, enforcement, Row(id, db.contracts[id], db.services[db.contracts[id].service]));
    var rows := OldestExist(db, ids, BATCH);
    forall r | r in rows ensures Pollable(db, enforcement, r) {
      assert r == Row(r.id, db.contracts[r.id], db.services[db.contracts[r.id].service]);
    }
    assert PollReturns(db, enforcement, rows);
  }

  // ----- what alters a contract that is no longer pending -----

  /** A manual call past the gate, whose update commits, writes other data over an escrowed contract. */
  predicate ManualRewrites(s: System, e: Event, id: string) {
    && e.ManualEscrow? && s.Of(e.pid).Fetched? && s.Of(e.pid).id == id
    && (e.gate.NeedsPending() ==> s.Of(e.pid).seen.status == PENDING)
    && e.call != FailsBefore
    && StatusIs(s.db, id, ESCROWED)
    && e.gate.Escrowed(s.db.contracts[id], s.db.now) != s.db.contracts[id]
  }

  lemma {:induction false} NonPendingStepIff(s: System, e: Event, id: string)
    requires LeftPending(s.db, id) && !(e.OtherUpdate? && e.id == id)
    ensures LeftPending(Step(s, e).db, id)
    ensures Step(s, e).db.contracts[id] != s.db.contracts[id] <==> ManualRewrites(s, e, id)
  {
  }

  predicate Rewritten(events: seq<Event>, i: nat, id: string) {
    exists k | i <= k < |events| :: events[k].OtherUpdate? && events[k].id == id
  }

  predicate SameRow(s: System, t: System, id: string) {
    id in s.db.contracts && id in t.db.contracts && s.db.contracts[id] == t.db.contracts[id]
  }

  /** The row is never different from one moment of the run to the next. */
  predicate Unaltered(s: System, events: seq<Event>, id: string) {
    forall x | 0 <= x < |events| :: SameRow(Run(s, events[..x]), Run(s, events[..x + 1]), id)
  }

  lemma {:induction false} UnalteredSnoc(s: System, init: seq<Event>, e: Event, id: string)
    ensures Unaltered(s, init + [e], id) <==>
            Unaltered(s, init, id) && SameRow(Run(s, init), Run(s, init + [e]), id)
  {
    var events := init + [e];
    assert forall x | 0 <= x <= |init| :: events[..x] == init[..x];
    assert events[..|init| + 1] == events && init[..|init|] == init;
  }

  /**
   Over any run in which no other writer updates it, a contract that is no longer pending stays as it is
   exactly if no manual call rewrites it. So no worker ever alters it.
   */
  lemma {:induction false} NonPendingStaysIff(s: System, events: seq<Event>, id: string)
    requires LeftPending(s.db, id) && !Rewritten(events, 0, id)
    ensures LeftPending(Run(s, events).db, id)
    ensures Unaltered(s, events, id) <==>
            forall x | 0 <= x < |events| :: !ManualRewrites(Run(s, events[..x]), events[x], id)
    decreases |events|
  {
    if events != [] {
      var n := |events| - 1;
      var init, e := events[..n], events[n];
      assert events == init + [e];
      RunSnoc(s, init, e);
      NonPendingStaysIff(s, init, id);
      NonPendingStepIff(Run(s, init), e, id);
      assert forall x | 0 <= x <= n :: events[..x] == init[..x];
      UnalteredSnoc(s, init, e, id);
    }
  }

  // ----- what a worker's win rests on -----

  /** The row was pollable in one state, and cleared on what was found in another. */
  predicate Justified(row: Row, polled: Db, enforcement: bool, judged: Db) {
    var c, service := row.contract, row.service;
    && row.id in polled.contracts && polled.contracts[row.id] == c && c.status == PENDING && polled.now < c.expiresAt
    && c.service in polled.services && polled.services[c.service] == service && service.active
    && (service.kind != "" || c.payloadType !in {None, Some("")})
    && (enforcement ==> c.payment.Some?)
    && (service.minRepid.Some? && service.minRepid.value > 0 ==>
          c.buyer in judged.scores && judged.scores[c.buyer] >= service.minRepid.value)
  }

  /**
   The process polled here, in the state that its phase remembers, and what is left of its batch is the end
   of what that poll returned; it has not been idle since.
   */
  predicate PolledAt(s: System, events: seq<Event>, i: nat, pid: string, p: Phase) {
    && (p.Working? || p.Approved?)
    && i < |events| && events[i].Poll? && events[i].pid == pid && events[i].enforcement == p.enforcement
    && (forall k | i < k <= |events| :: !Run(s, events[..k]).Of(pid).Idle?)
    && var t := Run(s, events[..i]);
       && t.Of(pid).Idle? && t.db == p.polled
       && PollReturns(p.polled, p.enforcement, events[i].rows)
       && |p.left| <= |events[i].rows| && p.left == events[i].rows[|events[i].rows| - |p.left|..]
  }

  /** The process judged the first of what is left here, in the state that its phase remembers, and cleared it. */
  predicate JudgedAt(s: System, events: seq<Event>, j: nat, pid: string, p: Phase) {
    && p.Approved? && p.left != []
    && j < |events| && events[j].Judge? && events[j].pid == pid
    && var t := Run(s, events[..j]);
       && t.Of(pid) == Working(p.polled, p.enforcement, p.left) && t.db == p.judged
       && ServiceOpen(p.left[0])
       && (Floor(p.left[0]) > 0 ==> events[j].lookup == Returns && BuyerMeets(p.judged, p.left[0]))
  }

  lemma {:induction false} PolledBefore(s: System, init: seq<Event>, e: Event, i: nat, pid: string, p: Phase, q: Phase)
    requires PolledAt(s, init, i, pid, p) && (q.Working? || q.Approved?) && Run(s, init + [e]).Of(pid) == q
    requires q.polled == p.polled && q.enforcement == p.enforcement
    requires q.left == p.left || (p.left != [] && q.left == p.left[1..])
    ensures PolledAt(s, init + [e], i, pid, q)
  {
    var events := init + [e];
    assert forall k | 0 <= k <= |init| :: events[..k] == init[..k];
    assert events[..|events|] == events;
  }

  /** How a process comes to work on a batch, and to hold an approved row. */
  lemma {:induction false} PhaseStep(s: System, e: Event, pid: string)
    ensures var p, q := s.Of(pid), Step(s, e).Of(pid);
            && (q.Working? || q.Approved? ==>
                  if p.Idle? then
                    e.Poll? && e.pid == pid && q == Working(s.db, e.enforcement, e.rows) &&
                    PollReturns(s.db, e.enforcement, e.rows)
                  else
                    (p.Working? || p.Approved?) && q.polled == p.polled && q.enforcement == p.enforcement &&
                    (q.left == p.left || (p.left != [] && q.left == p.left[1..])))
            && (q.Approved? && p != q ==>
                  && p == Working(q.polled, q.enforcement, q.left) && q.left != []
                  && e.Judge? && e.pid == pid && q.judged == s.db && ServiceOpen(q.left[0])
                  && (Floor(q.left[0]) > 0 ==> e.lookup == Returns && BuyerMeets(s.db, q.left[0])))
            && (p.Approved? && q.Approved? ==> p == q)
  {
  }

  /** Where a working process polled. */
  lemma {:induction false} OwnPoll(db: Db, events: seq<Event>, pid: string) returns (i: nat)
    requires var p := Run(Start(db), events).Of(pid); p.Working? || p.Approved?
    ensures PolledAt(Start(db), events, i, pid, Run(Start(db), events).Of(pid))
    decreases |events|
  {
    assert events != [];
    var n := |events| - 1;
    var init, e := events[..n], events[n];
    assert events == init + [e];
    hide Step, PollReturns, ServiceOpen, BuyerMeets;
    RunSnoc(Start(db), init, e);
    var s := Run(Start(db), init);
    var p, q := s.Of(pid), Step(s, e).Of(pid);
    PhaseStep(s, e, pid);
    if p.Idle? {
      i := n;
      assert events[..n + 1] == events;
    } else {
      i := OwnPoll(db, init, pid);
      PolledBefore(Start(db), init, e, i, pid, p, q);
    }
  }

  /** And where it judged the row that it is about to update: after that poll. */
  lemma {:induction false} OwnReads(db: Db, events: seq<Event>, pid: string) returns (i: nat, j: nat)
    requires Run(Start(db), events).Of(pid).Approved?
    ensures i < j && PolledAt(Start(db), events, i, pid, Run(Start(db), events).Of(pid))
    ensures JudgedAt(Start(db), events, j, pid, Run(Start(db), events).Of(pid))
    decreases |events|
  {
    assert events != [];
    var n := |events| - 1;
    var init, e := events[..n], events[n];
    assert events == init + [e];
    hide Step, PollReturns, ServiceOpen, BuyerMeets;
    RunSnoc(Start(db), init, e);
    var s := Run(Start(db), init);
    var p, q := s.Of(pid), Step(s, e).Of(pid);
    PhaseStep(s, e, pid);
    if p.Approved? {
      i, j := OwnReads(db, init, pid);
      assert (init + [e])[..j] == init[..j];
    } else {
      i := OwnPoll(db, init, pid);
      j := n;
    }
    PolledBefore(Start(db), init, e, i, pid, p, q);
  }

  lemma {:induction false} WinnerIsApproved(s: System, pid: string, call: Call, id: string)
    requires Wins(s, Transition(pid, call), id)
    ensures s.Of(pid).Approved? && s.Of(pid).left != [] && s.Of(pid).left[0].id == id
  {
  }

  /**
   A worker wins on its own reads. In any run, every contract it wins is the first of what is left of its own
   batch: at its own poll, which is the one its phase remembers, the contract was pending and unexpired, of an
   active service and a resolvable type, and paid if that worker enforces payment; and at its own look, later,
   the buyer met the floor.
   */
  lemma {:induction false} WorkerWinsAreJustified(db: Db, events: seq<Event>, pid: string, call: Call, id: string)
    returns (i: nat, j: nat)
    requires Wins(Run(Start(db), events), Transition(pid, call), id)
    ensures var p := Run(Start(db), events).Of(pid);
            && p.Approved? && p.left != [] && p.left[0].id == id
            && i < j && PolledAt(Start(db), events, i, pid, p) && JudgedAt(Start(db), events, j, pid, p)
            && Justified(p.left[0], p.polled, p.enforcement, p.judged)
            && (p.enforcement ==> p.polled.contracts[id].payment.Some?)
  {
    WinnerIsApproved(Run(Start(db), events), pid, call, id);
    i, j := OwnReads(db, events, pid);
    var p := Run(Start(db), events).Of(pid);
    assert p.left[0] == events[i].rows[|events[i].rows| - |p.left|];
    assert p.left[0] in events[i].rows;
  }

  // ----- what holds at the moment of the win -----

  predicate Unexpired(db: Db, id: string)
    requires id in db.contracts
  {
    db.now < db.contracts[id].expiresAt
  }

  predicate ServiceGate(db: Db, id: string)
    requires id in db.contracts
  {
    var c := db.contracts[id];
    c.service in db.services && ServiceOpen(Row(id, c, db.services[c.service]))
  }

  predicate BuyerGate(db: Db, id: string)
    requires id in db.contracts
  {
    var c := db.contracts[id];
    c.service in db.services &&
    var row := Row(id, c, db.services[c.service]);
    Floor(row) > 0 ==> BuyerMeets(db, row)
  }

  lemma {:induction false} ContractsStay(s: System, events: seq<Event>, id: string)
    requires id in s.db.contracts
    ensures id in Run(s, events).db.contracts
    decreases |events|
  {
    if events != [] {
      ContractsStay(Step(s, events[0]), events[1..], id);
    }
  }

  lemma {:induction false} PendingStep(s: System, e: Event, id: string)
    requires id in s.db.contracts && StatusIs(Step(s, e).db, id, PENDING) && !(e.OtherUpdate? && e.id == id)
    ensures SameRow(s, Step(s, e), id)
  {
  }

  /** While a contract is pending, only an update by another writer alters it. */
  lemma {:induction false} PendingStays(s: System, events: seq<Event>, id: string)
    requires id in s.db.contracts && StatusIs(Run(s, events).db, id, PENDING) && !Rewritten(events, 0, id)
    ensures SameRow(s, Run(s, events), id)
    decreases |events|
  {
    if events != [] {
      var n := |events| - 1;
      var init, e := events[..n], events[n];
      assert events == init + [e];
      RunSnoc(s, init, e);
      ContractsStay(s, init, id);
      PendingStep(Run(s, init), e, id);
      PendingStays(s, init, id);
    }
  }

  lemma {:induction false} UnrewrittenSincePoll(s: System, events: seq<Event>, i: nat, id: string)
    requires i < |events| && id in Run(s, events[..i]).db.contracts
    requires StatusIs(Run(s, events).db, id, PENDING) && !Rewritten(events, i, id)
    ensures SameRow(Run(s, events[..i]), Run(s, events), id)
  {
    assert events == events[..i] + events[i..];
    RunConcat(s, events[..i], events[i..]);
    assert forall k | 0 <= k < |events[i..]| :: events[i..][k] == events[i + k];
    PendingStays(Run(s, events[..i]), events[i..], id);
  }

  /**
   At the moment of the win, for every worker win in every run, with the winner's own poll at i and look at j:
   the contract is pending, and unless another writer rewrote it since the poll, it is as polled, so still paid
   if the worker enforces payment. The win escrows it with these terms and that payment.
   */
  lemma {:induction false} GatesAtWin(db: Db, events: seq<Event>, pid: string, call: Call, id: string)
    returns (i: nat, j: nat)
    requires Wins(Run(Start(db), events), Transition(pid, call), id)
    ensures var s := Run(Start(db), events);
            && s.Of(pid).Approved? && s.Of(pid).left != [] && s.Of(pid).left[0].id == id
            && i < j && PolledAt(Start(db), events, i, pid, s.Of(pid)) && JudgedAt(Start(db), events, j, pid, s.Of(pid))
            && StatusIs(s.db, id, PENDING) && EscrowedNow(s.db, Step(s, Transition(pid, call)).db, id)
            && (!Rewritten(events, i, id) ==>
                  && s.db.contracts[id] == s.Of(pid).left[0].contract
                  && Step(s, Transition(pid, call)).db.contracts[id].payment == s.Of(pid).left[0].contract.payment
                  && (s.Of(pid).enforcement ==>
                        Step(s, Transition(pid, call)).db.contracts[id].payment.Some?))
  {
    i, j := WorkerWinsAreJustified(db, events, pid, call, id);
    TransitionWins(Run(Start(db), events), pid, call, id);
    if !Rewritten(events, i, id) {
      UnrewrittenSincePoll(Start(db), events, i, id);
    }
  }

  function ServiceIn(db: Db, service: string): Option<Service> {
    if service in db.services then Some(db.services[service]) else None
  }

  function Score(db: Db, buyer: string): Option<int> {
    if buyer in db.scores then Some(db.scores[buyer]) else None
  }

  /**
   So a gate that held when it was read fails at the win only if something moved against it, and fails then
   exactly if that reached it: with the contract not rewritten, the clock passed the polled expiry; the service
   row changed and is no longer open; or the service row or the buyer's score changed and the score is below
   the floor. With none of these, every gate holds at the win.
   */
  lemma {:induction false} GatesFailIffMoved(db: Db, events: seq<Event>, pid: string, call: Call, id: string)
    returns (i: nat, j: nat)
    requires Wins(Run(Start(db), events), Transition(pid, call), id)
    ensures var s := Run(Start(db), events);
            && s.Of(pid).Approved? && s.Of(pid).left != [] && s.Of(pid).left[0].id == id
            && i < j && PolledAt(Start(db), events, i, pid, s.Of(pid)) && JudgedAt(Start(db), events, j, pid, s.Of(pid))
    ensures !Rewritten(events, i, id) ==>
            var s := Run(Start(db), events);
            var p := s.Of(pid);
            var c, svc := p.left[0].contract, ServiceIn(s.db, p.left[0].contract.service);
            && (!Unexpired(s.db, id) <==> p.polled.now < c.expiresAt <= s.db.now)
            && (!ServiceGate(s.db, id) <==>
                  svc != Some(p.left[0].service) && (svc.None? || !ServiceOpen(Row(id, c, svc.value))))
            && (!BuyerGate(s.db, id) <==>
                  (svc != Some(p.left[0].service) || Score(s.db, c.buyer) != Score(p.judged, c.buyer)) &&
                  (svc.None? || (Floor(Row(id, c, svc.value)) > 0 && !BuyerMeets(s.db, Row(id, c, svc.value)))))
            && (s.db.now < c.expiresAt && svc == Some(p.left[0].service) &&
                Score(s.db, c.buyer) == Score(p.judged, c.buyer) ==>
                  Unexpired(s.db, id) && ServiceGate(s.db, id) && BuyerGate(s.db, id))
  {
    i, j := GatesAtWin(db, events, pid, call, id);
    var p := Run(Start(db), events).Of(pid);
    if !Rewritten(events, i, id) {
      assert p.left[0] == events[i].rows[|events[i].rows| - |p.left|];
      assert Pollable(p.polled, p.enforcement, p.left[0]);
    }
  }

  // ----- the worker as it runs -----

  function Pid(e: Event): Option<string> {
    match e
    case Poll(pid, _, _) => Some(pid)
    case Judge(pid, _) => Some(pid)
    case Transition(pid, _) => Some(pid)
    case ManualFetch(pid, _) => Some(pid)
    case ManualEscrow(pid, _, _) => Some(pid)
    case _ => None
  }

  predicate NotOf(pid: string, events: seq<Event>) {
    forall e | e in events :: Pid(e) != Some(pid)
  }

  lemma {:induction false} OthersKeepPhase(s: System, events: seq<Event>, pid: string)
    requires NotOf(pid, events)
    ensures Run(s, events).Of(pid) == s.Of(pid)
    decreases |events|
  {
    if events != [] {
      assert events[0] in events;
      assert Step(s, events[0]).Of(pid) == s.Of(pid);
      OthersKeepPhase(Step(s, events[0]), events[1..], pid);
    }
  }

  /** The contract that the event is reported to have won for the process: the call must return. */
  function Report(s: System, e: Event, pid: string): seq<string> {
    var p := s.Of(pid);
    if e == Transition(pid, Returns) && p.Approved? && p.left != [] && Wins(s, e, p.left[0].id) then [p.left[0].id]
    else []
  }

  /** The contracts that a process won by updates whose calls returned, in order. */
  function Reported(s: System, events: seq<Event>, pid: string): seq<string>
    decreases |events|
  {
    if events == [] then []
    else Report(s, events[0], pid) + Reported(Step(s, events[0]), events[1..], pid)
  }

  lemma {:induction false} ReportedConcat(s: System, a: seq<Event>, b: seq<Event>, pid: string)
    ensures Reported(s, a + b, pid) == Reported(s, a, pid) + Reported(Run(s, a), b, pid)
    decreases |a|
  {
    hide Step, Report;
    if a == [] {
      assert a + b == b;
    } else {
      assert (a + b)[1..] == a[1..] + b;
      ReportedConcat(Step(s, a[0]), a[1..], b, pid);
      assert Run(s, a) == Run(Step(s, a[0]), a[1..]);
    }
  }

  lemma {:induction false} ReportedSnoc(s: System, events: seq<Event>, e: Event, pid: string)
    ensures Reported(s, events + [e], pid) == Reported(s, events, pid) + Report(Run(s, events), e, pid)
  {
    ReportedConcat(s, events, [e], pid);
    var here := Run(s, events);
    assert Reported(here, [e], pid) == Report(here, e, pid) + Reported(Step(here, e), [e][1..], pid);
  }

  lemma {:induction false} OthersReportNothing(s: System, events: seq<Event>, pid: string)
    requires NotOf(pid, events)
    ensures Reported(s, events, pid) == []
    decreases |events|
  {
    if events != [] {
      assert events[0] in events;
      OthersReportNothing(Step(s, events[0]), events[1..], pid);
    }
  }

  function Times(id: string, won: seq<string>): nat {
    multiset(won)[id]
  }

  lemma {:induction false} TimesFirst(s: System, events: seq<Event>, pid: string, id: string)
    requires events != []
    ensures Times(id, Reported(s, events, pid)) ==
            Times(id, Report(s, events[0], pid)) + Times(id, Reported(Step(s, events[0]), events[1..], pid))
  {
  }

  /** The contract was won by an update of this process that returned. */
  predicate WonAndTold(s: System, events: seq<Event>, pid: string, id: string, x: nat) {
    x < |events| && events[x] == Transition(pid, Returns) && Wins(Run(s, events[..x]), events[x], id)
  }

  lemma {:induction false} LastTold(s: System, init: seq<Event>, e: Event, pid: string, id: string)
    ensures id in Report(Run(s, init), e, pid) <==> WonAndTold(s, init + [e], pid, id, |init|)
  {
    assert (init + [e])[..|init|] == init;
    if e == Transition(pid, Returns) && Wins(Run(s, init), e, id) {
      WinnerIsApproved(Run(s, init), pid, Returns, id);
    }
  }

  /** What a process reports over a run is exactly what its updates that returned have won. */
  lemma {:induction false} ReportedIff(s: System, events: seq<Event>, pid: string, id: string)
    ensures id in Reported(s, events, pid) <==> exists x: nat :: WonAndTold(s, events, pid, id, x)
    decreases |events|
  {
    if events != [] {
      var n := |events| - 1;
      var init, e := events[..n], events[n];
      assert events == init + [e];
      ReportedSnoc(s, init, e, pid);
      ReportedIff(s, init, pid, id);
      forall x: nat | x < n ensures WonAndTold(s, events, pid, id, x) <==> WonAndTold(s, init, pid, id, x) {
        assert events[..x] == init[..x];
      }
      LastTold(s, init, e, pid, id);
      hide Wins, Step, Run, Reported, Report;
      if exists x: nat :: WonAndTold(s, events, pid, id, x) {
        var x: nat :| WonAndTold(s, events, pid, id, x);
      }
    }
  }

  lemma {:induction false} ReportIsWin(s: System, e: Event, a: string, b: string, id: string)
    requires a != b
    ensures Times(id, Report(s, e, a)) + Times(id, Report(s, e, b)) <= if Wins(s, e, id) then 1 else 0
  {
  }

  lemma {:induction false} ReportsWithinWins(s: System, events: seq<Event>, a: string, b: string, id: string)
    requires a != b
    ensures Times(id, Reported(s, events, a)) + Times(id, Reported(s, events, b)) <= WinCount(s, events, id)
    decreases |events|
  {
    if events != [] {
      var after := Step(s, events[0]);
      ReportsWithinWins(after, events[1..], a, b, id);
      TimesFirst(s, events, a, id);
      TimesFirst(s, events, b, id);
      ReportIsWin(s, events[0], a, b, id);
    }
  }

  /** In any run, no worker reports a contract twice and no two workers report the same contract. */
  lemma {:induction false} ReportsAreExclusive(s: System, events: seq<Event>, a: string, b: string, id: string)
    requires a != b
    ensures Times(id, Reported(s, events, a)) + Times(id, Reported(s, events, b)) <= 1
  {
    ReportsWithinWins(s, events, a, b, id);
    AtMostOneWin(s, events, id);
  }

  /** The database, and beside it the state machine that says what each process is doing. */
  class Server {
    var db: Db
    var system: System
    ghost var events: seq<Event>
    ghost var start: System

    ghost predicate Valid()
      reads this
    {
      system == Run(start, events) && db == system.db
    }

    constructor (db: Db)
      ensures Valid() && this.db == db && system == start == Start(db) && events == []
    {
      this.db := db;
      system, start, events := Start(db), Start(db), [];
    }

    /** One event of the state machine, beside what the code then does to the database. */
    method Record(e: Event)
      requires system == Run(start, events)
      modifies this`system, this`events
      ensures system == Step(old(system), e) == Run(start, events) && events == old(events) + [e]
      ensures forall pid ::
                Reported(start, events, pid) == Reported(start, old(events), pid) + Report(old(system), e, pid)
    {
      RunConcat(start, events, [e]);
      forall pid { ReportedSnoc(start, events, e, pid); }
      assert Run(system, [e]) == Run(Step(system, e), [e][1..]);
      events := events + [e];
      system := Step(system, e);
    }

    /** Any steps of anyone else. */
    method Others(pid: string)
      requires Valid()
      modifies this
      ensures Valid() && start == old(start)
      ensures system.Of(pid) == old(system).Of(pid)
      ensures Reported(start, events, pid) == Reported(start, old(events), pid)
    {
      var others: seq<Event> := *;
      if NotOf(pid, others) {
        OthersKeepPhase(system, others, pid);
        OthersReportNothing(system, others, pid);
        RunConcat(start, events, others);
        ReportedConcat(start, events, others, pid);
        system := Run(system, others);
        db := system.db;
        events := events + others;
      }
    }

    /** The conditional update: None when the call failed, otherwise whether it hit. */
    method UpdateIfPending(id: string, call: Call) returns (updated: Option<bool>)
      modifies this`db
      ensures db == if call == FailsBefore then old(db) else CompareAndSet(old(db), id)
      ensures updated == if call != Returns then None else Some(StatusIs(old(db), id, PENDING))
    {
      if call == FailsBefore {
        return None;
      }
      var hit := id in db.contracts && db.contracts[id].status == PENDING;
      if hit {
        var escrowed := db.contracts[id].(status := ESCROWED, escrowedAt := Some(db.now));
        db := db.(contracts := db.contracts[id := escrowed]);
      }
      updated := if call == Returns then Some(hit) else None;
    }

    /** The checks of one polled row, in the worker's order, each on what it reads then. */
    method Clears(pid: string, row: Row) returns (cleared: bool)
      requires Valid() && system.Of(pid).Working? && system.Of(pid).left != [] && system.Of(pid).left[0] == row
      modifies this
      ensures Valid() && start == old(start)
      ensures var p := old(system).Of(pid);
              if cleared then
                system.Of(pid).Approved? &&
                system.Of(pid) == Approved(p.polled, p.enforcement, p.left, system.Of(pid).judged)
              else system.Of(pid) == Working(p.polled, p.enforcement, p.left[1..])
      ensures Reported(start, events, pid) == Reported(start, old(events), pid)
    {
      var kind := if row.service.kind != "" then Some(row.service.kind) else row.contract.payloadType;
      var floor := if row.service.minRepid.Some? then row.service.minRepid.value else 0;
      var lookup := Returns;
      cleared := Given(kind) && row.service.active;
      if cleared && floor > 0 {
        Others(pid);
        lookup := *;
        var buyer := if row.contract.buyer in db.scores then Some(db.scores[row.contract.buyer]) else None;
        cleared := lookup == Returns && buyer.Some? && buyer.value >= floor;
      }
      ghost var before := Reported(start, events, pid);
      assert before + [] == before;
      Record(Judge(pid, lookup));
    }

    /** The update of a cleared row; true when the worker takes it as won. */
    method Transitions(pid: string, row: Row) returns (mine: bool)
      requires Valid() && system.Of(pid).Approved? && system.Of(pid).left != [] && system.Of(pid).left[0] == row
      modifies this
      ensures Valid() && start == old(start)
      ensures var p := old(system).Of(pid); system.Of(pid) == Working(p.polled, p.enforcement, p.left[1..])
      ensures Reported(start, events, pid) == Reported(start, old(events), pid) + if mine then [row.id] else []
    {
      Others(pid);
      var call: Call := *;
      ghost var here := Report(system, Transition(pid, call), pid);
      var updated := UpdateIfPending(row.id, call);
      Record(Transition(pid, call));
      mine := updated == Some(true);
      assert here == if mine then [row.id] else [];
    }

    /** The poll: None when it failed. */
    method Polls(pid: string, enforcement: bool) returns (rows: Option<seq<Row>>)
      requires Valid() && system.Of(pid).Idle?
      modifies this
      ensures Valid() && start == old(start)
      ensures if rows.Some? then system.Of(pid).Working? && system.Of(pid).left == rows.value else system.Of(pid).Idle?
      ensures Reported(start, events, pid) == Reported(start, old(events), pid)
    {
      Others(pid);
      var found: seq<Row> := *;
      if !PollReturns(db, enforcement, found) {
        return None;
      }
      ghost var before := Reported(start, events, pid);
      assert before + [] == before;
      Record(Poll(pid, enforcement, found));
      rows := Some(found);
    }

    method Finishes(pid: string)
      requires Valid() && system.Of(pid).Working? && system.Of(pid).left == []
      modifies this
      ensures Valid() && start == old(start) && system.Of(pid).Idle?
      ensures Reported(start, events, pid) == Reported(start, old(events), pid)
    {
      ghost var before := Reported(start, events, pid);
      assert before + [] == before;
      Record(Judge(pid, Returns));
    }

    /**
     One tick of the worker: a run of the state machine in which this process does its own steps and anyone
     else theirs, and whose report is the contracts that it then won.
     */
    method ProcessCascadeQueue(pid: string, enforcement: bool) returns (won: seq<string>)
      requires Valid() && system.Of(pid).Idle?
      modifies this
      ensures Valid() && start == old(start) && system.Of(pid).Idle?
      ensures Reported(start, events, pid) == Reported(start, old(events), pid) + won
    {
      hide Step, Run, Report, Reported;
      won := [];
      var rows := Polls(pid, enforcement);
      if rows.None? {
        return;
      }
      ghost var before := Reported(start, events, pid);
      for i := 0 to |rows.value|
        invariant Valid() && start == old(start)
        invariant system.Of(pid).Working? && system.Of(pid).left == rows.value[i..]
        invariant Reported(start, events, pid) == before + won
      {
        var row := rows.value[i];
        assert rows.value[i..][1..] == rows.value[i + 1..];
        var mine := Clears(pid, row);
        if mine {
          mine := Transitions(pid, row);
        }
        assert Reported(start, events, pid) == (before + won) + if mine then [row.id] else [];
        if mine {
          won := won + [row.id];
        }
      }
      Finishes(pid);
    }
  }

  // ----- what the reads do not promise, and what manual calls may do -----

  function SomeService(): Service {
    Service("research", true, Some(5))
  }

  function SomeContract(): Contract {
    Contract(PENDING, "s", "b", None, 0, 10, None, None, None)
  }

  function SomeDb(): Db {
    Db(map["c" := SomeContract()], map["s" := SomeService()], map["b" := 5], 1)
  }

  lemma {:induction false} SomePoll()
    ensures PollReturns(SomeDb(), false, [Row("c", SomeContract(), SomeService())])
  {
    var rows := [Row("c", SomeContract(), SomeService())];
    assert rows[0] in rows && Listed("c", rows);
  }

  /** The system after a worker polled and cleared that contract. */
  lemma {:induction false} ApprovedSystem() returns (events: seq<Event>, s: System)
    ensures |events| == 2 && s == Run(Start(SomeDb()), events) && s.db == SomeDb()
    ensures s.Of("w") == Approved(SomeDb(), false, [Row("c", SomeContract(), SomeService())], SomeDb())
    ensures s.Of("m") == Idle
  {
    SomePoll();
    var row := Row("c", SomeContract(), SomeService());
    events := [Poll("w", false, [row]), Judge("w", Returns)];
    var s0 := Start(SomeDb());
    var s1 := Step(s0, events[0]);
    s := Step(s1, events[1]);
    assert Run(s1, events[1..]) == Run(s, events[1..][1..]);
  }

  /** The contract is won although by then it has expired, its service is off and its buyer is below the floor. */
  ghost predicate WonTooLate(db: Db, events: seq<Event>) {
    var s := Run(Start(db), events);
    exists pid, id ::
      && Wins(s, Transition(pid, Returns), id)
      && var row := s.db.contracts[id];
         && row.service in s.db.services && row.buyer in s.db.scores
         && row.expiresAt <= s.db.now
         && s.db.services[row.service].active == false
         && s.db.scores[row.buyer] < 5
  }

  /** A win rests on what the worker read, not on what holds when it wins. */
  lemma {:induction false} WinsMayComeTooLate()
    ensures exists events: seq<Event> :: WonTooLate(SomeDb(), events)
  {
    hide PollReturns, Run;
    var events, s := ApprovedSystem();
    var off := SomeService().(active := false);
    var change := OtherTables(map["s" := off], map["b" := 0], 20);
    RunSnoc(Start(SomeDb()), events, change);
    var later := Step(s, change);
    assert Wins(later, Transition("w", Returns), "c");
    assert WonTooLate(SomeDb(), events + [change]);
  }

  /** The manual call, passed through this gate, changes a contract that a worker had escrowed before it. */
  ghost predicate ManualOverwritesWorker(db: Db, events: seq<Event>, gate: Gate) {
    var s := Run(Start(db), events);
    exists worker, manual, id ::
      && s.Of(manual).Fetched? && s.Of(manual).id == id
      && Wins(s, Transition(worker, Returns), id)
      && var won := Step(s, Transition(worker, Returns));
         && StatusIs(won.db, id, ESCROWED)
         && var after := Step(won, ManualEscrow(manual, gate, Returns));
            id in after.db.contracts && after.db.contracts[id] != won.db.contracts[id]
  }

  /** So a manual call that reads a pending contract and loses the race to a worker does not lose cleanly. */
  lemma {:induction false} ManualCallOverwrites(payment: string)
    ensures exists events: seq<Event> :: ManualOverwritesWorker(SomeDb(), events, PaidNow(payment))
  {
    hide PollReturns, Run;
    var events, s := ApprovedSystem();
    var fetch := ManualFetch("m", "c");
    RunSnoc(Start(SomeDb()), events, fetch);
    var both := Step(s, fetch);
    var won := Step(both, Transition("w", Returns));
    assert both.Of("m").Fetched? && both.Of("w") == s.Of("w");
    assert Wins(both, Transition("w", Returns), "c");
    assert won.db.contracts["c"].payment == None;
    assert won.Of("m") == both.Of("m");
    NonPendingStepIff(won, ManualEscrow("m", PaidNow(payment), Returns), "c");
    assert ManualOverwritesWorker(SomeDb(), events + [fetch], PaidNow(payment));
  }
}
