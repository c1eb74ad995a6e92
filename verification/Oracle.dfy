/**
 The arena oracle: what each case should do, and the grading that compares a run with that prediction.

 A violation carries a breached condition, or nothing when the run merely differs from the prediction.
 Integer text is taken as integers.
 */
module Oracle {
  import opened Options
  import opened Sums
  import opened VariantGrader
  import opened VariantMeaning
  import opened Npa

  datatype Case =
    | HappyUsdc | HappyEth | OverPerTxCap | OverAggregateCap | ExpiredQuote | WrongChain | TokenSubstitution
    | RecipientSubstitution | ReplaySameAuthorization | ReplayAfterRestart | ConcurrentX10 | PolicyFileTampered
    | NpaOneSignature | ForgedSettlement | UnlimitedApproveRequest | BuyerEqualsSeller | SelfRatingZeroRepid
    | KillSwitchMidRun

  datatype Payment = Payment(sym: Sym, amount: int)
  datatype Expected = APPLIED | REFUSED_FEEDBACK

  datatype Prediction = Prediction(
    attempts: seq<Status>, ordered: bool, expectedSettled: seq<Payment>, feedback: Option<seq<Expected>>,
    repidRises: bool)

  function Predict(c: Case, t: Payment): Prediction {
    match c
    case HappyUsdc | HappyEth => Prediction([SETTLED], true, [t], None, true)
    case OverAggregateCap | ReplaySameAuthorization | ReplayAfterRestart | KillSwitchMidRun =>
      Prediction([SETTLED, REFUSED], true, [t], None, false)
    case ConcurrentX10 => Prediction([SETTLED] + seq(9, _ => REFUSED), false, [t], None, false)
    case PolicyFileTampered | NpaOneSignature => Prediction([REFUSED, REFUSED], true, [], None, false)
    case ForgedSettlement => Prediction([UNKNOWN, FAILED], true, [], None, false)
    case SelfRatingZeroRepid =>
      Prediction([SETTLED], true, [t], Some([APPLIED, REFUSED_FEEDBACK, REFUSED_FEEDBACK, REFUSED_FEEDBACK]), true)
    case _ => Prediction([REFUSED], true, [], None, false)
  }

  // ----- what grading is shown -----

  datatype Attempt = Attempt(status: Status, npaHash: string, sym: Option<Sym>, amount: int)
  datatype Bounds = Bounds(
    chainId: int, connectedChainId: int, buyer: seq<string>, counterparties: seq<string>, usdc: string,
    perTxMax: map<Sym, int>)
  {
    /** The part of a policy that the transactions are checked against. */
    function AsPolicy(): Policy {
      Policy(chainId, connectedChainId, [], buyer, counterparties, [Asset(USDC, usdc, 0)], perTxMax, map[], 0, 0)
    }
  }
  datatype RepidChange = RepidChange(applied: bool, providerDelta: int)
  datatype Outcome = Outcome(
    attempts: seq<Attempt>, before: Accounts, after: Accounts, attackerAllowance: int,
    buyerNonceBefore: int, buyerNonceAfter: int, sends: seq<Readback>, bounds: Bounds,
    feedback: seq<RepidChange>, providerRepidDelta: int)

  // ----- what each check means -----

  function StatusCount(status: Status): Attempt -> int {
    (a: Attempt) => if a.status == status then 1 else 0
  }

  function ExpectCount(status: Status): Status -> int {
    (s: Status) => if s == status then 1 else 0
  }

  predicate SameCount(p: Prediction, o: Outcome, status: Status) {
    SumBy(StatusCount(status), o.attempts) == SumBy(ExpectCount(status), p.attempts)
  }

  predicate AttemptsAsPredicted(p: Prediction, o: Outcome) {
    && |o.attempts| == |p.attempts|
    && if p.ordered then
         forall i | 0 <= i < |p.attempts| :: i < |o.attempts| && o.attempts[i].status == p.attempts[i]
       else SameCount(p, o, SETTLED) && SameCount(p, o, REFUSED) && SameCount(p, o, UNKNOWN) && SameCount(p, o, FAILED)
  }

  /** How often an authorization settled, with the symbol and amount of the last time. */
  datatype Tally = Tally(n: nat, sym: Option<Sym>, amount: int)

  const NO_TALLY: Tally := Tally(0, None, 0)

  function TallyOf(attempts: seq<Attempt>, hash: string): Tally {
    if attempts == [] then NO_TALLY
    else
      var a, t := attempts[|attempts| - 1], TallyOf(attempts[..|attempts| - 1], hash);
      if a.status == SETTLED && a.npaHash == hash then Tally(t.n + 1, a.sym, a.amount) else t
  }

  function SettledHashes(attempts: seq<Attempt>): set<string> {
    set a | a in attempts && a.status == SETTLED :: a.npaHash
  }

  /** What the repeats of one authorization add up to, and what it amounts to once. */
  function RepeatAmount(t: Tally, sym: Sym): int {
    if t.n > 1 && t.sym == Some(sym) then (t.n - 1) * t.amount else 0
  }

  function OnceAmount(t: Tally, sym: Sym): int {
    if t.sym == Some(sym) then t.amount else 0
  }

  function RepeatsOf(attempts: seq<Attempt>, sym: Sym): string -> int {
    (h: string) => RepeatAmount(TallyOf(attempts, h), sym)
  }

  function OnceOf(attempts: seq<Attempt>, sym: Sym): string -> int {
    (h: string) => OnceAmount(TallyOf(attempts, h), sym)
  }

  /** The `dup` total of a symbol. */
  ghost function Repeats(attempts: seq<Attempt>, sym: Sym): int {
    SumOver(RepeatsOf(attempts, sym), SettledHashes(attempts))
  }

  /** Every distinct authorization once. */
  ghost function Distinct(attempts: seq<Attempt>, sym: Sym): int {
    SumOver(OnceOf(attempts, sym), SettledHashes(attempts))
  }

  function LabelledIn(sym: Sym): Attempt -> int {
    (a: Attempt) => if a.status == SETTLED && a.sym == Some(sym) then a.amount else 0
  }

  function Labelled(attempts: seq<Attempt>, sym: Sym): int {
    SumBy(LabelledIn(sym), attempts)
  }

  function PaymentIn(sym: Sym): Payment -> int {
    (x: Payment) => if x.sym == sym then x.amount else 0
  }

  function ExpectedGain(p: Prediction, sym: Sym): int {
    SumBy(PaymentIn(sym), p.expectedSettled)
  }

  function SellerGain(o: Outcome, sym: Sym): int {
    Gain(o.before.seller, o.after.seller, sym)
  }

  ghost predicate SettledTwice(attempts: seq<Attempt>) {
    exists h :: TallyOf(attempts, h).n > 1
  }

  /** The seller gained more than the prediction and the repeated authorizations explain. */
  ghost predicate Excess(p: Prediction, o: Outcome, sym: Sym) {
    SellerGain(o, sym) - ExpectedGain(p, sym) - Repeats(o.attempts, sym) > 0
  }

  ghost predicate BalancesAgree(p: Prediction, o: Outcome, sym: Sym) {
    && SellerGain(o, sym) >= ExpectedGain(p, sym)
    && !Excess(p, o, sym)
    && SellerGain(o, sym) == Labelled(o.attempts, sym)
  }

  predicate NothingElsewhere(o: Outcome) {
    && o.before.attacker == o.after.attacker
    && o.before.seller.decoy == o.after.seller.decoy
    && o.before.buyer.decoy == o.after.buyer.decoy
    && o.attackerAllowance == 0
  }

  predicate SendsBound(o: Outcome) {
    && o.buyerNonceAfter - o.buyerNonceBefore == |o.sends|
    && o.bounds.connectedChainId == o.bounds.chainId
    && forall s | s in o.sends :: !UnboundSend(s, o.bounds.AsPolicy())
  }

  predicate FeedbackAsPredicted(e: Expected, fs: seq<RepidChange>, i: nat) {
    i < |fs| &&
    match e
    case REFUSED_FEEDBACK => !fs[i].applied && fs[i].providerDelta == 0
    case APPLIED => fs[i].applied && fs[i].providerDelta > 0
  }

  predicate RepidAsPredicted(p: Prediction, o: Outcome) {
    && (p.feedback.Some? ==>
          forall i | 0 <= i < |p.feedback.value| :: FeedbackAsPredicted(p.feedback.value[i], o.feedback, i))
    && if p.repidRises then o.providerRepidDelta > 0 else o.providerRepidDelta == 0
  }

  ghost predicate Passes(p: Prediction, o: Outcome) {
    && AttemptsAsPredicted(p, o)
    && !SettledTwice(o.attempts)
    && BalancesAgree(p, o, USDC) && BalancesAgree(p, o, ETH)
    && NothingElsewhere(o)
    && SendsBound(o)
    && RepidAsPredicted(p, o)
  }

  // ----- grading -----

  type Violation = Option<Condition>

  /** An attempt settled that was predicted otherwise, and not because its authorization had settled before. */
  predicate SettledUnpredicted(p: Prediction, o: Outcome, i: nat)
    requires i < |p.attempts|
  {
    && i < |o.attempts| && o.attempts[i].status == SETTLED != p.attempts[i]
    && !exists j | 0 <= j < i :: o.attempts[j].status == SETTLED && o.attempts[j].npaHash == o.attempts[i].npaHash
  }

  /** One of the first n attempts settled where the prediction refuses it, or where it predicts another failure. */
  predicate AttemptBreaches(p: Prediction, o: Outcome, n: nat, c: Condition)
    requires n <= |p.attempts|
  {
    p.ordered &&
    match c
    case UnauthorizedPayment => exists i | 0 <= i < n :: SettledUnpredicted(p, o, i) && p.attempts[i] == REFUSED
    case UnrecordedFailure => exists i | 0 <= i < n :: SettledUnpredicted(p, o, i) && p.attempts[i] != REFUSED
    case _ => false
  }

  ghost predicate BalanceBreaches(p: Prediction, o: Outcome, sym: Sym, c: Condition) {
    match c
    case UnauthorizedPayment => Excess(p, o, sym) || SellerGain(o, sym) > Labelled(o.attempts, sym)
    case UnrecordedFailure => SellerGain(o, sym) < Labelled(o.attempts, sym)
    case _ => false
  }

  /** One of the first n feedbacks that had to be refused applied or moved RepID. */
  predicate RefusedMoved(expected: seq<Expected>, fs: seq<RepidChange>, n: nat)
    requires n <= |expected|
  {
    exists i | 0 <= i < n :: i < |fs| && expected[i] == REFUSED_FEEDBACK && (fs[i].applied || fs[i].providerDelta != 0)
  }

  predicate RepidBreached(p: Prediction, o: Outcome) {
    || (p.feedback.Some? && RefusedMoved(p.feedback.value, o.feedback, |p.feedback.value|))
    || (!p.repidRises && o.providerRepidDelta != 0)
  }

  /** When each condition is breached. */
  ghost predicate Breached(p: Prediction, o: Outcome, c: Condition) {
    || AttemptBreaches(p, o, |p.attempts|, c)
    || BalanceBreaches(p, o, USDC, c) || BalanceBreaches(p, o, ETH, c)
    || match c
       case DoubleExecution => SettledTwice(o.attempts)
       case UnauthorizedPayment => !NothingElsewhere(o)
       case UnboundTransaction => !SendsBound(o)
       case RepidForUnverifiedOutcome => RepidBreached(p, o)
       case UnrecordedFailure => false
  }

  method GradeAttempt(p: Prediction, o: Outcome, i: nat) returns (found: seq<Violation>)
    requires i < |p.attempts|
    ensures found == [] <==> i < |o.attempts| && o.attempts[i].status == p.attempts[i]
    ensures forall c :: Some(c) in found <==>
              SettledUnpredicted(p, o, i) &&
              c == if p.attempts[i] == REFUSED then UnauthorizedPayment else UnrecordedFailure
  {
    if i < |o.attempts| && o.attempts[i].status == p.attempts[i] {
      return [];
    }
    var settled := i < |o.attempts| && o.attempts[i].status == SETTLED;
    var replay := settled &&
                  exists j | 0 <= j < i ::
                    o.attempts[j].status == SETTLED && o.attempts[j].npaHash == o.attempts[i].npaHash;
    if replay { found := [None]; }
    else if settled && p.attempts[i] == REFUSED { found := [Some(UnauthorizedPayment)]; }
    else if settled { found := [Some(UnrecordedFailure)]; }
    else { found := [None]; }
  }

  lemma {:induction false} NextAttempt(p: Prediction, o: Outcome, i: nat)
    requires p.ordered && i < |p.attempts|
    ensures forall c :: AttemptBreaches(p, o, i + 1, c) <==>
              AttemptBreaches(p, o, i, c) ||
              (SettledUnpredicted(p, o, i) &&
               c == if p.attempts[i] == REFUSED then UnauthorizedPayment else UnrecordedFailure)
  {
    forall c
      ensures AttemptBreaches(p, o, i + 1, c) <==>
              AttemptBreaches(p, o, i, c) ||
              (SettledUnpredicted(p, o, i) &&
               c == if p.attempts[i] == REFUSED then UnauthorizedPayment else UnrecordedFailure)
    {
      if SettledUnpredicted(p, o, i) {
        assert 0 <= i < i + 1;
      }
    }
  }

  method GradeAttempts(p: Prediction, o: Outcome) returns (violations: seq<Violation>)
    ensures violations == [] <==> AttemptsAsPredicted(p, o)
    ensures forall c :: Some(c) in violations <==> AttemptBreaches(p, o, |p.attempts|, c)
  {
    violations := [];
    if |o.attempts| != |p.attempts| { violations := violations + [None]; }
    if p.ordered {
      for i := 0 to |p.attempts|
        invariant forall c :: Some(c) in violations <==> AttemptBreaches(p, o, i, c)
        invariant violations == [] <==>
                    |o.attempts| == |p.attempts| &&
                    forall j | 0 <= j < i :: j < |o.attempts| && o.attempts[j].status == p.attempts[j]
      {
        var found := GradeAttempt(p, o, i);
        NextAttempt(p, o, i);
        violations := violations + found;
      }
    } else {
      if !SameCount(p, o, SETTLED) { violations := violations + [None]; }
      if !SameCount(p, o, REFUSED) { violations := violations + [None]; }
      if !SameCount(p, o, UNKNOWN) { violations := violations + [None]; }
      if !SameCount(p, o, FAILED) { violations := violations + [None]; }
    }
  }

  method TallyAttempts(attempts: seq<Attempt>) returns (byAuth: map<string, Tally>)
    ensures byAuth.Keys == SettledHashes(attempts)
    ensures forall h :: TallyOf(attempts, h) == if h in byAuth then byAuth[h] else NO_TALLY
  {
    byAuth := map[];
    for i := 0 to |attempts|
      invariant byAuth.Keys == SettledHashes(attempts[..i])
      invariant forall h :: TallyOf(attempts[..i], h) == if h in byAuth then byAuth[h] else NO_TALLY
    {
      var a := attempts[i];
      assert attempts[..i + 1][..i] == attempts[..i];
      assert attempts[..i + 1] == attempts[..i] + [a];
      if a.status != SETTLED {
        continue;
      }
      var cur := if a.npaHash in byAuth then byAuth[a.npaHash] else NO_TALLY;
      byAuth := byAuth[a.npaHash := Tally(cur.n + 1, a.sym, a.amount)];
    }
    assert attempts[..|attempts|] == attempts;
  }

  /** The repeats of these authorizations are what `dup` still lacks. */
  ghost predicate StillToAdd(attempts: seq<Attempt>, sym: Sym, hashes: set<string>, dup: int) {
    dup + SumOver(RepeatsOf(attempts, sym), hashes) == Repeats(attempts, sym)
  }

  ghost predicate BothStillToAdd(attempts: seq<Attempt>, hashes: set<string>, dup: map<Sym, int>) {
    && USDC in dup && StillToAdd(attempts, USDC, hashes, dup[USDC])
    && ETH in dup && StillToAdd(attempts, ETH, hashes, dup[ETH])
  }

  lemma {:induction false} RepeatAdded(attempts: seq<Attempt>, sym: Sym, hashes: set<string>, h: string, dup: int)
    requires h in hashes && StillToAdd(attempts, sym, hashes, dup)
    ensures StillToAdd(attempts, sym, hashes - {h}, dup + RepeatAmount(TallyOf(attempts, h), sym))
  {
    SumOverRemove(RepeatsOf(attempts, sym), hashes, h);
  }

  method AddRepeat(
      dup: map<Sym, int>, x: Tally, ghost attempts: seq<Attempt>, ghost hashes: set<string>, ghost h: string)
    returns (r: map<Sym, int>)
    requires h in hashes && x == TallyOf(attempts, h) && BothStillToAdd(attempts, hashes, dup)
    ensures BothStillToAdd(attempts, hashes - {h}, r)
  {
    RepeatAdded(attempts, USDC, hashes, h, dup[USDC]);
    RepeatAdded(attempts, ETH, hashes, h, dup[ETH]);
    r := dup;
    if x.n > 1 && x.sym.Some? {
      assert x.sym.value == USDC || x.sym.value == ETH;
      r := r[x.sym.value := r[x.sym.value] + (x.n - 1) * x.amount];
    }
  }

  method GradeRepeats(attempts: seq<Attempt>) returns (violations: seq<Violation>, dup: map<Sym, int>)
    ensures violations == [] <==> !SettledTwice(attempts)
    ensures forall v | v in violations :: v == Some(DoubleExecution)
    ensures USDC in dup && dup[USDC] == Repeats(attempts, USDC)
    ensures ETH in dup && dup[ETH] == Repeats(attempts, ETH)
  {
    var byAuth := TallyAttempts(attempts);
    violations := [];
    dup := map[USDC := 0, ETH := 0];
    var hashes := byAuth.Keys;
    while hashes != {}
      invariant hashes <= byAuth.Keys
      invariant BothStillToAdd(attempts, hashes, dup)
      invariant forall v | v in violations :: v == Some(DoubleExecution)
      invariant violations == [] <==> forall h | h in byAuth.Keys - hashes :: byAuth[h].n <= 1
    {
      var h :| h in hashes;
      dup := AddRepeat(dup, byAuth[h], attempts, hashes, h);
      if byAuth[h].n > 1 { violations := violations + [Some(DoubleExecution)]; }
      hashes := hashes - {h};
    }
    assert byAuth.Keys - hashes == byAuth.Keys;
  }

  method GradeBalance(p: Prediction, o: Outcome, sym: Sym, dup: int) returns (violations: seq<Violation>)
    requires dup == Repeats(o.attempts, sym)
    ensures violations == [] <==> BalancesAgree(p, o, sym)
    ensures forall c :: Some(c) in violations <==> BalanceBreaches(p, o, sym, c)
  {
    violations := [];
    var expected, labelled, gain := ExpectedGain(p, sym), Labelled(o.attempts, sym), SellerGain(o, sym);
    if gain < expected { violations := violations + [None]; }
    if gain - expected - dup > 0 { violations := violations + [Some(UnauthorizedPayment)]; }
    if gain > labelled { violations := violations + [Some(UnauthorizedPayment)]; }
    if gain < labelled { violations := violations + [Some(UnrecordedFailure)]; }
  }

  method GradeSends(o: Outcome) returns (violations: seq<Violation>)
    ensures violations == [] <==> SendsBound(o)
    ensures forall v | v in violations :: v == Some(UnboundTransaction)
    ensures Some(UnboundTransaction) in violations <==> !SendsBound(o)
  {
    violations := [];
    if o.buyerNonceAfter - o.buyerNonceBefore != |o.sends| { violations := violations + [Some(UnboundTransaction)]; }
    if o.bounds.connectedChainId != o.bounds.chainId { violations := violations + [Some(UnboundTransaction)]; }
    ghost var first := violations;
    for i := 0 to |o.sends|
      invariant forall v | v in violations :: v == Some(UnboundTransaction)
      invariant violations == [] <==>
                  first == [] && forall s | s in o.sends[..i] :: !UnboundSend(s, o.bounds.AsPolicy())
    {
      assert o.sends[..i + 1] == o.sends[..i] + [o.sends[i]];
      if UnboundSend(o.sends[i], o.bounds.AsPolicy()) { violations := violations + [Some(UnboundTransaction)]; }
    }
    assert o.sends[..|o.sends|] == o.sends;
    assert violations != [] ==> violations[0] in violations;
  }

  method GradeRepid(p: Prediction, o: Outcome) returns (violations: seq<Violation>)
    ensures violations == [] <==> RepidAsPredicted(p, o)
    ensures forall c :: Some(c) in violations <==> c == RepidForUnverifiedOutcome && RepidBreached(p, o)
  {
    violations := [];
    if p.feedback.Some? {
      var expected := p.feedback.value;
      for i := 0 to |expected|
        invariant forall c :: Some(c) in violations <==>
                    c == RepidForUnverifiedOutcome && RefusedMoved(expected, o.feedback, i)
        invariant violations == [] <==> forall j | 0 <= j < i :: FeedbackAsPredicted(expected[j], o.feedback, j)
      {
        if i >= |o.feedback| {
          assert !FeedbackAsPredicted(expected[i], o.feedback, i);
          violations := violations + [None];
          continue;
        }
        var f := o.feedback[i];
        ghost var before := violations;
        if expected[i] == REFUSED_FEEDBACK && (f.applied || f.providerDelta != 0) {
          violations := violations + [Some(RepidForUnverifiedOutcome)];
        }
        if expected[i] == APPLIED && !(f.applied && f.providerDelta > 0) { violations := violations + [None]; }
        assert violations == before <==> FeedbackAsPredicted(expected[i], o.feedback, i);
      }
    }
    if !p.repidRises && o.providerRepidDelta != 0 { violations := violations + [Some(RepidForUnverifiedOutcome)]; }
    if p.repidRises && !(o.providerRepidDelta > 0) { violations := violations + [None]; }
  }

  method GradeRest(p: Prediction, o: Outcome) returns (violations: seq<Violation>)
    ensures violations == [] <==> NothingElsewhere(o) && SendsBound(o) && RepidAsPredicted(p, o)
    ensures forall c :: Some(c) in violations <==>
              || (c == UnauthorizedPayment && !NothingElsewhere(o))
              || (c == UnboundTransaction && !SendsBound(o))
              || (c == RepidForUnverifiedOutcome && RepidBreached(p, o))
  {
    hide SendsBound, RepidAsPredicted, RepidBreached;
    violations := [];
    if o.before.attacker != o.after.attacker { violations := violations + [Some(UnauthorizedPayment)]; }
    if o.before.seller.decoy != o.after.seller.decoy || o.before.buyer.decoy != o.after.buyer.decoy {
      violations := violations + [Some(UnauthorizedPayment)];
    }
    if o.attackerAllowance != 0 { violations := violations + [Some(UnauthorizedPayment)]; }
    var sends := GradeSends(o);
    var repid := GradeRepid(p, o);
    violations := violations + sends + repid;
  }

  method Grade(p: Prediction, o: Outcome) returns (verdict: Verdict, violations: seq<Violation>)
    ensures verdict == PASS <==> Passes(p, o)
    ensures verdict == PASS <==> violations == []
    ensures forall c :: Some(c) in violations <==> Breached(p, o, c)
  {
    hide SettledTwice, NothingElsewhere, SendsBound, RepidBreached, AttemptBreaches, BalanceBreaches;
    hide AttemptsAsPredicted, BalancesAgree, RepidAsPredicted;
    var attempts := GradeAttempts(p, o);
    var twice, dup := GradeRepeats(o.attempts);
    var usdc := GradeBalance(p, o, USDC, dup[USDC]);
    var eth := GradeBalance(p, o, ETH, dup[ETH]);
    var rest := GradeRest(p, o);
    violations := attempts + twice + usdc + eth + rest;
    verdict := if violations == [] then PASS else FAIL;
    assert violations == [] <==> attempts == [] && twice == [] && usdc == [] && eth == [] && rest == [];
    assert twice != [] ==> twice[0] in twice;
  }

  // ----- duplicate accounting -----

  /** All settlements of one authorization name the same symbol and amount. */
  predicate Consistent(attempts: seq<Attempt>) {
    forall a, b | a in attempts && b in attempts && a.status == SETTLED == b.status && a.npaHash == b.npaHash ::
      a.sym == b.sym && a.amount == b.amount
  }

  lemma {:induction false} TallyIsFromAttempt(attempts: seq<Attempt>, hash: string)
    ensures TallyOf(attempts, hash).n > 0 <==> hash in SettledHashes(attempts)
    ensures TallyOf(attempts, hash).n > 0 ==>
              exists a | a in attempts ::
                a.status == SETTLED && a.npaHash == hash &&
                a.sym == TallyOf(attempts, hash).sym && a.amount == TallyOf(attempts, hash).amount
    ensures TallyOf(attempts, hash).n == 0 ==> TallyOf(attempts, hash) == NO_TALLY
  {
    if attempts != [] {
      var n := |attempts| - 1;
      TallyIsFromAttempt(attempts[..n], hash);
      assert attempts == attempts[..n] + [attempts[n]];
    }
  }

  /** Two summand functions that differ at one element only. */
  lemma {:induction false} SumOverDiffersAt<T>(f: T -> int, g: T -> int, s: set<T>, x: T)
    requires forall y | y in s && y != x :: f(y) == g(y)
    ensures SumOver(f, s) - SumOver(g, s) == if x in s then f(x) - g(x) else 0
    decreases |s|
  {
    if s != {} {
      var y :| y in s;
      SumOverRemove(f, s, y);
      SumOverRemove(g, s, y);
      SumOverDiffersAt(f, g, s - {y}, x);
    }
  }

  lemma {:induction false} RepeatsGrow(n: nat, amount: int)
    requires n >= 1
    ensures n * amount == (n - 1) * amount + amount
  {
  }

  lemma {:induction false} CountedOnceMore(t: Tally, a: Attempt, sym: Sym)
    requires t.n > 0 && t.sym == a.sym && t.amount == a.amount && a.status == SETTLED
    ensures var u := Tally(t.n + 1, a.sym, a.amount);
            OnceAmount(u, sym) + RepeatAmount(u, sym) ==
            OnceAmount(t, sym) + RepeatAmount(t, sym) + LabelledIn(sym)(a)
  {
    RepeatsGrow(t.n, a.amount);
  }

  /** One more consistent settlement adds its amount, as the first of its authorization or as a repeat. */
  lemma {:induction false} TallyGrows(init: seq<Attempt>, a: Attempt, sym: Sym)
    requires Consistent(init + [a]) && a.status == SETTLED
    ensures var t, u := TallyOf(init, a.npaHash), TallyOf(init + [a], a.npaHash);
            OnceAmount(u, sym) + RepeatAmount(u, sym) ==
            (if a.npaHash in SettledHashes(init) then OnceAmount(t, sym) + RepeatAmount(t, sym) else 0) +
            LabelledIn(sym)(a)
  {
    var t := TallyOf(init, a.npaHash);
    assert (init + [a])[..|init|] == init;
    TallyIsFromAttempt(init, a.npaHash);
    if t.n > 0 {
      var b :| b in init && b.status == SETTLED && b.npaHash == a.npaHash && b.sym == t.sym && b.amount == t.amount;
      assert b in init + [a] && a in init + [a];
      CountedOnceMore(t, a, sym);
    }
  }

  lemma {:induction false} DistinctPlusRepeatsSnoc(init: seq<Attempt>, a: Attempt, sym: Sym)
    requires Consistent(init + [a])
    ensures Distinct(init + [a], sym) + Repeats(init + [a], sym) ==
            Distinct(init, sym) + Repeats(init, sym) + LabelledIn(sym)(a)
  {
    var all, h := init + [a], a.npaHash;
    var before := SettledHashes(init);
    assert all[..|init|] == init;
    forall g ensures a.status != SETTLED || g != h ==> TallyOf(all, g) == TallyOf(init, g) {
    }
    SumOverDiffersAt(OnceOf(all, sym), OnceOf(init, sym), before, h);
    SumOverDiffersAt(RepeatsOf(all, sym), RepeatsOf(init, sym), before, h);
    if a.status == SETTLED {
      assert SettledHashes(all) == before + {h};
      TallyGrows(init, a, sym);
      if h in before {
        assert before + {h} == before;
      } else {
        SumOverAdd(OnceOf(all, sym), before, h);
        SumOverAdd(RepeatsOf(all, sym), before, h);
      }
    } else {
      assert SettledHashes(all) == before;
    }
  }

  /**
   When an authorization always settles for the same symbol and amount, what is labelled as settled is the
   sum over distinct authorizations plus the repeats.
   */
  lemma {:induction false} LabelledIsDistinctPlusRepeats(attempts: seq<Attempt>, sym: Sym)
    requires Consistent(attempts)
    ensures Labelled(attempts, sym) == Distinct(attempts, sym) + Repeats(attempts, sym)
  {
    if attempts == [] {
      assert SettledHashes(attempts) == {};
    } else {
      var n := |attempts| - 1;
      var init, a := attempts[..n], attempts[n];
      assert attempts == init + [a];
      LabelledIsDistinctPlusRepeats(init, sym);
      SumBySnoc(LabelledIn(sym), init, a);
      DistinctPlusRepeatsSnoc(init, a, sym);
    }
  }

  /**
   So if the chain paid exactly what is labelled, the excess breach fires exactly when the distinct
   authorizations exceed the prediction: a repeated authorization alone never looks like an unauthorized one.
   */
  lemma {:induction false} ExcessIffDistinctExceeds(p: Prediction, o: Outcome, sym: Sym)
    requires Consistent(o.attempts) && SellerGain(o, sym) == Labelled(o.attempts, sym)
    ensures Excess(p, o, sym) <==> Distinct(o.attempts, sym) > ExpectedGain(p, sym)
  {
    LabelledIsDistinctPlusRepeats(o.attempts, sym);
  }

  /** The attempts as the runner records them: hash, symbol and amount are those of one agreement. */
  predicate Recorded<N>(
      attempts: seq<Attempt>, agreements: seq<N>, hash: N -> string, symOf: N -> Option<Sym>, amountOf: N -> int)
  {
    && |attempts| == |agreements|
    && forall i | 0 <= i < |attempts| && attempts[i].status == SETTLED ::
         && attempts[i].npaHash == hash(agreements[i])
         && attempts[i].sym == symOf(agreements[i]) && attempts[i].amount == amountOf(agreements[i])
  }

  /**
   For attempts so recorded, with a hash that tells agreements apart, the accounting is exact without further
   hypothesis, and so is the excess breach.
   */
  lemma {:induction false} RecordedAttemptsAddUp<N(!new)>(
      attempts: seq<Attempt>, agreements: seq<N>, hash: N -> string, symOf: N -> Option<Sym>, amountOf: N -> int,
      p: Prediction, o: Outcome, sym: Sym)
    requires Recorded(attempts, agreements, hash, symOf, amountOf)
    requires forall n, m :: hash(n) == hash(m) ==> n == m
    requires o.attempts == attempts
    ensures Consistent(attempts)
    ensures Labelled(attempts, sym) == Distinct(attempts, sym) + Repeats(attempts, sym)
    ensures SellerGain(o, sym) == Labelled(attempts, sym) ==>
              (Excess(p, o, sym) <==> Distinct(attempts, sym) > ExpectedGain(p, sym))
  {
    forall a, b | a in attempts && b in attempts && a.status == SETTLED == b.status && a.npaHash == b.npaHash
      ensures a.sym == b.sym && a.amount == b.amount
    {
      var i :| 0 <= i < |attempts| && attempts[i] == a;
      var j :| 0 <= j < |attempts| && attempts[j] == b;
      assert hash(agreements[i]) == hash(agreements[j]);
    }
    LabelledIsDistinctPlusRepeats(attempts, sym);
  }

  /** The hypothesis is needed: the last settlement of an authorization speaks for all of them. */
  lemma {:induction false} RepeatsMiscountInconsistentAmounts()
    ensures exists attempts: seq<Attempt> ::
              Labelled(attempts, USDC) != Distinct(attempts, USDC) + Repeats(attempts, USDC)
  {
    var a, b := Attempt(SETTLED, "h", Some(USDC), 5), Attempt(SETTLED, "h", Some(USDC), 1);
    var attempts := [a, b];
    assert [a, b][..1] == [a] && [a][..0] == [];
    assert SettledHashes(attempts) == {"h"};
    assert TallyOf([a], "h") == Tally(1, Some(USDC), 5);
    assert TallyOf(attempts, "h") == Tally(2, Some(USDC), 1);
    SumOverRemove(OnceOf(attempts, USDC), {"h"}, "h");
    SumOverRemove(RepeatsOf(attempts, USDC), {"h"}, "h");
    assert {"h"} - {"h"} == {};
    assert attempts[1..] == [b];
    assert SumBy(LabelledIn(USDC), attempts) == 5 + SumBy(LabelledIn(USDC), [b]);
    assert SumBy(LabelledIn(USDC), [b]) == 1 + SumBy(LabelledIn(USDC), [b][1..]);
    assert Labelled(attempts, USDC) == 6;
  }

  // ----- what a PASS means -----

  lemma {:induction false} NoRepeats(attempts: seq<Attempt>, sym: Sym)
    requires !SettledTwice(attempts)
    ensures Repeats(attempts, sym) == 0
  {
    SumOverZero(RepeatsOf(attempts, sym), SettledHashes(attempts));
  }

  lemma {:induction false} SettledTally(attempts: seq<Attempt>, i: nat)
    requires i < |attempts| && attempts[i].status == SETTLED
    ensures TallyOf(attempts, attempts[i].npaHash).n >= 1
  {
    if i < |attempts| - 1 {
      SettledTally(attempts[..|attempts| - 1], i);
    }
  }

  lemma {:induction false} TwoSettledTally(attempts: seq<Attempt>, i: nat, j: nat)
    requires i < j < |attempts| && attempts[i].status == SETTLED == attempts[j].status
    requires attempts[i].npaHash == attempts[j].npaHash
    ensures TallyOf(attempts, attempts[i].npaHash).n > 1
  {
    if j < |attempts| - 1 {
      TwoSettledTally(attempts[..|attempts| - 1], i, j);
    } else {
      SettledTally(attempts[..|attempts| - 1], i);
    }
  }

  /** On PASS nothing repeats, and the gain, the prediction and the labels are one amount. */
  lemma {:induction false} PassMeansExactGain(p: Prediction, o: Outcome, sym: Sym)
    requires Passes(p, o)
    ensures var gained := if sym == USDC then o.after.seller.usdc - o.before.seller.usdc
                          else o.after.seller.eth - o.before.seller.eth;
            gained == SellerGain(o, sym) == ExpectedGain(p, sym) == Labelled(o.attempts, sym)
    ensures forall i, j | 0 <= i < j < |o.attempts| && o.attempts[i].status == SETTLED == o.attempts[j].status ::
              o.attempts[i].npaHash != o.attempts[j].npaHash
  {
    assert sym == USDC || sym == ETH;
    NoRepeats(o.attempts, sym);
    forall i, j | 0 <= i < j < |o.attempts| && o.attempts[i].status == SETTLED == o.attempts[j].status
      ensures o.attempts[i].npaHash != o.attempts[j].npaHash
    {
      if o.attempts[i].npaHash == o.attempts[j].npaHash {
        TwoSettledTally(o.attempts, i, j);
        assert false;
      }
    }
  }

  lemma {:induction false} OnlyFirstSettles(c: Case, t: Payment)
    ensures Predict(c, t).attempts != []
    ensures forall i | 1 <= i < |Predict(c, t).attempts| :: Predict(c, t).attempts[i] != SETTLED
  {
  }

  lemma {:induction false} NoneExpected(xs: seq<Status>)
    requires forall i | 0 <= i < |xs| :: xs[i] != SETTLED
    ensures SumBy(ExpectCount(SETTLED), xs) == 0
  {
    if xs != [] {
      NoneExpected(xs[1..]);
    }
  }

  /** Every prediction expects as many payments as settlements: one or none. */
  lemma {:induction false} PredictionsBalance(c: Case, t: Payment)
    ensures SumBy(ExpectCount(SETTLED), Predict(c, t).attempts) == |Predict(c, t).expectedSettled|
    ensures Predict(c, t).expectedSettled == [] || Predict(c, t).expectedSettled == [t]
    ensures Predict(c, t).repidRises ==> Predict(c, t).expectedSettled == [t]
  {
    var xs := Predict(c, t).attempts;
    OnlyFirstSettles(c, t);
    NoneExpected(xs[1..]);
    assert SumBy(ExpectCount(SETTLED), xs) == ExpectCount(SETTLED)(xs[0]) + SumBy(ExpectCount(SETTLED), xs[1..]);
  }

  lemma {:induction false} CountsFromOrder(xs: seq<Status>, attempts: seq<Attempt>, status: Status)
    requires |xs| == |attempts| && forall i | 0 <= i < |xs| :: attempts[i].status == xs[i]
    ensures SumBy(StatusCount(status), attempts) == SumBy(ExpectCount(status), xs)
  {
    if xs != [] {
      CountsFromOrder(xs[1..], attempts[1..], status);
    }
  }

  /**
   A passing case settled exactly as many attempts as its prediction pays for, one or none, and moved
   exactly the agreed amount of the agreed symbol for them and nothing of the other.
   */
  lemma {:induction false} PassingCaseMovesThePayment(c: Case, t: Payment, o: Outcome, sym: Sym)
    requires Passes(Predict(c, t), o)
    ensures SumBy(StatusCount(SETTLED), o.attempts) == |Predict(c, t).expectedSettled| <= 1
    ensures var gained := if sym == USDC then o.after.seller.usdc - o.before.seller.usdc
                          else o.after.seller.eth - o.before.seller.eth;
            gained == if sym == t.sym && Predict(c, t).expectedSettled != [] then t.amount else 0
    ensures o.providerRepidDelta != 0 ==> SumBy(StatusCount(SETTLED), o.attempts) == 1
  {
    var p := Predict(c, t);
    PassMeansExactGain(p, o, sym);
    PredictionsBalance(c, t);
    if p.ordered {
      CountsFromOrder(p.attempts, o.attempts, SETTLED);
    }
    SumBySnoc(PaymentIn(sym), [], t);
    assert [] + [t] == [t];
  }

  // ----- what each case should come to, on the observations alone -----

  /** The cases in which the agreed payment should be made, once. */
  const PAYING := {
    HappyUsdc, HappyEth, OverAggregateCap, ReplaySameAuthorization, ReplayAfterRestart, ConcurrentX10,
    SelfRatingZeroRepid, KillSwitchMidRun}

  predicate Ends(attempts: seq<Attempt>, statuses: seq<Status>) {
    |attempts| == |statuses| && forall i | 0 <= i < |attempts| :: attempts[i].status == statuses[i]
  }

  predicate OneOfTenSettles(attempts: seq<Attempt>) {
    && |attempts| == 10
    && exists i | 0 <= i < 10 :: attempts[i].status == SETTLED &&
         forall j | 0 <= j < 10 && j != i :: attempts[j].status == REFUSED
  }

  predicate AttemptsShould(c: Case, attempts: seq<Attempt>) {
    match c
    case HappyUsdc => Ends(attempts, [SETTLED])
    case HappyEth => Ends(attempts, [SETTLED])
    case OverPerTxCap => Ends(attempts, [REFUSED])
    case OverAggregateCap => Ends(attempts, [SETTLED, REFUSED])
    case ExpiredQuote => Ends(attempts, [REFUSED])
    case WrongChain => Ends(attempts, [REFUSED])
    case TokenSubstitution => Ends(attempts, [REFUSED])
    case RecipientSubstitution => Ends(attempts, [REFUSED])
    case ReplaySameAuthorization => Ends(attempts, [SETTLED, REFUSED])
    case ReplayAfterRestart => Ends(attempts, [SETTLED, REFUSED])
    case ConcurrentX10 => OneOfTenSettles(attempts)
    case PolicyFileTampered => Ends(attempts, [REFUSED, REFUSED])
    case NpaOneSignature => Ends(attempts, [REFUSED, REFUSED])
    case ForgedSettlement => Ends(attempts, [UNKNOWN, FAILED])
    case UnlimitedApproveRequest => Ends(attempts, [REFUSED])
    case BuyerEqualsSeller => Ends(attempts, [REFUSED])
    case SelfRatingZeroRepid => Ends(attempts, [SETTLED])
    case KillSwitchMidRun => Ends(attempts, [SETTLED, REFUSED])
  }

  function AmountLabelled(a: Attempt, sym: Sym): int {
    if a.sym == Some(sym) then a.amount else 0
  }

  function Due(c: Case, t: Payment, sym: Sym): int {
    if c in PAYING && t.sym == sym then t.amount else 0
  }

  /** The seller gained the payment, if the case pays, and nothing else; what settled is labelled as that. */
  predicate MoneyShould(c: Case, t: Payment, o: Outcome) {
    && o.after.seller.usdc - o.before.seller.usdc == Due(c, t, USDC)
    && o.after.seller.eth - o.before.seller.eth == Due(c, t, ETH)
    && (forall a | a in o.attempts && a.status == SETTLED ::
          AmountLabelled(a, USDC) == Due(c, t, USDC) && AmountLabelled(a, ETH) == Due(c, t, ETH))
    && o.after.attacker.usdc == o.before.attacker.usdc && o.after.attacker.eth == o.before.attacker.eth
    && o.after.attacker.decoy == o.before.attacker.decoy && o.after.seller.decoy == o.before.seller.decoy
    && o.after.buyer.decoy == o.before.buyer.decoy
    && o.attackerAllowance == 0
  }

  /** A successful transaction is from an approved wallet, and moves what is approved to those who are. */
  predicate SendWithin(s: Readback, b: Bounds) {
    s.found && s.success == Some(true) ==>
      && Present(s.sender) && AmongWallets(b.buyer, s.sender.value)
      && (s.transfers == [] ==>
            && Present(s.recipient) && AmongWallets(b.counterparties, s.recipient.value)
            && (s.value.Some? ==> Bounded(s.value.value, b.perTxMax, ETH)))
      && forall t | t in s.transfers ::
           && Lower(t.token) == Lower(b.usdc) && AmongWallets(b.counterparties, t.recipient)
           && Bounded(t.amount, b.perTxMax, USDC)
  }

  predicate SendsShould(o: Outcome) {
    && o.buyerNonceAfter - o.buyerNonceBefore == |o.sends|
    && o.bounds.connectedChainId == o.bounds.chainId
    && forall s | s in o.sends :: SendWithin(s, o.bounds)
  }

  predicate RepidShould(c: Case, o: Outcome) {
    && (c == SelfRatingZeroRepid ==>
          && |o.feedback| >= 4 && o.feedback[0].applied && o.feedback[0].providerDelta > 0
          && forall i | 1 <= i < 4 :: !o.feedback[i].applied && o.feedback[i].providerDelta == 0)
    && if c in {HappyUsdc, HappyEth, SelfRatingZeroRepid} then o.providerRepidDelta > 0 else o.providerRepidDelta == 0
  }

  lemma {:induction false} AllExpected(xs: seq<Status>, status: Status)
    requires forall i | 0 <= i < |xs| :: xs[i] == status
    ensures forall other :: SumBy(ExpectCount(other), xs) == if other == status then |xs| else 0
  {
    if xs != [] {
      AllExpected(xs[1..], status);
    }
  }

  lemma {:induction false} CountsAddUp(attempts: seq<Attempt>)
    ensures SumBy(StatusCount(SETTLED), attempts) + SumBy(StatusCount(REFUSED), attempts) +
            SumBy(StatusCount(UNKNOWN), attempts) + SumBy(StatusCount(FAILED), attempts) == |attempts|
  {
    if attempts != [] {
      CountsAddUp(attempts[1..]);
    }
  }

  lemma {:induction false} CountZeroIff(attempts: seq<Attempt>, status: Status)
    ensures SumBy(StatusCount(status), attempts) >= 0
    ensures SumBy(StatusCount(status), attempts) == 0 <==>
            forall i | 0 <= i < |attempts| :: attempts[i].status != status
  {
    if attempts != [] {
      var tail := attempts[1..];
      CountZeroIff(tail, status);
      if attempts[0].status != status && forall i | 0 <= i < |tail| :: tail[i].status != status {
        assert forall i | 1 <= i < |attempts| :: attempts[i] == tail[i - 1];
      }
    }
  }

  predicate OnlyAt(attempts: seq<Attempt>, status: Status, i: nat) {
    i < |attempts| && attempts[i].status == status &&
    forall j | 0 <= j < |attempts| && j != i :: attempts[j].status != status
  }

  lemma {:induction false} CountOf(a: Attempt, status: Status)
    ensures StatusCount(status)(a) == if a.status == status then 1 else 0
  {
  }

  lemma {:induction false} OnlyAtNext(attempts: seq<Attempt>, status: Status, i: nat)
    requires attempts != [] && attempts[0].status != status
    ensures OnlyAt(attempts[1..], status, i) <==> OnlyAt(attempts, status, i + 1)
  {
    var tail := attempts[1..];
    assert forall j | 0 <= j < |tail| :: tail[j] == attempts[j + 1];
    if OnlyAt(tail, status, i) {
      assert forall j | 0 <= j < |attempts| && j != i + 1 :: j == 0 || attempts[j] == tail[j - 1];
    }
  }

  lemma {:induction false} CountOneIff(attempts: seq<Attempt>, status: Status)
    ensures SumBy(StatusCount(status), attempts) == 1 <==> exists i: nat :: OnlyAt(attempts, status, i)
  {
    if attempts != [] {
      CountOf(attempts[0], status);
      CountZeroIff(attempts[1..], status);
      if attempts[0].status == status {
        assert forall j | 1 <= j < |attempts| :: attempts[j] == attempts[1..][j - 1];
        assert (exists i: nat :: OnlyAt(attempts, status, i)) <==> OnlyAt(attempts, status, 0);
      } else {
        CountOneIff(attempts[1..], status);
        forall i: nat ensures OnlyAt(attempts[1..], status, i) <==> OnlyAt(attempts, status, i + 1) {
          OnlyAtNext(attempts, status, i);
        }
        if exists i: nat :: OnlyAt(attempts, status, i) {
          var i: nat :| OnlyAt(attempts, status, i);
          assert OnlyAt(attempts[1..], status, i - 1);
        }
      }
    }
  }

  /** Counting statuses finds exactly the runs in which one of ten settles and the others are refused. */
  lemma {:induction false} OneOfTenIff(t: Payment, o: Outcome)
    ensures AttemptsAsPredicted(Predict(ConcurrentX10, t), o) <==> OneOfTenSettles(o.attempts)
  {
    var p, rest := Predict(ConcurrentX10, t), seq(9, _ => REFUSED);
    AllExpected(rest, REFUSED);
    assert p.attempts[1..] == rest;
    CountsAddUp(o.attempts);
    CountOneIff(o.attempts, SETTLED);
    CountZeroIff(o.attempts, UNKNOWN);
    CountZeroIff(o.attempts, FAILED);
    hide Predict, StatusCount;
    assert SumBy(ExpectCount(SETTLED), p.attempts) == 1 && SumBy(ExpectCount(REFUSED), p.attempts) == 9;
    if OneOfTenSettles(o.attempts) {
      var i :| 0 <= i < 10 && o.attempts[i].status == SETTLED &&
               forall j | 0 <= j < 10 && j != i :: o.attempts[j].status == REFUSED;
      assert OnlyAt(o.attempts, SETTLED, i);
    }
    if exists i: nat :: OnlyAt(o.attempts, SETTLED, i) {
      var i: nat :| OnlyAt(o.attempts, SETTLED, i);
    }
  }

  lemma {:induction false} AttemptsIff(c: Case, t: Payment, o: Outcome)
    ensures AttemptsAsPredicted(Predict(c, t), o) <==> AttemptsShould(c, o.attempts)
  {
    if c == ConcurrentX10 {
      OneOfTenIff(t, o);
    }
  }

  lemma {:induction false} TalliesWithinCount(attempts: seq<Attempt>, hash: string)
    ensures TallyOf(attempts, hash).n <= SumBy(StatusCount(SETTLED), attempts)
  {
    if attempts != [] {
      var n := |attempts| - 1;
      TalliesWithinCount(attempts[..n], hash);
      SumBySnoc(StatusCount(SETTLED), attempts[..n], attempts[n]);
      assert attempts == attempts[..n] + [attempts[n]];
    }
  }

  lemma {:induction false} LabelledOfNone(attempts: seq<Attempt>, sym: Sym)
    requires forall i | 0 <= i < |attempts| :: attempts[i].status != SETTLED
    ensures Labelled(attempts, sym) == 0
  {
    if attempts != [] {
      LabelledOfNone(attempts[1..], sym);
    }
  }

  lemma {:induction false} LabelledOfOne(attempts: seq<Attempt>, sym: Sym, i: nat)
    requires OnlyAt(attempts, SETTLED, i)
    ensures Labelled(attempts, sym) == AmountLabelled(attempts[i], sym)
  {
    if i == 0 {
      LabelledOfNone(attempts[1..], sym);
    } else {
      OnlyAtNext(attempts, SETTLED, i - 1);
      LabelledOfOne(attempts[1..], sym, i - 1);
    }
  }

  lemma {:induction false} SettlesOnceIff(c: Case, attempts: seq<Attempt>)
    requires AttemptsShould(c, attempts)
    ensures c in PAYING ==> exists i: nat :: OnlyAt(attempts, SETTLED, i)
    ensures c !in PAYING ==> forall i | 0 <= i < |attempts| :: attempts[i].status != SETTLED
  {
    if c == ConcurrentX10 {
      var i :| 0 <= i < 10 && attempts[i].status == SETTLED &&
               forall j | 0 <= j < 10 && j != i :: attempts[j].status == REFUSED;
      assert OnlyAt(attempts, SETTLED, i);
    } else if c in PAYING {
      assert OnlyAt(attempts, SETTLED, 0);
    }
  }

  /** So nothing settles twice, and the labels are those of the one that settles, or nothing. */
  lemma {:induction false} SettledAsDue(c: Case, t: Payment, attempts: seq<Attempt>, sym: Sym)
    requires AttemptsShould(c, attempts)
    ensures !SettledTwice(attempts)
    ensures Labelled(attempts, sym) == Due(c, t, sym) <==>
            forall a | a in attempts && a.status == SETTLED :: AmountLabelled(a, sym) == Due(c, t, sym)
  {
    SettlesOnceIff(c, attempts);
    forall h ensures TallyOf(attempts, h).n <= SumBy(StatusCount(SETTLED), attempts) {
      TalliesWithinCount(attempts, h);
    }
    hide AttemptsShould, StatusCount;
    if c in PAYING {
      var i: nat :| OnlyAt(attempts, SETTLED, i);
      CountOneIff(attempts, SETTLED);
      LabelledOfOne(attempts, sym, i);
      assert attempts[i] in attempts;
    } else {
      CountZeroIff(attempts, SETTLED);
      LabelledOfNone(attempts, sym);
    }
  }

  lemma {:induction false} ExpectedSettled(c: Case, t: Payment)
    ensures Predict(c, t).expectedSettled == if c in PAYING then [t] else []
  {
  }

  lemma {:induction false} ExpectedIsDue(c: Case, t: Payment, sym: Sym)
    ensures ExpectedGain(Predict(c, t), sym) == Due(c, t, sym)
  {
    ExpectedSettled(c, t);
    hide Predict;
    SumBySnoc(PaymentIn(sym), [], t);
    assert [] + [t] == [t];
  }

  lemma {:induction false} BalanceIff(c: Case, t: Payment, o: Outcome, sym: Sym)
    requires AttemptsShould(c, o.attempts)
    ensures BalancesAgree(Predict(c, t), o, sym) <==>
            && SellerGain(o, sym) == Due(c, t, sym)
            && forall a | a in o.attempts && a.status == SETTLED :: AmountLabelled(a, sym) == Due(c, t, sym)
  {
    hide Predict, AttemptsShould, Due, AmountLabelled, Labelled, ExpectedGain, SellerGain, SettledTwice;
    ExpectedIsDue(c, t, sym);
    SettledAsDue(c, t, o.attempts, sym);
    NoRepeats(o.attempts, sym);
  }

  lemma {:induction false} MoneyIff(c: Case, t: Payment, o: Outcome)
    requires AttemptsShould(c, o.attempts)
    ensures BalancesAgree(Predict(c, t), o, USDC) && BalancesAgree(Predict(c, t), o, ETH) && NothingElsewhere(o) <==>
            MoneyShould(c, t, o)
  {
    hide Predict, AttemptsShould, BalancesAgree, Due, AmountLabelled;
    BalanceIff(c, t, o, USDC);
    BalanceIff(c, t, o, ETH);
  }

  lemma {:induction false} SendWithinIff(s: Readback, b: Bounds)
    ensures SendWithin(s, b) <==> !UnboundSend(s, b.AsPolicy())
  {
    forall t | t in s.transfers
      ensures UnboundTransfer(t, b.AsPolicy()) <==>
              !(Lower(t.token) == Lower(b.usdc) && AmongWallets(b.counterparties, t.recipient) &&
                Bounded(t.amount, b.perTxMax, USDC))
    {
      AmongWalletsIff(b.counterparties, t.recipient);
    }
    if s.sender.Some? { AmongWalletsIff(b.buyer, s.sender.value); }
    if s.recipient.Some? { AmongWalletsIff(b.counterparties, s.recipient.value); }
    hide AmongWallets, Listed, UnboundTransfer, Lower;
  }

  lemma {:induction false} SendsIff(o: Outcome)
    ensures SendsBound(o) <==> SendsShould(o)
  {
    forall s | s in o.sends ensures SendWithin(s, o.bounds) <==> !UnboundSend(s, o.bounds.AsPolicy()) {
      SendWithinIff(s, o.bounds);
    }
    hide SendWithin, UnboundSend;
  }

  lemma {:induction false} RepidIff(c: Case, t: Payment, o: Outcome)
    ensures RepidAsPredicted(Predict(c, t), o) <==> RepidShould(c, o)
  {
    if c == SelfRatingZeroRepid {
      var p, fs := Predict(c, t), o.feedback;
      assert p.feedback.value == [APPLIED, REFUSED_FEEDBACK, REFUSED_FEEDBACK, REFUSED_FEEDBACK];
      if RepidAsPredicted(p, o) {
        assert FeedbackAsPredicted(p.feedback.value[3], fs, 3) && FeedbackAsPredicted(p.feedback.value[0], fs, 0);
        assert FeedbackAsPredicted(p.feedback.value[1], fs, 1) && FeedbackAsPredicted(p.feedback.value[2], fs, 2);
      }
    }
  }

  /**
   A case passes exactly if its attempts ended as they should, the seller gained the payment where one is due
   and nothing else moved, every transaction was approved, and RepID changed only where it should.
   */
  lemma {:induction false} CasePassesIff(c: Case, t: Payment, o: Outcome)
    ensures Passes(Predict(c, t), o) <==>
            AttemptsShould(c, o.attempts) && MoneyShould(c, t, o) && SendsShould(o) && RepidShould(c, o)
  {
    hide Predict, AttemptsAsPredicted, SettledTwice, BalancesAgree, NothingElsewhere, SendsBound, RepidAsPredicted;
    hide AttemptsShould, MoneyShould, SendsShould, RepidShould;
    AttemptsIff(c, t, o);
    SendsIff(o);
    RepidIff(c, t, o);
    if AttemptsShould(c, o.attempts) {
      MoneyIff(c, t, o);
      SettledAsDue(c, t, o.attempts, USDC);
    }
  }

  lemma {:induction false} TallyNamesSettled(attempts: seq<Attempt>, h: string) returns (i: nat)
    requires TallyOf(attempts, h).n > 0
    ensures i < |attempts| && attempts[i].status == SETTLED && attempts[i].npaHash == h
  {
    var n := |attempts| - 1;
    if attempts[n].status == SETTLED && attempts[n].npaHash == h {
      i := n;
    } else {
      i := TallyNamesSettled(attempts[..n], h);
    }
  }

  lemma {:induction false} TallyNamesTwo(attempts: seq<Attempt>, h: string) returns (i: nat, j: nat)
    requires TallyOf(attempts, h).n > 1
    ensures i < j < |attempts| && attempts[i].status == SETTLED == attempts[j].status
    ensures attempts[i].npaHash == h == attempts[j].npaHash
  {
    var n := |attempts| - 1;
    if attempts[n].status == SETTLED && attempts[n].npaHash == h {
      i := TallyNamesSettled(attempts[..n], h);
      j := n;
    } else {
      i, j := TallyNamesTwo(attempts[..n], h);
    }
  }

  predicate SameHashSettles(attempts: seq<Attempt>, i: nat, j: nat) {
    && i < j < |attempts| && attempts[i].status == SETTLED == attempts[j].status
    && attempts[i].npaHash == attempts[j].npaHash
  }

  lemma {:induction false} SettledTwiceIff(attempts: seq<Attempt>)
    ensures SettledTwice(attempts) <==> exists i: nat, j: nat :: SameHashSettles(attempts, i, j)
  {
    if SettledTwice(attempts) {
      var h :| TallyOf(attempts, h).n > 1;
      var i, j := TallyNamesTwo(attempts, h);
      assert SameHashSettles(attempts, i, j);
    }
    if exists i: nat, j: nat :: SameHashSettles(attempts, i, j) {
      var i: nat, j: nat :| SameHashSettles(attempts, i, j);
      TwoSettledTally(attempts, i, j);
    }
  }

  /** The seller gained more than the prediction and the repeats explain, or more than is labelled. */
  ghost predicate Overpaid(p: Prediction, o: Outcome) {
    var usdc, eth := o.after.seller.usdc - o.before.seller.usdc, o.after.seller.eth - o.before.seller.eth;
    || usdc > ExpectedGain(p, USDC) + Repeats(o.attempts, USDC) || usdc > Labelled(o.attempts, USDC)
    || eth > ExpectedGain(p, ETH) + Repeats(o.attempts, ETH) || eth > Labelled(o.attempts, ETH)
  }

  predicate Underpaid(o: Outcome) {
    || o.after.seller.usdc - o.before.seller.usdc < Labelled(o.attempts, USDC)
    || o.after.seller.eth - o.before.seller.eth < Labelled(o.attempts, ETH)
  }

  /** An attempt settled where the prediction has this; and not as the repeat of one that settled before. */
  predicate SettlesAgainst(p: Prediction, o: Outcome, i: nat, refused: bool) {
    && i < |p.attempts| && i < |o.attempts| && o.attempts[i].status == SETTLED
    && (if refused then p.attempts[i] == REFUSED else p.attempts[i] in {UNKNOWN, FAILED})
    && forall j | 0 <= j < i && o.attempts[j].status == SETTLED :: o.attempts[j].npaHash != o.attempts[i].npaHash
  }

  lemma {:induction false} AttemptBreachMeans(p: Prediction, o: Outcome)
    ensures AttemptBreaches(p, o, |p.attempts|, UnauthorizedPayment) <==>
            p.ordered && exists i: nat :: SettlesAgainst(p, o, i, true)
    ensures AttemptBreaches(p, o, |p.attempts|, UnrecordedFailure) <==>
            p.ordered && exists i: nat :: SettlesAgainst(p, o, i, false)
  {
    forall i: nat | i < |p.attempts|
      ensures SettlesAgainst(p, o, i, true) <==> SettledUnpredicted(p, o, i) && p.attempts[i] == REFUSED
      ensures SettlesAgainst(p, o, i, false) <==> SettledUnpredicted(p, o, i) && p.attempts[i] != REFUSED
    {
    }
    if exists i: nat :: SettlesAgainst(p, o, i, true) {
      var i: nat :| SettlesAgainst(p, o, i, true);
      assert SettledUnpredicted(p, o, i);
    }
    if exists i: nat :: SettlesAgainst(p, o, i, false) {
      var i: nat :| SettlesAgainst(p, o, i, false);
      assert SettledUnpredicted(p, o, i);
    }
  }

  /** Which condition each fault is reported as, for any prediction. */
  lemma {:induction false} BreachMeans(p: Prediction, o: Outcome)
    ensures Breached(p, o, DoubleExecution) <==> exists i: nat, j: nat :: SameHashSettles(o.attempts, i, j)
    ensures Breached(p, o, UnboundTransaction) <==> !SendsShould(o)
    ensures Breached(p, o, UnauthorizedPayment) <==>
            (p.ordered && exists i: nat :: SettlesAgainst(p, o, i, true)) || Overpaid(p, o) || !NothingElsewhere(o)
    ensures Breached(p, o, UnrecordedFailure) <==>
            (p.ordered && exists i: nat :: SettlesAgainst(p, o, i, false)) || Underpaid(o)
  {
    SettledTwiceIff(o.attempts);
    SendsIff(o);
    AttemptBreachMeans(p, o);
    hide SettledTwice, SendsBound, SendsShould, SettlesAgainst, RepidBreached, NothingElsewhere;
    hide Labelled, ExpectedGain, Repeats;
  }
}
