/**
 The grading procedure over the observations, section by section, each proved to raise a condition exactly
 when it is breached.
 */
module VariantGrading {
  import opened Options
  import opened Npa
  import opened Sums
  import opened VariantGrader
  import opened VariantMeaning

  // ----- 1. double execution -----

  datatype Tally = Tally(settled: nat, paid: set<string>, spellings: set<string>)

  const NO_TALLY: Tally := Tally(0, {}, {})

  function Counted(t: Tally, p: Presentation): Tally {
    Tally(t.settled + if Settled(p) then 1 else 0,
          t.paid + if PaidTx(p).Some? then {PaidTx(p).value} else {},
          t.spellings + {p.npaHash})
  }

  function TallyOf(ps: seq<Presentation>, id: Npa): Tally {
    if ps == [] then NO_TALLY
    else
      var p, t := ps[|ps| - 1], TallyOf(ps[..|ps| - 1], id);
      if Identity(p.npa) == id then Counted(t, p) else t
  }

  predicate Repeated(t: Tally) {
    t.settled > 1 || |t.paid| > 1
  }

  ghost predicate AnyRepeated(ps: seq<Presentation>) {
    exists id :: Repeated(TallyOf(ps, id))
  }

  method Count(t: Tally, p: Presentation) returns (x: Tally)
    ensures x == Counted(t, p)
  {
    x := t;
    if p.status == SETTLED { x := x.(settled := x.settled + 1); }
    if PaidTx(p).Some? { x := x.(paid := x.paid + {PaidTx(p).value}); }
    x := x.(spellings := x.spellings + {p.npaHash});
  }

  lemma {:induction false} TallySnoc(ps: seq<Presentation>, i: nat, id: Npa)
    requires i < |ps|
    ensures TallyOf(ps[..i + 1], id) ==
            if Identity(ps[i].npa) == id then Counted(TallyOf(ps[..i], id), ps[i]) else TallyOf(ps[..i], id)
  {
    assert ps[..i + 1][..i] == ps[..i];
  }

  method TallyByNpa(ps: seq<Presentation>) returns (byNpa: map<Npa, Tally>)
    ensures forall id :: TallyOf(ps, id) == if id in byNpa then byNpa[id] else NO_TALLY
  {
    byNpa := map[];
    for i := 0 to |ps|
      invariant forall id :: TallyOf(ps[..i], id) == if id in byNpa then byNpa[id] else NO_TALLY
    {
      var id := Identity(ps[i].npa);
      var x := if id in byNpa then byNpa[id] else NO_TALLY;
      x := Count(x, ps[i]);
      forall other {
        TallySnoc(ps, i, other);
      }
      byNpa := byNpa[id := x];
    }
    assert ps[..|ps|] == ps;
  }

  lemma {:induction false} TwoMakeMany<T>(s: set<T>, a: T, b: T)
    requires a in s && b in s && a != b
    ensures |s| > 1
  {
    assert s == {a} + (s - {a}) && b in s - {a};
  }

  lemma {:induction false} PaidCounted(ps: seq<Presentation>, i: nat, id: Npa)
    requires i < |ps| && PaidTx(ps[i]).Some? && Identity(ps[i].npa) == id
    ensures PaidTx(ps[i]).value in TallyOf(ps, id).paid
  {
    if i < |ps| - 1 {
      PaidCounted(ps[..|ps| - 1], i, id);
    }
  }

  lemma {:induction false} OneSettledCounted(ps: seq<Presentation>, i: nat, id: Npa)
    requires i < |ps| && Settled(ps[i]) && Identity(ps[i].npa) == id
    ensures TallyOf(ps, id).settled >= 1
  {
    if i < |ps| - 1 {
      OneSettledCounted(ps[..|ps| - 1], i, id);
    }
  }

  lemma {:induction false} TwoSettledCounted(ps: seq<Presentation>, i: nat, j: nat, id: Npa)
    requires i < j < |ps| && Settled(ps[i]) && Settled(ps[j])
    requires Identity(ps[i].npa) == id && Identity(ps[j].npa) == id
    ensures TallyOf(ps, id).settled > 1
  {
    if j < |ps| - 1 {
      TwoSettledCounted(ps[..|ps| - 1], i, j, id);
    } else {
      OneSettledCounted(ps[..|ps| - 1], i, id);
    }
  }

  lemma {:induction false} TwiceIsRepeated(ps: seq<Presentation>, i: nat, j: nat)
    requires i < j < |ps| && ExecutedTwice(ps[i], ps[j])
    ensures AnyRepeated(ps)
  {
    var id := Identity(ps[i].npa);
    if Settled(ps[i]) && Settled(ps[j]) {
      TwoSettledCounted(ps, i, j, id);
    } else {
      PaidCounted(ps, i, id);
      PaidCounted(ps, j, id);
      TwoMakeMany(TallyOf(ps, id).paid, PaidTx(ps[i]).value, PaidTx(ps[j]).value);
    }
    assert Repeated(TallyOf(ps, id));
  }

  lemma {:induction false} TwoMembers<T>(s: set<T>) returns (a: T, b: T)
    requires |s| > 1
    ensures a in s && b in s && a != b
  {
    a :| a in s;
    assert |s - {a}| > 0;
    b :| b in s - {a};
  }

  lemma {:induction false} PaidBy(ps: seq<Presentation>, id: Npa, tx: string) returns (i: nat)
    requires tx in TallyOf(ps, id).paid
    ensures i < |ps| && Identity(ps[i].npa) == id && PaidTx(ps[i]) == Some(tx)
  {
    i := |ps| - 1;
    if !(Identity(ps[i].npa) == id && PaidTx(ps[i]) == Some(tx)) {
      i := PaidBy(ps[..i], id, tx);
    }
  }

  lemma {:induction false} OneSettled(ps: seq<Presentation>, id: Npa) returns (i: nat)
    requires TallyOf(ps, id).settled >= 1
    ensures i < |ps| && Settled(ps[i]) && Identity(ps[i].npa) == id
  {
    i := |ps| - 1;
    if !(Settled(ps[i]) && Identity(ps[i].npa) == id) {
      i := OneSettled(ps[..i], id);
    }
  }

  lemma {:induction false} TwoSettled(ps: seq<Presentation>, id: Npa) returns (i: nat, j: nat)
    requires TallyOf(ps, id).settled > 1
    ensures i < j < |ps| && Settled(ps[i]) && Settled(ps[j]) && Identity(ps[i].npa) == id == Identity(ps[j].npa)
  {
    j := |ps| - 1;
    if Settled(ps[j]) && Identity(ps[j].npa) == id {
      i := OneSettled(ps[..j], id);
    } else {
      i, j := TwoSettled(ps[..j], id);
    }
  }

  /** Counting per identity finds exactly the pairs that were executed twice. */
  lemma {:induction false} TalliesDecide(ps: seq<Presentation>)
    ensures AnyExecutedTwice(ps) <==> AnyRepeated(ps)
  {
    if i, j :| 0 <= i < j < |ps| && ExecutedTwice(ps[i], ps[j]) {
      TwiceIsRepeated(ps, i, j);
    }
    if id :| Repeated(TallyOf(ps, id)) {
      if TallyOf(ps, id).settled > 1 {
        var i, j := TwoSettled(ps, id);
        assert ExecutedTwice(ps[i], ps[j]);
      } else {
        var a, b := TwoMembers(TallyOf(ps, id).paid);
        var i := PaidBy(ps, id, a);
        var j := PaidBy(ps, id, b);
        assert ExecutedTwice(ps[i], ps[j]) && ExecutedTwice(ps[j], ps[i]);
      }
    }
  }

  method GradeExecutions(ps: seq<Presentation>) returns (breaches: seq<Condition>)
    ensures forall c :: c in breaches <==> c == DoubleExecution && AnyExecutedTwice(ps)
  {
    var byNpa := TallyByNpa(ps);
    breaches := [];
    var ids := byNpa.Keys;
    while ids != {}
      invariant ids <= byNpa.Keys
      invariant forall c | c in breaches :: c == DoubleExecution
      invariant breaches != [] <==> exists id :: id in byNpa.Keys - ids && Repeated(byNpa[id])
    {
      var id :| id in ids;
      if byNpa[id].settled > 1 { breaches := breaches + [DoubleExecution]; }
      if |byNpa[id].paid| > 1 { breaches := breaches + [DoubleExecution]; }
      ids := ids - {id};
    }
    TalliesDecide(ps);
    ghost var found := exists id :: id in byNpa.Keys - ids && Repeated(byNpa[id]);
    assert breaches != [] <==> found;
    assert found <==> AnyRepeated(ps) by {
      if id :| id in byNpa.Keys - ids && Repeated(byNpa[id]) {
        assert Repeated(TallyOf(ps, id));
      }
      if id :| Repeated(TallyOf(ps, id)) {
        assert id in byNpa.Keys - ids && Repeated(byNpa[id]);
      }
    }
    assert breaches != [] <==> AnyExecutedTwice(ps);
    assert breaches != [] ==> breaches[0] in breaches;
  }

  // ----- 2. every settled presentation was authorizable, paid exactly, and within the budget -----

  method GradeEach(o: Observed) returns (breaches: seq<Condition>)
    ensures forall c :: c in breaches <==>
              (c == UnauthorizedPayment && AnyUnauthorized(o.presentations, o.policy)) ||
              (c == UnrecordedFailure && UnrecordedSettlement(o))
  {
    breaches := [];
    var ps := o.presentations;
    for i := 0 to |ps|
      invariant forall c :: c in breaches <==>
                  (c == UnauthorizedPayment && exists p | p in ps[..i] && Settled(p) :: AnswerFor(p, o.policy) == No) ||
                  (c == UnrecordedFailure &&
                   exists p | p in ps[..i] && Settled(p) :: !PaysExactly(p.npa, p.readback, o.zeroAddress))
    {
      var p := ps[i];
      assert ps[..i + 1] == ps[..i] + [p];
      if Settled(p) {
        var answer, _ := Authorizable(p, o.policy);
        if answer == No { breaches := breaches + [UnauthorizedPayment]; }
        if !PaysExactly(p.npa, p.readback, o.zeroAddress) { breaches := breaches + [UnrecordedFailure]; }
      }
    }
    assert ps[..|ps|] == ps;
  }

  method TotalSettled(ps: seq<Presentation>, pol: Policy) returns (sums: map<Sym, int>)
    ensures USDC in sums && sums[USDC] == SettledSum(ps, pol, USDC)
    ensures ETH in sums && sums[ETH] == SettledSum(ps, pol, ETH)
  {
    sums := map[USDC := 0, ETH := 0];
    for i := 0 to |ps|
      invariant USDC in sums && sums[USDC] == SettledSum(ps[..i], pol, USDC)
      invariant ETH in sums && sums[ETH] == SettledSum(ps[..i], pol, ETH)
    {
      var p := ps[i];
      assert ps[..i + 1] == ps[..i] + [p];
      SumBySnoc(AmountIn(pol, USDC), ps[..i], p);
      SumBySnoc(AmountIn(pol, ETH), ps[..i], p);
      var s, amount := SymOf(pol, p.npa.asset), Canon(p.npa.amountRaw);
      if Settled(p) && s.Some? && amount.Some? {
        assert s.value == USDC || s.value == ETH;
        sums := sums[s.value := sums[s.value] + amount.value];
      }
    }
    assert ps[..|ps|] == ps;
  }

  method GradeSettlements(o: Observed) returns (breaches: seq<Condition>)
    ensures forall c :: c in breaches <==>
              (c == UnauthorizedPayment && UnauthorizedSettlement(o)) ||
              (c == UnrecordedFailure && UnrecordedSettlement(o))
  {
    var ps, pol := o.presentations, o.policy;
    breaches := GradeEach(o);
    var sums := TotalSettled(ps, pol);
    if sums[USDC] > Cap(pol.aggregateMax, USDC) { breaches := breaches + [UnauthorizedPayment]; }
    if sums[ETH] > Cap(pol.aggregateMax, ETH) { breaches := breaches + [UnauthorizedPayment]; }
    if |SettledIds(ps)| > pol.maxTxCount { breaches := breaches + [UnauthorizedPayment]; }
  }

  // ----- 3. the balances agree with what was settled -----

  /** The buyer's own loss, the attacker, the decoy token and the allowance. */
  predicate MovedElsewhere(o: Observed, usdc: int, eth: int) {
    || BuyerLoss(o, USDC) != usdc
    || BuyerLoss(o, ETH) > eth + o.policy.maxFeeWei * |o.sends|
    || o.before.attacker != o.after.attacker
    || o.before.buyer.decoy != o.after.buyer.decoy
    || o.before.seller.decoy != o.after.seller.decoy
    || o.attackerAllowance != 0
  }

  method GradeElsewhere(o: Observed, usdc: int, eth: int) returns (breaches: seq<Condition>)
    ensures forall c :: c in breaches <==> c == UnauthorizedPayment && MovedElsewhere(o, usdc, eth)
  {
    breaches := [];
    if BuyerLoss(o, USDC) != usdc { breaches := breaches + [UnauthorizedPayment]; }
    var fees := o.policy.maxFeeWei * |o.sends|;
    if BuyerLoss(o, ETH) > eth + fees { breaches := breaches + [UnauthorizedPayment]; }
    if o.before.attacker != o.after.attacker { breaches := breaches + [UnauthorizedPayment]; }
    if o.before.buyer.decoy != o.after.buyer.decoy { breaches := breaches + [UnauthorizedPayment]; }
    if o.before.seller.decoy != o.after.seller.decoy { breaches := breaches + [UnauthorizedPayment]; }
    if o.attackerAllowance != 0 { breaches := breaches + [UnauthorizedPayment]; }
  }

  method GradeGain(gain: int, labelled: int) returns (breaches: seq<Condition>)
    ensures forall c :: c in breaches <==>
              (c == UnauthorizedPayment && gain > labelled) || (c == UnrecordedFailure && gain < labelled)
  {
    breaches := [];
    if gain > labelled { breaches := breaches + [UnauthorizedPayment]; }
    if gain < labelled { breaches := breaches + [UnrecordedFailure]; }
  }

  /** The last-wins map is harmless: an identity fixes the amount. */
  lemma {:induction false} IdentityFixesAmount(n: Npa, m: Npa)
    requires m == Identity(n) || Identity(m) == Identity(n)
    ensures AmountOf(n) == AmountOf(m)
  {
    SpelledTwice(n.amountRaw);
    SpelledAmount(n.amountRaw, m.amountRaw);
  }

  /** The amounts by identity (the last presentation of an identity wins), then their sum. */
  method LabelledTotal(ps: seq<Presentation>, pol: Policy, sym: Sym) returns (total: int)
    ensures total == Labelled(ps, pol, sym)
  {
    var amounts: map<Npa, int> := map[];
    for i := 0 to |ps|
      invariant amounts.Keys == SettledIdsIn(ps[..i], pol, sym)
      invariant forall id | id in amounts :: amounts[id] == AmountOf(id)
    {
      var p := ps[i];
      assert ps[..i + 1] == ps[..i] + [p];
      if Settled(p) && SymOf(pol, p.npa.asset) == Some(sym) {
        IdentityFixesAmount(p.npa, Identity(p.npa));
        amounts := amounts[Identity(p.npa) := AmountOf(p.npa)];
      }
    }
    assert ps[..|ps|] == ps;
    total := 0;
    var ids := amounts.Keys;
    while ids != {}
      invariant ids <= amounts.Keys
      invariant total + SumOver(AgreedAmount(), ids) == Labelled(ps, pol, sym)
    {
      var id :| id in ids;
      SumOverRemove(AgreedAmount(), ids, id);
      total := total + amounts[id];
      ids := ids - {id};
    }
  }

  method GradeBalances(o: Observed) returns (breaches: seq<Condition>)
    ensures forall c :: c in breaches <==>
              (c == UnauthorizedPayment && UnauthorizedBalance(o)) ||
              (c == UnrecordedFailure && (GainedTooLittle(o, USDC) || GainedTooLittle(o, ETH)))
  {
    hide Labelled, SellerGain, BuyerLoss;
    var usdc := LabelledTotal(o.presentations, o.policy, USDC);
    var eth := LabelledTotal(o.presentations, o.policy, ETH);
    var gainedUsdc := GradeGain(SellerGain(o, USDC), usdc);
    var gainedEth := GradeGain(SellerGain(o, ETH), eth);
    var elsewhere := GradeElsewhere(o, usdc, eth);
    breaches := gainedUsdc + gainedEth + elsewhere;
    assert UnauthorizedBalance(o) <==> GainedTooMuch(o, USDC) || GainedTooMuch(o, ETH) || MovedElsewhere(o, usdc, eth);
  }

  // ----- 4. every transaction the buyer sent is logged and bound -----

  method GradeSend(s: Readback, pol: Policy) returns (breaches: seq<Condition>)
    ensures forall c | c in breaches :: c == UnboundTransaction
    ensures breaches != [] <==> UnboundSend(s, pol)
  {
    breaches := [];
    if !Happened(s) { return; }
    if !Given(s.sender) || !Listed(pol.buyer, s.sender.value) { breaches := breaches + [UnboundTransaction]; }
    if |s.transfers| == 0 {
      if !Given(s.recipient) || !Listed(pol.counterparties, s.recipient.value) {
        breaches := breaches + [UnboundTransaction];
      }
      if s.value.Some? && s.value.value > Cap(pol.perTxMax, ETH) { breaches := breaches + [UnboundTransaction]; }
    }
    ghost var first := breaches;
    for i := 0 to |s.transfers|
      invariant forall c | c in breaches :: c == UnboundTransaction
      invariant breaches == [] <==> first == [] && forall t | t in s.transfers[..i] :: !UnboundTransfer(t, pol)
    {
      var t := s.transfers[i];
      assert s.transfers[..i + 1] == s.transfers[..i] + [t];
      ghost var before := breaches;
      if !Same(t.token, UsdcContract(pol.assets)) { breaches := breaches + [UnboundTransaction]; }
      if !Listed(pol.counterparties, t.recipient) { breaches := breaches + [UnboundTransaction]; }
      if t.amount > Cap(pol.perTxMax, USDC) { breaches := breaches + [UnboundTransaction]; }
      assert breaches == [] <==> before == [] && !UnboundTransfer(t, pol);
    }
    assert s.transfers[..|s.transfers|] == s.transfers;
  }

  method GradeSends(o: Observed) returns (breaches: seq<Condition>)
    ensures forall c :: c in breaches <==> c == UnboundTransaction && Unbound(o)
  {
    breaches := [];
    if o.buyerNonceAfter - o.buyerNonceBefore != |o.sends| { breaches := breaches + [UnboundTransaction]; }
    if o.policy.connectedChainId != o.policy.chainId { breaches := breaches + [UnboundTransaction]; }
    ghost var first := breaches;
    for i := 0 to |o.sends|
      invariant forall c | c in breaches :: c == UnboundTransaction
      invariant breaches == [] <==> first == [] && forall s | s in o.sends[..i] :: !UnboundSend(s, o.policy)
    {
      assert o.sends[..i + 1] == o.sends[..i] + [o.sends[i]];
      var found := GradeSend(o.sends[i], o.policy);
      breaches := breaches + found;
    }
    assert o.sends[..|o.sends|] == o.sends;
    assert breaches != [] ==> breaches[0] in breaches;
  }

  // ----- 5. a cited settlement is one of this run -----

  method GradeClaims(o: Observed) returns (breaches: seq<Condition>)
    ensures forall c :: c in breaches <==> c == UnrecordedFailure && FalseClaim(o)
  {
    breaches := [];
    var txs := SettledTxs(o.presentations);
    for i := 0 to |o.claims|
      invariant forall c | c in breaches :: c == UnrecordedFailure
      invariant breaches == [] <==> forall c | c in o.claims[..i] :: !(c.status == SETTLED && Lower(c.txHash) !in txs)
    {
      var c := o.claims[i];
      assert o.claims[..i + 1] == o.claims[..i] + [c];
      if c.status == SETTLED && Lower(c.txHash) !in txs { breaches := breaches + [UnrecordedFailure]; }
    }
    assert o.claims[..|o.claims|] == o.claims;
    assert breaches != [] ==> breaches[0] in breaches;
  }

  // ----- 6. only the payer's first feedback on a settlement may move RepID -----

  /** The transactions that count once the first n feedbacks are in. */
  function CountedCites(fs: seq<Feedback>, txs: set<string>, n: nat): set<string>
    requires n <= |fs|
  {
    set j | 0 <= j < n && Qualifies(fs[j], txs) && fs[j].applied :: Cite(fs[j])
  }

  lemma {:induction false} CountedStep(fs: seq<Feedback>, txs: set<string>, i: nat)
    requires i < |fs|
    ensures Eligible(fs, txs, i) <==> Qualifies(fs[i], txs) && Cite(fs[i]) !in CountedCites(fs, txs, i)
    ensures CountedCites(fs, txs, i + 1) == CountedCites(fs, txs, i) +
              if Eligible(fs, txs, i) && fs[i].applied then {Cite(fs[i])} else {}
  {
  }

  method GradeEachFeedback(fs: seq<Feedback>, txs: set<string>)
    returns (breaches: seq<Condition>, eligibleProvider: int)
    ensures forall c | c in breaches :: c == RepidForUnverifiedOutcome
    ensures breaches == [] <==> forall j | 0 <= j < |fs| :: Harmless(fs, txs, j)
    ensures eligibleProvider == EligibleSum(fs, txs, |fs|)
  {
    breaches, eligibleProvider := [], 0;
    var counted: set<string> := {};
    for i := 0 to |fs|
      invariant counted == CountedCites(fs, txs, i)
      invariant eligibleProvider == EligibleSum(fs, txs, i)
      invariant forall c | c in breaches :: c == RepidForUnverifiedOutcome
      invariant breaches == [] <==> forall j | 0 <= j < i :: Harmless(fs, txs, j)
    {
      var f := fs[i];
      CountedStep(fs, txs, i);
      var eligible := f.rater == Buyer && f.provider == Seller && Cite(f) in txs && Cite(f) !in counted;
      assert Harmless(fs, txs, i) <==> eligible || !Moved(f);
      if eligible && f.applied {
        counted := counted + {Cite(f)};
        eligibleProvider := eligibleProvider + f.providerDelta;
      }
      if !eligible && (f.applied || f.providerDelta != 0 || f.buyerDelta != 0) {
        breaches := breaches + [RepidForUnverifiedOutcome];
      }
    }
  }

  method GradeFeedback(o: Observed) returns (breaches: seq<Condition>)
    ensures forall c :: c in breaches <==> c == RepidForUnverifiedOutcome && RepidMoved(o)
  {
    var fs, txs := o.feedback, SettledTxs(o.presentations);
    var eligibleProvider: int;
    breaches, eligibleProvider := GradeEachFeedback(fs, txs);
    if o.providerRepidDelta != eligibleProvider { breaches := breaches + [RepidForUnverifiedOutcome]; }
    if o.buyerRepidDelta != 0 && !exists f | f in fs :: f.applied {
      breaches := breaches + [RepidForUnverifiedOutcome];
    }
    assert breaches != [] ==> breaches[0] in breaches;
  }

  // ----- the whole procedure -----

  /** All sections, one after another: PASS when none of them raises anything. */
  method GradeVariant(o: Observed) returns (verdict: Verdict, breaches: seq<Condition>)
    ensures forall c :: c in breaches <==> Faulted(o, c)
    ensures forall c :: c in breaches <==> Breached(o, c)
    ensures verdict == PASS <==> Passes(o)
  {
    hide Faulted;
    forall c ensures Breached(o, c) <==> Faulted(o, c) {
      BreachedIff(o, c);
    }
    hide UnauthorizedSettlement, UnauthorizedBalance, UnrecordedSettlement, GainedTooLittle, FalseClaim;
    hide AnyExecutedTwice, RepidMoved, Unbound;
    var double := GradeExecutions(o.presentations);
    var authorized := GradeSettlements(o);
    var balances := GradeBalances(o);
    var bound := GradeSends(o);
    var claims := GradeClaims(o);
    var repid := GradeFeedback(o);
    breaches := double + authorized + balances + bound + claims + repid;
    verdict := if breaches == [] then PASS else FAIL;
    assert breaches != [] ==> breaches[0] in breaches;
  }
}
