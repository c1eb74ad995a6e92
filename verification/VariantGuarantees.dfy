/**
 What a PASS of the variant grader guarantees about money and reputation, and what the grading does not
 depend on: the spelling of the agreements and the order of the presentations.
 */
module VariantGuarantees {
  import opened Options
  import opened Npa
  import opened Sums
  import opened VariantGrader

  // ----- money -----

  lemma {:induction false} LabelledSnoc(ps: seq<Presentation>, p: Presentation, pol: Policy, sym: Sym)
    requires !AnyExecutedTwice(ps + [p])
    ensures Labelled(ps + [p], pol, sym) == Labelled(ps, pol, sym) + AmountIn(pol, sym)(p)
  {
    var id, ids := Identity(p.npa), SettledIdsIn(ps, pol, sym);
    if Settled(p) && SymOf(pol, p.npa.asset) == Some(sym) {
      forall q | q in ps && Settled(q) ensures Identity(q.npa) != id {
        var i :| 0 <= i < |ps| && ps[i] == q;
        assert !ExecutedTwice((ps + [p])[i], (ps + [p])[|ps|]);
      }
      assert SettledIdsIn(ps + [p], pol, sym) == ids + {id};
      SumOverAdd(AgreedAmount(), ids, id);
      SpelledTwice(p.npa.amountRaw);
      SpelledAmount(id.amountRaw, p.npa.amountRaw);
    } else {
      assert SettledIdsIn(ps + [p], pol, sym) == ids;
    }
  }

  /** Without double execution the running total is the total over distinct agreements. */
  lemma {:induction false} DistinctTotalIsRunningTotal(ps: seq<Presentation>, pol: Policy, sym: Sym)
    requires !AnyExecutedTwice(ps)
    ensures SettledSum(ps, pol, sym) == Labelled(ps, pol, sym)
  {
    if ps != [] {
      var n := |ps| - 1;
      var init, p := ps[..n], ps[n];
      assert ps == init + [p];
      assert forall i, j | 0 <= i < j < n :: !ExecutedTwice(ps[i], ps[j]);
      DistinctTotalIsRunningTotal(init, pol, sym);
      SumBySnoc(AmountIn(pol, sym), init, p);
      LabelledSnoc(init, p, pol, sym);
    } else {
      assert SettledIdsIn(ps, pol, sym) == {};
    }
  }

  lemma {:induction false} SettledWithinTxCap(o: Observed, sym: Sym)
    requires Passes(o)
    ensures forall id | id in SettledIdsIn(o.presentations, o.policy, sym) ::
              0 < AgreedAmount()(id) <= Cap(o.policy.perTxMax, sym)
  {
    assert !Breached(o, UnauthorizedPayment);
    forall p | p in o.presentations && Settled(p) && SymOf(o.policy, p.npa.asset) == Some(sym)
      ensures 0 < AmountOf(Identity(p.npa)) <= Cap(o.policy.perTxMax, sym)
    {
      assert AnswerFor(p, o.policy) != No;
      SpelledTwice(p.npa.amountRaw);
      SpelledAmount(Identity(p.npa).amountRaw, p.npa.amountRaw);
    }
  }

  lemma {:induction false} PassMeansNoSlack(o: Observed, sym: Sym)
    requires Passes(o)
    ensures !OverAggregate(o, sym) && !GainedTooMuch(o, sym) && !GainedTooLittle(o, sym)
  {
    assert !Breached(o, UnauthorizedPayment);
    assert !Breached(o, UnrecordedFailure);
    match sym
    case USDC =>
    case ETH =>
  }

  lemma {:induction false} PassMeansExactGain(o: Observed, sym: Sym)
    requires Passes(o)
    ensures SellerGain(o, sym) == Labelled(o.presentations, o.policy, sym)
    ensures SellerGain(o, sym) == SettledSum(o.presentations, o.policy, sym)
    ensures SellerGain(o, sym) <= Cap(o.policy.aggregateMax, sym)
  {
    assert !Breached(o, DoubleExecution);
    DistinctTotalIsRunningTotal(o.presentations, o.policy, sym);
    PassMeansNoSlack(o, sym);
  }

  lemma {:induction false} PassMeansExactLoss(o: Observed)
    requires Passes(o)
    ensures BuyerLoss(o, USDC) == SellerGain(o, USDC)
    ensures BuyerLoss(o, ETH) <= SellerGain(o, ETH) + o.policy.maxFeeWei * |o.sends|
    ensures o.after.attacker == o.before.attacker
  {
    PassMeansExactGain(o, USDC);
    PassMeansExactGain(o, ETH);
    assert !Breached(o, UnauthorizedPayment);
  }

  lemma {:induction false} ScaledAtMost(a: int, b: int, c: int)
    requires a <= b && c >= 0
    ensures a * c <= b * c
  {
  }

  lemma {:induction false} SumOverNonNegative(ids: set<Npa>)
    ensures SumOver(AgreedAmount(), ids) >= 0
    decreases |ids|
  {
    if ids != {} {
      var id :| id in ids;
      SumOverRemove(AgreedAmount(), ids, id);
      SumOverNonNegative(ids - {id});
    }
  }

  lemma {:induction false} SubsetNotLarger<T>(a: set<T>, b: set<T>)
    requires a <= b
    ensures |a| <= |b|
  {
    assert b == a + (b - a);
  }

  lemma {:induction false} CountsAndCaps(o: Observed, sym: Sym)
    requires Passes(o)
    ensures var ids, cap := SettledIdsIn(o.presentations, o.policy, sym), Cap(o.policy.perTxMax, sym);
            var total := Labelled(o.presentations, o.policy, sym);
            && |ids| <= o.policy.maxTxCount
            && 0 <= total <= |ids| * cap
            && (ids != {} || cap >= 0 ==> total <= o.policy.maxTxCount * cap)
            && (ids == {} ==> total == 0)
  {
    var ids, cap := SettledIdsIn(o.presentations, o.policy, sym), Cap(o.policy.perTxMax, sym);
    SettledWithinTxCap(o, sym);
    SumOverAtMost(AgreedAmount(), ids, cap);
    SumOverNonNegative(ids);
    assert |ids| <= o.policy.maxTxCount by {
      assert !Breached(o, UnauthorizedPayment);
      SubsetNotLarger(ids, SettledIds(o.presentations));
    }
    if ids != {} {
      var id :| id in ids;
      assert 0 < AgreedAmount()(id) <= cap;
    }
    if cap >= 0 {
      ScaledAtMost(|ids|, o.policy.maxTxCount, cap);
    }
  }

  /**
   PASS bounds the money that moved. The seller's gain in a symbol is the sum over distinct agreements and
   the plain running sum, within the aggregate cap, and at most the per-transaction cap for each of at most
   `maxTxCount` payments. The buyer's USDC loss is that gain, and its ETH loss is that gain and fees at most.
   */
  lemma {:induction false} PassBoundsMoney(o: Observed, sym: Sym)
    requires Passes(o)
    ensures var gained := if sym == USDC then o.after.seller.usdc - o.before.seller.usdc
                          else o.after.seller.eth - o.before.seller.eth;
            var ids := SettledIdsIn(o.presentations, o.policy, sym);
            && gained == SellerGain(o, sym)
            && gained == Labelled(o.presentations, o.policy, sym) == SettledSum(o.presentations, o.policy, sym)
            && 0 <= gained <= Cap(o.policy.aggregateMax, sym)
            && |ids| <= o.policy.maxTxCount
            && gained <= |ids| * Cap(o.policy.perTxMax, sym)
            && (ids != {} || Cap(o.policy.perTxMax, sym) >= 0 ==>
                  gained <= o.policy.maxTxCount * Cap(o.policy.perTxMax, sym))
            && (ids == {} ==> gained == 0)
    ensures o.before.buyer.usdc - o.after.buyer.usdc == o.after.seller.usdc - o.before.seller.usdc
    ensures o.before.buyer.eth - o.after.buyer.eth <=
            o.after.seller.eth - o.before.seller.eth + o.policy.maxFeeWei * |o.sends|
    ensures o.after.attacker == o.before.attacker
  {
    PassMeansExactGain(o, sym);
    CountsAndCaps(o, sym);
    PassMeansExactLoss(o);
  }

  // ----- reputation -----

  function AppliedDelta(): Feedback -> int {
    (f: Feedback) => if f.applied then f.providerDelta else 0
  }

  function AppliedCount(): Feedback -> int {
    (f: Feedback) => if f.applied then 1 else 0
  }

  function SettledCount(): Presentation -> int {
    (p: Presentation) => if Settled(p) then 1 else 0
  }

  function AppliedCites(fs: seq<Feedback>): set<string> {
    set f | f in fs && f.applied :: Cite(f)
  }

  lemma {:induction false} CountOneMore<T>(s: set<T>, x: T)
    requires x !in s
    ensures |s + {x}| == |s| + 1
  {
  }

  lemma {:induction false} AppliedCitesSnoc(fs: seq<Feedback>, f: Feedback)
    ensures AppliedCites(fs + [f]) == AppliedCites(fs) + if f.applied then {Cite(f)} else {}
  {
  }

  lemma {:induction false} EligibleCite(fs: seq<Feedback>, txs: set<string>, i: nat)
    requires i < |fs| && fs[i].applied
    requires forall j | 0 <= j < |fs| && fs[j].applied :: Eligible(fs, txs, j)
    ensures Cite(fs[i]) in txs && Cite(fs[i]) !in AppliedCites(fs[..i])
  {
    forall g | g in fs[..i] && g.applied ensures Cite(g) != Cite(fs[i]) {
      var j :| 0 <= j < i && fs[j] == g;
      assert Eligible(fs, txs, j) && Eligible(fs, txs, i);
    }
  }

  /** Different citations: as many cited transactions as applied feedbacks. */
  lemma {:induction false} AppliedCitesCounted(fs: seq<Feedback>, txs: set<string>, n: nat)
    requires n <= |fs|
    requires forall i | 0 <= i < |fs| && fs[i].applied :: Eligible(fs, txs, i)
    ensures |AppliedCites(fs[..n])| == SumBy(AppliedCount(), fs[..n])
    ensures AppliedCites(fs[..n]) <= txs
  {
    if n > 0 {
      var before, f := fs[..n - 1], fs[n - 1];
      AppliedCitesCounted(fs, txs, n - 1);
      assert fs[..n] == before + [f];
      AppliedCitesSnoc(before, f);
      SumBySnoc(AppliedCount(), before, f);
      if f.applied {
        EligibleCite(fs, txs, n - 1);
        hide *;
        CountOneMore(AppliedCites(before), Cite(f));
      }
    }
  }

  lemma {:induction false} EligibleIsApplied(fs: seq<Feedback>, txs: set<string>, n: nat)
    requires n <= |fs|
    requires forall i | 0 <= i < |fs| && fs[i].applied :: Eligible(fs, txs, i)
    ensures EligibleSum(fs, txs, n) == SumBy(AppliedDelta(), fs[..n])
    ensures n == |fs| ==> fs[..n] == fs
  {
    if n > 0 {
      EligibleIsApplied(fs, txs, n - 1);
      assert fs[..n] == fs[..n - 1] + [fs[n - 1]];
      SumBySnoc(AppliedDelta(), fs[..n - 1], fs[n - 1]);
    }
  }

  lemma {:induction false} SettledTxsSnoc(ps: seq<Presentation>, p: Presentation)
    ensures SettledTxs(ps + [p]) ==
            SettledTxs(ps) + if Settled(p) && Given(p.txHash) then {Lower(p.txHash.value)} else {}
  {
  }

  lemma {:induction false} SettledTxsCounted(ps: seq<Presentation>)
    ensures |SettledTxs(ps)| <= SumBy(SettledCount(), ps)
  {
    if ps != [] {
      var n := |ps| - 1;
      assert ps == ps[..n] + [ps[n]];
      SettledTxsCounted(ps[..n]);
      SumBySnoc(SettledCount(), ps[..n], ps[n]);
      SettledTxsSnoc(ps[..n], ps[n]);
    }
  }

  /**
   On PASS every applied feedback is the buyer's, about the seller, on a transaction settled in this run;
   no two cite the same transaction, so there are no more of them than settled presentations; and together
   they account for the whole change of the provider's RepID.
   */
  lemma {:induction false} PassBoundsReputation(o: Observed)
    requires Passes(o)
    ensures forall f | f in o.feedback && f.applied :: Qualifies(f, SettledTxs(o.presentations))
    ensures forall i, j | 0 <= i < j < |o.feedback| && o.feedback[i].applied && o.feedback[j].applied ::
              Cite(o.feedback[i]) != Cite(o.feedback[j])
    ensures SumBy(AppliedCount(), o.feedback) <= |SettledTxs(o.presentations)| <= SumBy(SettledCount(), o.presentations)
    ensures o.providerRepidDelta == SumBy(AppliedDelta(), o.feedback)
  {
    var fs, txs := o.feedback, SettledTxs(o.presentations);
    assert !Breached(o, RepidForUnverifiedOutcome);
    forall i | 0 <= i < |fs| && fs[i].applied ensures Eligible(fs, txs, i) {
      assert Harmless(fs, txs, i);
    }
    AppliedCitesCounted(fs, txs, |fs|);
    assert fs[..|fs|] == fs;
    SubsetNotLarger(AppliedCites(fs), txs);
    SettledTxsCounted(o.presentations);
    EligibleIsApplied(fs, txs, |fs|);
  }

  // ----- the facts the grade rests on -----

  /** The facts about the presentations that the conditions rest on. */
  ghost predicate SameFacts(o: Observed, r: Observed) {
    var ps, qs, pol := o.presentations, r.presentations, o.policy;
    && r == o.(presentations := qs)
    && (AnyExecutedTwice(ps) <==> AnyExecutedTwice(qs))
    && SettledIds(ps) == SettledIds(qs)
    && (forall sym :: SettledIdsIn(ps, pol, sym) == SettledIdsIn(qs, pol, sym))
    && SettledTxs(ps) == SettledTxs(qs)
    && SettledSum(ps, pol, USDC) == SettledSum(qs, pol, USDC)
    && SettledSum(ps, pol, ETH) == SettledSum(qs, pol, ETH)
    && (AnyUnauthorized(ps, pol) <==> AnyUnauthorized(qs, pol))
    && (UnrecordedSettlement(o) <==> UnrecordedSettlement(r))
  }

  lemma {:induction false} SameTotals(o: Observed, r: Observed, sym: Sym)
    requires SameFacts(o, r)
    ensures Labelled(o.presentations, o.policy, sym) == Labelled(r.presentations, r.policy, sym)
    ensures OverAggregate(o, sym) <==> OverAggregate(r, sym)
    ensures GainedTooMuch(o, sym) <==> GainedTooMuch(r, sym)
    ensures GainedTooLittle(o, sym) <==> GainedTooLittle(r, sym)
  {
    assert sym == USDC || sym == ETH;
  }

  lemma {:induction false} SameBalances(o: Observed, r: Observed)
    requires SameFacts(o, r)
    ensures UnauthorizedBalance(o) <==> UnauthorizedBalance(r)
  {
    SameTotals(o, r, USDC);
    SameTotals(o, r, ETH);
  }

  lemma {:induction false} SameClaimsAndFeedback(o: Observed, r: Observed)
    requires r == o.(presentations := r.presentations) && SettledTxs(o.presentations) == SettledTxs(r.presentations)
    ensures FalseClaim(o) <==> FalseClaim(r)
    ensures RepidMoved(o) <==> RepidMoved(r)
    ensures Unbound(o) <==> Unbound(r)
  {
  }

  lemma {:induction false} SameFactsSameGrade(o: Observed, r: Observed)
    requires SameFacts(o, r)
    ensures forall c :: Breached(o, c) <==> Breached(r, c)
  {
    SameTotals(o, r, USDC);
    SameTotals(o, r, ETH);
    assert UnauthorizedSettlement(o) <==> UnauthorizedSettlement(r);
    SameBalances(o, r);
    SameClaimsAndFeedback(o, r);
  }

  // ----- spelling -----

  /** The same presentation with its agreement in another spelling (and so with any other hash). */
  predicate Respelled(p: Presentation, q: Presentation) {
    q == p.(npa := q.npa, npaHash := q.npaHash) && Identity(q.npa) == Identity(p.npa)
  }

  /** Two agreements that no check of the grading can tell apart. */
  predicate SameReading(n: Npa, m: Npa) {
    && Same(n.buyer, m.buyer) && Same(n.seller, m.seller) && Same(n.asset, m.asset)
    && n.chainId == m.chainId && n.decimals == m.decimals && n.quoteExpiresAt == m.quoteExpiresAt
    && Canon(n.amountRaw) == Canon(m.amountRaw) && Canon(n.maxFeeWei) == Canon(m.maxFeeWei)
    && (Canon(n.amountRaw).Some? ==> n.amountRaw == m.amountRaw)
    && (n.settlement == "onchain-readback" <==> m.settlement == "onchain-readback")
  }

  lemma {:induction false} SameIdentityReadsTheSame(n: Npa, m: Npa)
    requires Identity(n) == Identity(m)
    ensures SameReading(n, m)
  {
    SpelledSame(n.buyer, m.buyer);
    SpelledSame(n.seller, m.seller);
    SpelledSame(n.asset, m.asset);
    SpelledSame(n.amountRaw, m.amountRaw);
    SpelledAmount(n.amountRaw, m.amountRaw);
    SpelledAmount(n.maxFeeWei, m.maxFeeWei);
    SpelledSame(n.settlement, m.settlement);
    assert !IsHex("onchain-readback");
    if n.amountRaw != m.amountRaw {
      HexIsNoAmount(n.amountRaw);
    }
  }

  lemma {:induction false} AssetIgnoresSpelling(assets: seq<Asset>, a: string, b: string)
    requires Same(a, b)
    ensures FindAsset(assets, a) == FindAsset(assets, b)
  {
    if assets != [] {
      AssetIgnoresSpelling(assets[1..], a, b);
    }
  }

  lemma {:induction false} EntitlementIgnoresSpelling(p: Presentation, q: Presentation, pol: Policy)
    requires q == p.(npa := q.npa, npaHash := q.npaHash) && SameReading(p.npa, q.npa)
    ensures Entitled(p, pol) <==> Entitled(q, pol)
  {
    var n, m := p.npa, q.npa;
    AssetIgnoresSpelling(pol.assets, n.asset, m.asset);
    assert Listed(pol.buyer, n.buyer) <==> Listed(pol.buyer, m.buyer);
    assert Listed(pol.counterparties, n.seller) <==> Listed(pol.counterparties, m.seller);
    assert AgreementAllowed(p, pol) <==> AgreementAllowed(q, pol);
    assert AmountsAllowed(n, pol) <==> AmountsAllowed(m, pol);
    assert AmountsAllowed(n, pol) ==> (RequestMatches(p.request, n) <==> RequestMatches(q.request, m));
  }

  /** Whether one presentation is authorizable does not depend on its spelling. */
  lemma {:induction false} AnswerIgnoresSpelling(p: Presentation, q: Presentation, pol: Policy)
    requires Respelled(p, q)
    ensures AnswerFor(p, pol) == AnswerFor(q, pol)
    ensures SymOf(pol, p.npa.asset) == SymOf(pol, q.npa.asset)
  {
    SameIdentityReadsTheSame(p.npa, q.npa);
    AssetIgnoresSpelling(pol.assets, p.npa.asset, q.npa.asset);
    EntitlementIgnoresSpelling(p, q, pol);
  }

  lemma {:induction false} PaymentReadsTheSame(n: Npa, m: Npa, readback: Option<Readback>, zeroAddress: string)
    requires SameReading(n, m)
    ensures PaysExactly(n, readback, zeroAddress) <==> PaysExactly(m, readback, zeroAddress)
  {
  }

  /** Nor does whether its readback is the agreed payment. */
  lemma {:induction false} PaymentIgnoresSpelling(p: Presentation, q: Presentation, zeroAddress: string)
    requires Respelled(p, q)
    ensures PaysExactly(p.npa, p.readback, zeroAddress) <==> PaysExactly(q.npa, q.readback, zeroAddress)
  {
    SameIdentityReadsTheSame(p.npa, q.npa);
    PaymentReadsTheSame(p.npa, q.npa, p.readback, zeroAddress);
  }

  /** The same observations with any presentations respelled. */
  predicate RespelledObservations(o: Observed, r: Observed) {
    && r == o.(presentations := r.presentations)
    && |r.presentations| == |o.presentations|
    && forall i | 0 <= i < |o.presentations| :: Respelled(o.presentations[i], r.presentations[i])
  }

  lemma {:induction false} SetsIgnoreSpelling(o: Observed, r: Observed)
    requires RespelledObservations(o, r)
    ensures SettledIds(o.presentations) <= SettledIds(r.presentations)
    ensures forall sym ::
              SettledIdsIn(o.presentations, o.policy, sym) <= SettledIdsIn(r.presentations, o.policy, sym)
    ensures SettledTxs(o.presentations) <= SettledTxs(r.presentations)
    ensures AnyUnauthorized(o.presentations, o.policy) ==> AnyUnauthorized(r.presentations, o.policy)
    ensures UnrecordedSettlement(o) ==> UnrecordedSettlement(r)
  {
    var ps, qs := o.presentations, r.presentations;
    forall p | p in ps
      ensures exists q :: q in qs && Respelled(p, q) && AnswerFor(p, o.policy) == AnswerFor(q, o.policy) &&
                          SymOf(o.policy, p.npa.asset) == SymOf(o.policy, q.npa.asset) &&
                          (PaysExactly(p.npa, p.readback, o.zeroAddress) <==>
                           PaysExactly(q.npa, q.readback, o.zeroAddress))
    {
      var i :| 0 <= i < |ps| && ps[i] == p;
      AnswerIgnoresSpelling(ps[i], qs[i], o.policy);
      PaymentIgnoresSpelling(ps[i], qs[i], o.zeroAddress);
      assert qs[i] in qs;
    }
  }

  lemma {:induction false} SumsIgnoreSpelling(ps: seq<Presentation>, qs: seq<Presentation>, pol: Policy, sym: Sym)
    requires |ps| == |qs| && forall i | 0 <= i < |ps| :: Respelled(ps[i], qs[i])
    ensures SettledSum(ps, pol, sym) == SettledSum(qs, pol, sym)
  {
    if ps != [] {
      AnswerIgnoresSpelling(ps[0], qs[0], pol);
      SameIdentityReadsTheSame(ps[0].npa, qs[0].npa);
      SumsIgnoreSpelling(ps[1..], qs[1..], pol, sym);
    }
  }

  lemma {:induction false} PairIgnoresSpelling(p: Presentation, p': Presentation, q: Presentation, q': Presentation)
    requires Respelled(p, p') && Respelled(q, q')
    ensures ExecutedTwice(p, q) <==> ExecutedTwice(p', q')
  {
  }

  lemma {:induction false} ExecutionsIgnoreSpelling(ps: seq<Presentation>, qs: seq<Presentation>)
    requires |ps| == |qs| && forall i | 0 <= i < |ps| :: Respelled(ps[i], qs[i])
    ensures AnyExecutedTwice(ps) ==> AnyExecutedTwice(qs)
  {
    if AnyExecutedTwice(ps) {
      var i, j :| 0 <= i < j < |ps| && ExecutedTwice(ps[i], ps[j]);
      PairIgnoresSpelling(ps[i], qs[i], ps[j], qs[j]);
    }
  }

  lemma {:induction false} RespelledBothWays(o: Observed, r: Observed)
    requires RespelledObservations(o, r)
    ensures RespelledObservations(r, o)
  {
    forall i | 0 <= i < |o.presentations| ensures Respelled(r.presentations[i], o.presentations[i]) {
      assert Respelled(o.presentations[i], r.presentations[i]);
    }
  }

  lemma {:induction false} SameSet<T>(a: set<T>, b: set<T>)
    requires a <= b && b <= a
    ensures a == b
  {
  }

  lemma {:induction false} RespelledSets(o: Observed, r: Observed, sym: Sym)
    requires RespelledObservations(o, r)
    ensures SettledIds(o.presentations) == SettledIds(r.presentations)
    ensures SettledIdsIn(o.presentations, o.policy, sym) == SettledIdsIn(r.presentations, o.policy, sym)
    ensures SettledTxs(o.presentations) == SettledTxs(r.presentations)
  {
    RespelledBothWays(o, r);
    SetsIgnoreSpelling(o, r);
    SetsIgnoreSpelling(r, o);
    SameSet(SettledIds(o.presentations), SettledIds(r.presentations));
    SameSet(SettledIdsIn(o.presentations, o.policy, sym), SettledIdsIn(r.presentations, o.policy, sym));
    SameSet(SettledTxs(o.presentations), SettledTxs(r.presentations));
  }

  lemma {:induction false} RespelledChecks(o: Observed, r: Observed)
    requires RespelledObservations(o, r)
    ensures AnyUnauthorized(o.presentations, o.policy) <==> AnyUnauthorized(r.presentations, o.policy)
    ensures UnrecordedSettlement(o) <==> UnrecordedSettlement(r)
  {
    RespelledBothWays(o, r);
    SetsIgnoreSpelling(o, r);
    SetsIgnoreSpelling(r, o);
  }

  lemma {:induction false} RespelledTotals(o: Observed, r: Observed)
    requires RespelledObservations(o, r)
    ensures forall sym ::
              SettledSum(o.presentations, o.policy, sym) == SettledSum(r.presentations, o.policy, sym)
    ensures AnyExecutedTwice(o.presentations) <==> AnyExecutedTwice(r.presentations)
  {
    forall sym { SumsIgnoreSpelling(o.presentations, r.presentations, o.policy, sym); }
    RespelledBothWays(o, r);
    ExecutionsIgnoreSpelling(o.presentations, r.presentations);
    ExecutionsIgnoreSpelling(r.presentations, o.presentations);
  }

  lemma {:induction false} RespelledFacts(o: Observed, r: Observed)
    requires RespelledObservations(o, r)
    ensures SameFacts(o, r)
  {
    forall sym { RespelledSets(o, r, sym); }
    RespelledSets(o, r, USDC);
    RespelledChecks(o, r);
    RespelledTotals(o, r);
  }

  /** Respelling agreements changes neither the verdict nor the set of breached conditions. */
  lemma {:induction false} GradeIgnoresSpelling(o: Observed, r: Observed)
    requires RespelledObservations(o, r)
    ensures forall c :: Breached(o, c) <==> Breached(r, c)
    ensures Passes(o) <==> Passes(r)
  {
    RespelledFacts(o, r);
    SameFactsSameGrade(o, r);
  }

  // ----- order -----

  /** Two places of one sequence are found at two places of any reordering. */
  lemma {:induction false} TwoPlaces<T>(s: seq<T>, t: seq<T>, i: nat, j: nat) returns (a: nat, b: nat)
    requires multiset(s) == multiset(t) && i < j < |s|
    ensures a < |t| && b < |t| && a != b && t[a] == s[i] && t[b] == s[j]
  {
    assert s[i] in multiset(t);
    a :| 0 <= a < |t| && t[a] == s[i];
    WithoutOne(s, i);
    WithoutOne(t, a);
    var s', t' := s[..i] + s[i + 1..], t[..a] + t[a + 1..];
    assert s'[j - 1] == s[j];
    assert s[j] in multiset(t');
    var k :| 0 <= k < |t'| && t'[k] == s[j];
    b := if k < a then k else k + 1;
  }

  lemma {:induction false} ExecutionsIgnoreOrder(ps: seq<Presentation>, qs: seq<Presentation>)
    requires multiset(ps) == multiset(qs) && AnyExecutedTwice(ps)
    ensures AnyExecutedTwice(qs)
  {
    var i, j :| 0 <= i < j < |ps| && ExecutedTwice(ps[i], ps[j]);
    var a, b := TwoPlaces(ps, qs, i, j);
    assert ExecutedTwice(qs[a], qs[b]) && ExecutedTwice(qs[b], qs[a]);
  }

  lemma {:induction false} SameMembersSameSets(o: Observed, r: Observed)
    requires r == o.(presentations := r.presentations)
    requires multiset(o.presentations) == multiset(r.presentations)
    ensures SettledIds(o.presentations) == SettledIds(r.presentations)
    ensures forall sym ::
              SettledIdsIn(o.presentations, o.policy, sym) == SettledIdsIn(r.presentations, o.policy, sym)
    ensures SettledTxs(o.presentations) == SettledTxs(r.presentations)
    ensures AnyUnauthorized(o.presentations, o.policy) <==> AnyUnauthorized(r.presentations, o.policy)
    ensures UnrecordedSettlement(o) <==> UnrecordedSettlement(r)
  {
    var ps, qs := o.presentations, r.presentations;
    assert forall p :: p in ps <==> p in multiset(ps);
    assert forall p :: p in qs <==> p in multiset(qs);
    assert forall p :: p in ps <==> p in qs;
  }

  lemma {:induction false} ReorderedFacts(o: Observed, r: Observed)
    requires r == o.(presentations := r.presentations)
    requires multiset(o.presentations) == multiset(r.presentations)
    ensures SameFacts(o, r)
  {
    var ps, qs := o.presentations, r.presentations;
    SumByPermutation(AmountIn(o.policy, USDC), ps, qs);
    SumByPermutation(AmountIn(o.policy, ETH), ps, qs);
    if AnyExecutedTwice(ps) { ExecutionsIgnoreOrder(ps, qs); }
    if AnyExecutedTwice(qs) { ExecutionsIgnoreOrder(qs, ps); }
    SameMembersSameSets(o, r);
  }

  /** Presentations that ran at once have no order: no permutation changes the grade. */
  lemma {:induction false} GradeIgnoresOrder(o: Observed, r: Observed)
    requires r == o.(presentations := r.presentations)
    requires multiset(o.presentations) == multiset(r.presentations)
    ensures forall c :: Breached(o, c) <==> Breached(r, c)
    ensures Passes(o) <==> Passes(r)
  {
    ReorderedFacts(o, r);
    SameFactsSameGrade(o, r);
  }
}
