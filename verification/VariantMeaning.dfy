/**
 What the grading of a variant comes to, stated of the observations alone: the fields of the accounts, of the
 agreements, of what the chain showed, and nothing that grading computes on the way.
 */
module VariantMeaning {
  import opened Options
  import opened Npa
  import opened Sums
  import opened VariantGrader
  import opened VariantGuarantees

  // ----- one presentation -----

  /** The policy's first entry for this asset. */
  predicate Lists(pol: Policy, contract: string, entry: Asset) {
    exists i | 0 <= i < |pol.assets| ::
      && pol.assets[i] == entry && Lower(entry.contract) == Lower(contract)
      && forall j | 0 <= j < i :: Lower(pol.assets[j].contract) != Lower(contract)
  }

  predicate InSymbol(pol: Policy, contract: string, sym: Sym) {
    exists entry | entry in pol.assets :: entry.symbol == sym && Lists(pol, contract, entry)
  }

  predicate AmongWallets(wallets: seq<string>, wallet: string) {
    exists i | 0 <= i < |wallets| :: Lower(wallets[i]) == Lower(wallet)
  }

  /** Both parties signed, and the parties, the chain and the operation are the policy's. */
  predicate PartiesAgree(p: Presentation, pol: Policy) {
    && p.buyerSigned && p.sellerSigned && p.operation in pol.operations
    && p.npa.settlement == "onchain-readback"
    && Lower(p.npa.buyer) != Lower(p.npa.seller)
    && AmongWallets(pol.buyer, p.npa.buyer) && AmongWallets(pol.counterparties, p.npa.seller)
    && p.npa.chainId == pol.chainId && pol.connectedChainId == pol.chainId
  }

  /** The amount is a canonical decimal, positive and within the cap of its asset's symbol; so is the fee. */
  predicate WithinCaps(n: Npa, pol: Policy) {
    && CanonicalDecimal(n.amountRaw) && CanonicalDecimal(n.maxFeeWei) && Decimal(n.maxFeeWei) <= pol.maxFeeWei
    && exists entry | entry in pol.assets && Lists(pol, n.asset, entry) ::
         && entry.decimals == n.decimals && 0 < Decimal(n.amountRaw)
         && Decimal(n.amountRaw) <= if entry.symbol in pol.perTxMax then pol.perTxMax[entry.symbol] else 0
  }

  /** What is asked for is what was agreed. */
  predicate AsksForAgreement(r: Request, n: Npa) {
    && r.chainId == n.chainId && r.amountRaw == n.amountRaw
    && Lower(r.asset) == Lower(n.asset) && Lower(r.recipient) == Lower(n.seller) && Lower(r.payer) == Lower(n.buyer)
  }

  predicate Agreed(p: Presentation, pol: Policy) {
    PartiesAgree(p, pol) && WithinCaps(p.npa, pol) && AsksForAgreement(p.request, p.npa)
  }

  /** Agreed, and presented at most two seconds after the quote expired. */
  predicate MayPay(p: Presentation, pol: Policy) {
    Agreed(p, pol) && p.at <= p.npa.quoteExpiresAt + 2
  }

  predicate Present(s: Option<string>) {
    s.Some? && |s.value| > 0
  }

  predicate Succeeded(rb: Option<Readback>) {
    rb.Some? && rb.value.found && rb.value.success == Some(true)
  }

  /** The chain shows exactly the agreed payment: native value to the seller, or one transfer of the token. */
  predicate ChainShows(n: Npa, rb: Option<Readback>, zeroAddress: string) {
    && Succeeded(rb) && CanonicalDecimal(n.amountRaw)
    && Present(rb.value.sender) && Lower(rb.value.sender.value) == Lower(n.buyer) && Present(rb.value.recipient)
    && if Lower(n.asset) == Lower(zeroAddress) then
         && Lower(rb.value.recipient.value) == Lower(n.seller)
         && rb.value.value == Some(Decimal(n.amountRaw)) && rb.value.transfers == []
       else
         && Lower(rb.value.recipient.value) == Lower(n.asset)
         && rb.value.value in {None, Some(0)}
         && |rb.value.transfers| == 1
         && var t := rb.value.transfers[0];
            && t.amount == Decimal(n.amountRaw) && Lower(t.token) == Lower(n.asset)
            && Lower(t.sender) == Lower(n.buyer) && Lower(t.recipient) == Lower(n.seller)
  }

  lemma {:induction false} FindAssetIff(assets: seq<Asset>, contract: string, i: nat)
    requires i < |assets| && Lower(assets[i].contract) == Lower(contract)
    requires forall j | 0 <= j < i :: Lower(assets[j].contract) != Lower(contract)
    ensures FindAsset(assets, contract) == Some(assets[i])
  {
    if i > 0 {
      FindAssetIff(assets[1..], contract, i - 1);
    }
  }

  lemma {:induction false} AssetFound(assets: seq<Asset>, contract: string) returns (i: nat)
    requires FindAsset(assets, contract).Some?
    ensures i < |assets| && FindAsset(assets, contract) == Some(assets[i])
    ensures Lower(assets[i].contract) == Lower(contract)
    ensures forall j | 0 <= j < i :: Lower(assets[j].contract) != Lower(contract)
  {
    if Same(assets[0].contract, contract) {
      i := 0;
    } else {
      var k := AssetFound(assets[1..], contract);
      i := k + 1;
    }
  }

  lemma {:induction false} ListsIff(pol: Policy, contract: string, entry: Asset)
    ensures Lists(pol, contract, entry) <==> FindAsset(pol.assets, contract) == Some(entry)
    ensures Lists(pol, contract, entry) ==> entry in pol.assets
  {
    if Lists(pol, contract, entry) {
      var i :| 0 <= i < |pol.assets| && pol.assets[i] == entry && Lower(entry.contract) == Lower(contract)
               && forall j | 0 <= j < i :: Lower(pol.assets[j].contract) != Lower(contract);
      FindAssetIff(pol.assets, contract, i);
    }
    if FindAsset(pol.assets, contract) == Some(entry) {
      var i := AssetFound(pol.assets, contract);
    }
  }

  lemma {:induction false} InSymbolIff(pol: Policy, contract: string, sym: Sym)
    ensures InSymbol(pol, contract, sym) <==> SymOf(pol, contract) == Some(sym)
  {
    hide FindAsset, Lists;
    if InSymbol(pol, contract, sym) {
      var entry :| entry in pol.assets && entry.symbol == sym && Lists(pol, contract, entry);
      ListsIff(pol, contract, entry);
    }
    if SymOf(pol, contract) == Some(sym) {
      ListsIff(pol, contract, FindAsset(pol.assets, contract).value);
    }
  }

  lemma {:induction false} WithinCapsIff(n: Npa, pol: Policy)
    ensures WithinCaps(n, pol) <==> AmountsAllowed(n, pol)
  {
    hide FindAsset, Lists, Decimal;
    if WithinCaps(n, pol) {
      var entry :| entry in pol.assets && Lists(pol, n.asset, entry)
                   && entry.decimals == n.decimals && 0 < Decimal(n.amountRaw)
                   && Decimal(n.amountRaw) <= if entry.symbol in pol.perTxMax then pol.perTxMax[entry.symbol] else 0;
      ListsIff(pol, n.asset, entry);
    }
    if AmountsAllowed(n, pol) {
      ListsIff(pol, n.asset, FindAsset(pol.assets, n.asset).value);
    }
  }

  lemma {:induction false} AmongWalletsIff(wallets: seq<string>, wallet: string)
    ensures AmongWallets(wallets, wallet) <==> Listed(wallets, wallet)
  {
    if AmongWallets(wallets, wallet) {
      var i :| 0 <= i < |wallets| && Lower(wallets[i]) == Lower(wallet);
      assert wallets[i] in wallets;
    }
    if Listed(wallets, wallet) {
      var w :| w in wallets && Same(w, wallet);
      var i :| 0 <= i < |wallets| && wallets[i] == w;
    }
  }

  /** The three answers: two seconds about the end of the quote are left open. */
  lemma {:induction false} AnswerMeans(p: Presentation, pol: Policy)
    ensures AnswerFor(p, pol) == Yes <==> Agreed(p, pol) && p.at + 2 < p.npa.quoteExpiresAt
    ensures AnswerFor(p, pol) == Ambiguous <==>
            Agreed(p, pol) && p.at - 2 <= p.npa.quoteExpiresAt <= p.at + 2
    ensures AnswerFor(p, pol) != No <==> MayPay(p, pol)
  {
    AmongWalletsIff(pol.buyer, p.npa.buyer);
    AmongWalletsIff(pol.counterparties, p.npa.seller);
    WithinCapsIff(p.npa, pol);
    hide Listed, AmongWallets, WithinCaps, AmountsAllowed;
  }

  lemma {:induction false} ChainShowsIff(n: Npa, rb: Option<Readback>, zeroAddress: string)
    ensures ChainShows(n, rb, zeroAddress) <==> PaysExactly(n, rb, zeroAddress)
  {
    hide CanonicalDecimal, Decimal, Lower;
  }

  // ----- all presentations -----

  /** The presentation's transaction moved money. */
  predicate MovedMoney(p: Presentation) {
    Present(p.txHash) && Succeeded(p.readback)
  }

  /** One authorization, whatever its spelling, settles once and moves money in one transaction. */
  predicate OncePerAuthorization(ps: seq<Presentation>) {
    forall i, j | 0 <= i < j < |ps| && Identity(ps[i].npa) == Identity(ps[j].npa) ::
      && !(ps[i].status == SETTLED && ps[j].status == SETTLED)
      && (MovedMoney(ps[i]) && MovedMoney(ps[j]) ==> Lower(ps[i].txHash.value) == Lower(ps[j].txHash.value))
  }

  lemma {:induction false} OnceIff(ps: seq<Presentation>)
    ensures OncePerAuthorization(ps) <==> !AnyExecutedTwice(ps)
  {
    hide Identity, Lower;
    forall i, j | 0 <= i < j < |ps|
      ensures ExecutedTwice(ps[i], ps[j]) <==>
              Identity(ps[i].npa) == Identity(ps[j].npa) &&
              ((ps[i].status == SETTLED && ps[j].status == SETTLED) ||
               (MovedMoney(ps[i]) && MovedMoney(ps[j]) && Lower(ps[i].txHash.value) != Lower(ps[j].txHash.value)))
    {
    }
  }

  /** The agreements that settled in a symbol, each once. */
  function SettledAgreements(ps: seq<Presentation>, pol: Policy, sym: Sym): set<Npa> {
    set p | p in ps && p.status == SETTLED && InSymbol(pol, p.npa.asset, sym) :: Identity(p.npa)
  }

  function AmountAgreed(): Npa -> int {
    (n: Npa) => if CanonicalDecimal(n.amountRaw) then Decimal(n.amountRaw) else 0
  }

  /** What they come to. */
  ghost function AgreedTotal(ps: seq<Presentation>, pol: Policy, sym: Sym): int {
    SumOver(AmountAgreed(), SettledAgreements(ps, pol, sym))
  }

  lemma {:induction false} AmountsAgree(ids: set<Npa>)
    ensures SumOver(AmountAgreed(), ids) == SumOver(AgreedAmount(), ids)
  {
    SumOverAgrees(AmountAgreed(), AgreedAmount(), ids);
  }

  lemma {:induction false} AgreedTotalIsLabelled(ps: seq<Presentation>, pol: Policy, sym: Sym)
    ensures AgreedTotal(ps, pol, sym) == Labelled(ps, pol, sym)
  {
    forall p | p in ps ensures InSymbol(pol, p.npa.asset, sym) <==> SymOf(pol, p.npa.asset) == Some(sym) {
      InSymbolIff(pol, p.npa.asset, sym);
    }
    hide InSymbol, SymOf, Identity, CanonicalDecimal, Decimal;
    assert SettledAgreements(ps, pol, sym) == SettledIdsIn(ps, pol, sym);
    AmountsAgree(SettledIdsIn(ps, pol, sym));
  }

  function AmountSettled(pol: Policy, sym: Sym): Presentation -> int {
    (p: Presentation) =>
      if p.status == SETTLED && InSymbol(pol, p.npa.asset, sym) && CanonicalDecimal(p.npa.amountRaw) then
        Decimal(p.npa.amountRaw)
      else 0
  }

  lemma {:induction false} AmountSettledIsAmountIn(ps: seq<Presentation>, pol: Policy, sym: Sym)
    ensures SumBy(AmountSettled(pol, sym), ps) == SettledSum(ps, pol, sym)
  {
    if ps != [] {
      InSymbolIff(pol, ps[0].npa.asset, sym);
      AmountSettledIsAmountIn(ps[1..], pol, sym);
    }
  }

  predicate WithinAggregate(o: Observed, sym: Sym) {
    SumBy(AmountSettled(o.policy, sym), o.presentations) <=
      if sym in o.policy.aggregateMax then o.policy.aggregateMax[sym] else 0
  }

  /** Every settled presentation was agreed, and all of them are within the aggregate caps and the count. */
  predicate OnlyAgreedSettles(o: Observed) {
    && (forall p | p in o.presentations && p.status == SETTLED :: MayPay(p, o.policy))
    && WithinAggregate(o, USDC) && WithinAggregate(o, ETH)
    && |set p | p in o.presentations && p.status == SETTLED :: Identity(p.npa)| <= o.policy.maxTxCount
  }

  lemma {:induction false} OnlyAgreedIff(o: Observed)
    ensures OnlyAgreedSettles(o) <==> !UnauthorizedSettlement(o)
  {
    forall p | p in o.presentations ensures MayPay(p, o.policy) <==> AnswerFor(p, o.policy) != No {
      AnswerMeans(p, o.policy);
    }
    AmountSettledIsAmountIn(o.presentations, o.policy, USDC);
    AmountSettledIsAmountIn(o.presentations, o.policy, ETH);
    hide MayPay, AnswerFor, SettledSum, AmountSettled, Identity;
    assert SettledIds(o.presentations) == set p | p in o.presentations && p.status == SETTLED :: Identity(p.npa);
  }

  // ----- money -----

  /** The seller gained no more than the agreements that settled, and nobody else gained or lost anything. */
  ghost predicate NothingTaken(o: Observed) {
    var usdc := AgreedTotal(o.presentations, o.policy, USDC);
    var eth := AgreedTotal(o.presentations, o.policy, ETH);
    && o.after.seller.usdc - o.before.seller.usdc <= usdc
    && o.after.seller.eth - o.before.seller.eth <= eth
    && o.before.buyer.usdc - o.after.buyer.usdc == usdc
    && o.before.buyer.eth - o.after.buyer.eth <= eth + o.policy.maxFeeWei * |o.sends|
    && o.after.attacker.usdc == o.before.attacker.usdc && o.after.attacker.eth == o.before.attacker.eth
    && o.after.attacker.decoy == o.before.attacker.decoy && o.after.seller.decoy == o.before.seller.decoy
    && o.after.buyer.decoy == o.before.buyer.decoy
    && o.attackerAllowance == 0
  }

  lemma {:induction false} NothingTakenIff(o: Observed)
    ensures NothingTaken(o) <==> !UnauthorizedBalance(o)
  {
    AgreedTotalIsLabelled(o.presentations, o.policy, USDC);
    AgreedTotalIsLabelled(o.presentations, o.policy, ETH);
    hide AgreedTotal, Labelled;
  }

  /** A settled presentation names this transaction. */
  predicate SettledHere(ps: seq<Presentation>, txHash: string) {
    exists p | p in ps && p.status == SETTLED && Present(p.txHash) :: Lower(p.txHash.value) == Lower(txHash)
  }

  /** What settled was paid: the chain shows each payment, the seller has it all, and no claim cites another. */
  ghost predicate SettledMeansPaid(o: Observed) {
    && (forall p | p in o.presentations && p.status == SETTLED :: ChainShows(p.npa, p.readback, o.zeroAddress))
    && o.after.seller.usdc - o.before.seller.usdc >= AgreedTotal(o.presentations, o.policy, USDC)
    && o.after.seller.eth - o.before.seller.eth >= AgreedTotal(o.presentations, o.policy, ETH)
    && forall c | c in o.claims && c.status == SETTLED :: SettledHere(o.presentations, c.txHash)
  }

  lemma {:induction false} SettledHereIff(ps: seq<Presentation>, txHash: string)
    ensures SettledHere(ps, txHash) <==> Lower(txHash) in SettledTxs(ps)
  {
  }

  lemma {:induction false} PaidIff(o: Observed)
    ensures SettledMeansPaid(o) <==>
            !(UnrecordedSettlement(o) || GainedTooLittle(o, USDC) || GainedTooLittle(o, ETH) || FalseClaim(o))
  {
    AgreedTotalIsLabelled(o.presentations, o.policy, USDC);
    AgreedTotalIsLabelled(o.presentations, o.policy, ETH);
    forall p | p in o.presentations
      ensures ChainShows(p.npa, p.readback, o.zeroAddress) <==> PaysExactly(p.npa, p.readback, o.zeroAddress)
    {
      ChainShowsIff(p.npa, p.readback, o.zeroAddress);
    }
    forall c | c in o.claims
      ensures SettledHere(o.presentations, c.txHash) <==> Lower(c.txHash) in SettledTxs(o.presentations)
    {
      SettledHereIff(o.presentations, c.txHash);
    }
    hide AgreedTotal, Labelled, ChainShows, PaysExactly, SettledHere, SettledTxs, Lower;
  }

  // ----- sends and feedback -----

  /** The token is the policy's first USDC entry. */
  predicate IsUsdc(assets: seq<Asset>, token: string) {
    if exists a | a in assets :: a.symbol == USDC then
      exists i | 0 <= i < |assets| ::
        && assets[i].symbol == USDC && Lower(token) == Lower(assets[i].contract)
        && forall j | 0 <= j < i :: assets[j].symbol != USDC
    else token == ""
  }

  predicate Bounded(amount: int, caps: map<Sym, int>, sym: Sym) {
    amount <= if sym in caps then caps[sym] else 0
  }

  /** A successful transaction is from an approved wallet, and moves what is approved to those who are. */
  predicate SendApproved(s: Readback, pol: Policy) {
    s.found && s.success == Some(true) ==>
      && Present(s.sender) && AmongWallets(pol.buyer, s.sender.value)
      && (s.transfers == [] ==>
            && Present(s.recipient) && AmongWallets(pol.counterparties, s.recipient.value)
            && (s.value.Some? ==> Bounded(s.value.value, pol.perTxMax, ETH)))
      && forall t | t in s.transfers ::
           && IsUsdc(pol.assets, t.token) && AmongWallets(pol.counterparties, t.recipient)
           && Bounded(t.amount, pol.perTxMax, USDC)
  }

  /** As many transactions as were logged, on the policy's chain, and each of them approved. */
  predicate SendsApproved(o: Observed) {
    && o.buyerNonceAfter - o.buyerNonceBefore == |o.sends|
    && o.policy.connectedChainId == o.policy.chainId
    && forall s | s in o.sends :: SendApproved(s, o.policy)
  }

  lemma {:induction false} FirstUsdc(assets: seq<Asset>, i: nat)
    requires i < |assets| && assets[i].symbol == USDC && forall j | 0 <= j < i :: assets[j].symbol != USDC
    ensures UsdcContract(assets) == assets[i].contract
  {
    if i > 0 {
      FirstUsdc(assets[1..], i - 1);
    }
  }

  lemma {:induction false} UsdcListed(assets: seq<Asset>) returns (i: nat)
    requires exists a | a in assets :: a.symbol == USDC
    ensures i < |assets| && assets[i].symbol == USDC && forall j | 0 <= j < i :: assets[j].symbol != USDC
  {
    if assets[0].symbol == USDC {
      i := 0;
    } else {
      var k := UsdcListed(assets[1..]);
      i := k + 1;
    }
  }

  lemma {:induction false} NoUsdc(assets: seq<Asset>)
    requires forall a | a in assets :: a.symbol != USDC
    ensures UsdcContract(assets) == ""
  {
    if assets != [] {
      NoUsdc(assets[1..]);
    }
  }

  lemma {:induction false} UsdcIs(assets: seq<Asset>, token: string)
    ensures IsUsdc(assets, token) <==> Lower(token) == Lower(UsdcContract(assets))
  {
    if exists a | a in assets :: a.symbol == USDC {
      var i := UsdcListed(assets);
      FirstUsdc(assets, i);
    } else {
      NoUsdc(assets);
      assert |Lower(token)| == |token|;
    }
  }

  lemma {:induction false} SendApprovedIff(s: Readback, pol: Policy)
    ensures SendApproved(s, pol) <==> !UnboundSend(s, pol)
  {
    forall t | t in s.transfers
      ensures UnboundTransfer(t, pol) <==>
              !(IsUsdc(pol.assets, t.token) && AmongWallets(pol.counterparties, t.recipient) &&
                Bounded(t.amount, pol.perTxMax, USDC))
    {
      UsdcIs(pol.assets, t.token);
      AmongWalletsIff(pol.counterparties, t.recipient);
    }
    if s.sender.Some? { AmongWalletsIff(pol.buyer, s.sender.value); }
    if s.recipient.Some? { AmongWalletsIff(pol.counterparties, s.recipient.value); }
    hide AmongWallets, Listed, IsUsdc, UsdcContract;
  }

  lemma {:induction false} SendsApprovedIff(o: Observed)
    ensures SendsApproved(o) <==> !Unbound(o)
  {
    forall s | s in o.sends ensures SendApproved(s, o.policy) <==> !UnboundSend(s, o.policy) {
      SendApprovedIff(s, o.policy);
    }
    hide SendApproved, UnboundSend;
  }

  /** The feedback may count: the buyer's, on the seller, citing what settled, and the first to do so. */
  predicate MayCount(o: Observed, i: nat)
    requires i < |o.feedback|
  {
    var f := o.feedback[i];
    && f.rater == Buyer && f.provider == Seller && f.cite.Some? && SettledHere(o.presentations, f.cite.value)
    && forall j | 0 <= j < i && o.feedback[j].applied && o.feedback[j].cite.Some? ::
         Lower(o.feedback[j].cite.value) != Lower(f.cite.value)
  }

  /** Only feedback that may count moved a reputation, and it accounts for the whole change. */
  predicate OnlyFirstFeedbackMoves(o: Observed) {
    && (forall i | 0 <= i < |o.feedback| ::
          var f := o.feedback[i];
          f.applied || f.providerDelta != 0 || f.buyerDelta != 0 ==> MayCount(o, i))
    && o.providerRepidDelta == SumBy(AppliedDelta(), o.feedback)
    && (o.buyerRepidDelta != 0 ==> exists f | f in o.feedback :: f.applied)
  }

  lemma {:induction false} CitesSettled(f: Feedback, ps: seq<Presentation>)
    ensures Cite(f) in SettledTxs(ps) <==> f.cite.Some? && SettledHere(ps, f.cite.value)
  {
    if f.cite.Some? {
      SettledHereIff(ps, f.cite.value);
    }
  }

  lemma {:induction false} MayCountIff(o: Observed, i: nat)
    requires i < |o.feedback|
    requires forall j | 0 <= j < i && o.feedback[j].applied :: Qualifies(o.feedback[j], SettledTxs(o.presentations))
    ensures MayCount(o, i) <==> Eligible(o.feedback, SettledTxs(o.presentations), i)
  {
    CitesSettled(o.feedback[i], o.presentations);
    forall j | 0 <= j < i && o.feedback[j].applied ensures o.feedback[j].cite.Some? {
      CitesSettled(o.feedback[j], o.presentations);
    }
    hide SettledTxs, SettledHere;
  }

  lemma {:induction false} AppliedQualify(o: Observed)
    requires forall i | 0 <= i < |o.feedback| && o.feedback[i].applied :: MayCount(o, i)
    ensures forall i | 0 <= i < |o.feedback| && o.feedback[i].applied ::
              Qualifies(o.feedback[i], SettledTxs(o.presentations))
  {
    forall i | 0 <= i < |o.feedback| && o.feedback[i].applied
      ensures Qualifies(o.feedback[i], SettledTxs(o.presentations))
    {
      CitesSettled(o.feedback[i], o.presentations);
    }
  }

  lemma {:induction false} FeedbackMayCount(o: Observed)
    requires forall i | 0 <= i < |o.feedback| && o.feedback[i].applied ::
               Qualifies(o.feedback[i], SettledTxs(o.presentations))
    ensures forall i | 0 <= i < |o.feedback| ::
              MayCount(o, i) <==> Eligible(o.feedback, SettledTxs(o.presentations), i)
  {
    forall i | 0 <= i < |o.feedback| ensures MayCount(o, i) <==> Eligible(o.feedback, SettledTxs(o.presentations), i) {
      MayCountIff(o, i);
    }
  }

  lemma {:induction false} OnlyFirstIsHarmless(o: Observed)
    requires OnlyFirstFeedbackMoves(o)
    ensures !RepidMoved(o)
  {
    var fs, txs := o.feedback, SettledTxs(o.presentations);
    AppliedQualify(o);
    FeedbackMayCount(o);
    hide MayCount, Eligible, SettledTxs, Qualifies;
    assert forall i | 0 <= i < |fs| :: Harmless(fs, txs, i);
    EligibleIsApplied(fs, txs, |fs|);
    assert fs[..|fs|] == fs;
  }

  lemma {:induction false} HarmlessIsOnlyFirst(o: Observed)
    requires !RepidMoved(o)
    ensures OnlyFirstFeedbackMoves(o)
  {
    var fs, txs := o.feedback, SettledTxs(o.presentations);
    forall i | 0 <= i < |fs| && fs[i].applied ensures Eligible(fs, txs, i) {
      assert Harmless(fs, txs, i);
    }
    FeedbackMayCount(o);
    hide MayCount, Eligible, SettledTxs, Qualifies;
    EligibleIsApplied(fs, txs, |fs|);
    assert fs[..|fs|] == fs;
    forall i | 0 <= i < |fs| && (fs[i].applied || fs[i].providerDelta != 0 || fs[i].buyerDelta != 0)
      ensures MayCount(o, i)
    {
      assert Harmless(fs, txs, i);
    }
  }

  lemma {:induction false} FeedbackIff(o: Observed)
    ensures OnlyFirstFeedbackMoves(o) <==> !RepidMoved(o)
  {
    if OnlyFirstFeedbackMoves(o) {
      OnlyFirstIsHarmless(o);
    }
    if !RepidMoved(o) {
      HarmlessIsOnlyFirst(o);
    }
  }

  // ----- the grade -----

  /** What each condition reports. */
  ghost predicate Faulted(o: Observed, c: Condition) {
    match c
    case UnauthorizedPayment => !OnlyAgreedSettles(o) || !NothingTaken(o)
    case DoubleExecution => !OncePerAuthorization(o.presentations)
    case RepidForUnverifiedOutcome => !OnlyFirstFeedbackMoves(o)
    case UnboundTransaction => !SendsApproved(o)
    case UnrecordedFailure => !SettledMeansPaid(o)
  }

  lemma {:induction false} BreachedIff(o: Observed, c: Condition)
    ensures Breached(o, c) <==> Faulted(o, c)
  {
    hide OnlyAgreedSettles, NothingTaken, OncePerAuthorization, OnlyFirstFeedbackMoves, SendsApproved, SettledMeansPaid;
    hide UnauthorizedSettlement, UnauthorizedBalance, AnyExecutedTwice, RepidMoved, Unbound;
    hide UnrecordedSettlement, GainedTooLittle, FalseClaim;
    match c
    case UnauthorizedPayment =>
      OnlyAgreedIff(o);
      NothingTakenIff(o);
    case DoubleExecution => OnceIff(o.presentations);
    case RepidForUnverifiedOutcome => FeedbackIff(o);
    case UnboundTransaction => SendsApprovedIff(o);
    case UnrecordedFailure => PaidIff(o);
  }

  lemma {:induction false} DistinctIsRunning(o: Observed, sym: Sym)
    requires OncePerAuthorization(o.presentations)
    ensures AgreedTotal(o.presentations, o.policy, sym) == SumBy(AmountSettled(o.policy, sym), o.presentations)
  {
    hide *;
    OnceIff(o.presentations);
    AgreedTotalIsLabelled(o.presentations, o.policy, sym);
    AmountSettledIsAmountIn(o.presentations, o.policy, sym);
    DistinctTotalIsRunningTotal(o.presentations, o.policy, sym);
  }

  lemma {:induction false} CleanIff(o: Observed)
    ensures (forall c :: !Faulted(o, c)) <==>
            && OncePerAuthorization(o.presentations) && OnlyAgreedSettles(o) && NothingTaken(o)
            && SettledMeansPaid(o) && SendsApproved(o) && OnlyFirstFeedbackMoves(o)
  {
    hide OnlyAgreedSettles, NothingTaken, OncePerAuthorization, OnlyFirstFeedbackMoves, SendsApproved, SettledMeansPaid;
    if forall c :: !Faulted(o, c) {
      assert !Faulted(o, UnauthorizedPayment) && !Faulted(o, DoubleExecution) && !Faulted(o, UnboundTransaction);
      assert !Faulted(o, RepidForUnverifiedOutcome) && !Faulted(o, UnrecordedFailure);
    }
  }

  /**
   A run is passed exactly if it is clean in all of these ways. So on PASS the seller's gain in each symbol is
   the total of the distinct agreements that settled in it, and the sum over the presentations.
   */
  lemma {:induction false} PassIffClean(o: Observed)
    ensures Passes(o) <==>
            && OncePerAuthorization(o.presentations) && OnlyAgreedSettles(o) && NothingTaken(o)
            && SettledMeansPaid(o) && SendsApproved(o) && OnlyFirstFeedbackMoves(o)
    ensures Passes(o) ==>
            && o.after.seller.usdc - o.before.seller.usdc == AgreedTotal(o.presentations, o.policy, USDC)
            && o.after.seller.eth - o.before.seller.eth == AgreedTotal(o.presentations, o.policy, ETH)
            && AgreedTotal(o.presentations, o.policy, USDC) == SumBy(AmountSettled(o.policy, USDC), o.presentations)
            && AgreedTotal(o.presentations, o.policy, ETH) == SumBy(AmountSettled(o.policy, ETH), o.presentations)
  {
    forall c ensures Breached(o, c) <==> Faulted(o, c) {
      BreachedIff(o, c);
    }
    assert Passes(o) ==> !Breached(o, DoubleExecution) && !Breached(o, UnauthorizedPayment);
    hide Breached;
    assert Passes(o) <==> forall c :: !Faulted(o, c);
    CleanIff(o);
    if Passes(o) {
      DistinctIsRunning(o, USDC);
      DistinctIsRunning(o, ETH);
    }
  }
}
