/**
 One run of a variant: the agreement is presented once, several times in a row, or at once, with the hex
 fields of later presentations in other letter case. What the executor answers to each presentation, when
 each is presented and in which order concurrent ones complete are inputs, and may be anything.
 */
module VariantRun {
  import opened Options
  import opened Npa
  import opened Sums
  import opened VariantGrader
  import opened VariantGuarantees

  datatype Plan = Plan(count: nat, concurrent: bool, restartBetween: bool, recase: bool)

  /** The executor's answer to one presentation. */
  datatype Attempt = Attempt(status: Status, txHash: Option<string>, readback: Option<Readback>)

  /**
   What a run presents: the base agreement and request, whether later presentations are recased, and what
   the world contributes to each presentation. `hash` is the executor's hash of an agreement as spelled.
   */
  datatype Run = Run(
    base: Npa, operation: string, buyerSigned: bool, sellerSigned: bool, request: Request, recase: bool,
    clock: nat -> int, answers: nat -> Attempt, hash: Npa -> string)

  function UpperChar(c: char): char {
    if 'a' <= c <= 'z' then c - ('a' - 'A') else c
  }

  function Upper(s: string): (r: string)
    ensures |r| == |s| && forall i | 0 <= i < |s| :: r[i] == UpperChar(s[i])
  {
    if s == "" then "" else [UpperChar(s[0])] + Upper(s[1..])
  }

  /** The hex digits of a text in upper case, behind a lower-case prefix. */
  function Up(h: string): string {
    "0x" + Upper(if |h| >= 2 then h[2..] else "")
  }

  function UpField(n: Npa, key: string): Npa {
    if key in n.extra && n.extra[key].Text? then n.(extra := n.extra[key := Text(Up(n.extra[key].text))]) else n
  }

  function Recase(k: nat, n: Npa): Npa {
    if k == 0 then n.(seller := Lower(n.seller))
    else if k == 1 then UpField(n, "nonce")
    else if k == 2 then UpField(n, "service_hash")
    else UpField(UpField(n.(buyer := Lower(n.buyer), seller := Lower(n.seller)), "nonce"), "service_hash")
  }

  function NpaFor(n: Npa, recase: bool, i: nat): Npa {
    if i == 0 || !recase then n else Recase((i - 1) % 4, n)
  }

  predicate HexField(n: Npa, key: string) {
    key in n.extra && n.extra[key].Text? && IsHex(n.extra[key].text)
  }

  /** An agreement as the runner builds it: addresses, nonce and service hash are hex text. */
  predicate HexFields(n: Npa) {
    IsHex(n.buyer) && IsHex(n.seller) && HexField(n, "nonce") && HexField(n, "service_hash")
  }

  // ----- every presentation of a run is the same authorization -----

  lemma {:induction false} LowerUpper(s: string)
    ensures Lower(Upper(s)) == Lower(s)
  {
    assert forall i | 0 <= i < |s| :: LowerChar(UpperChar(s[i])) == LowerChar(s[i]);
  }

  lemma {:induction false} UpIsRespelling(h: string)
    requires IsHex(h)
    ensures Spelled(Up(h)) == Spelled(h) && IsHex(Up(h))
  {
    LowerUpper(h[2..]);
    assert Up(h)[2..] == Upper(h[2..]);
    forall i | 0 <= i < |h| ensures Lower(Up(h))[i] == Lower(h)[i] {
      assert i >= 2 ==> Lower(Up(h))[i] == Lower(Upper(h[2..]))[i - 2] && Lower(h)[i] == Lower(h[2..])[i - 2];
    }
    assert Lower(Up(h)) == Lower(h);
    HexStaysHex(h);
    HexStaysHex(Up(h));
  }

  lemma {:induction false} LowerIsRespelling(h: string)
    requires IsHex(h)
    ensures Spelled(Lower(h)) == Spelled(h)
  {
    HexStaysHex(h);
    LowerTwice(h);
  }

  lemma {:induction false} UpFieldKeepsIdentity(n: Npa, key: string)
    requires HexField(n, key)
    ensures Identity(UpField(n, key)) == Identity(n)
    ensures forall k | HexField(n, k) :: HexField(UpField(n, key), k)
  {
    UpIsRespelling(n.extra[key].text);
    var m := UpField(n, key);
    assert (map k | k in m.extra :: SpelledValue(m.extra[k])) == (map k | k in n.extra :: SpelledValue(n.extra[k]));
  }

  lemma {:induction false} LowerPartiesKeepsIdentity(n: Npa)
    requires HexFields(n)
    ensures var m := n.(seller := Lower(n.seller)); HexFields(m) && Identity(m) == Identity(n)
    ensures var m := n.(buyer := Lower(n.buyer), seller := Lower(n.seller)); HexFields(m) && Identity(m) == Identity(n)
  {
    HexStaysHex(n.buyer);
    HexStaysHex(n.seller);
    LowerIsRespelling(n.buyer);
    LowerIsRespelling(n.seller);
  }

  /** Whatever the index, recasing leaves one and the same authorization. */
  lemma {:induction false} RecaseKeepsIdentity(n: Npa, recase: bool, i: nat)
    requires HexFields(n)
    ensures Identity(NpaFor(n, recase, i)) == Identity(n)
  {
    LowerPartiesKeepsIdentity(n);
    var lowered := n.(buyer := Lower(n.buyer), seller := Lower(n.seller));
    UpFieldKeepsIdentity(n, "nonce");
    UpFieldKeepsIdentity(n, "service_hash");
    UpFieldKeepsIdentity(lowered, "nonce");
    UpFieldKeepsIdentity(UpField(lowered, "nonce"), "service_hash");
  }

  // ----- how later presentations are spelled -----

  predicate InLowerCase(s: string) {
    forall j | 0 <= j < |s| :: !('A' <= s[j] <= 'Z')
  }

  predicate DigitsInUpperCase(s: string) {
    |s| >= 2 && s[..2] == "0x" && forall j | 2 <= j < |s| :: !('a' <= s[j] <= 'z')
  }

  /** The field is the same letters in lower case, or is left alone. */
  predicate LoweredIf(recased: bool, was: string, becomes: string) {
    if recased then InLowerCase(becomes) && Same(was, becomes) else becomes == was
  }

  /** The field holds the same hex number with upper-case digits, or is left alone. */
  predicate RaisedIf(recased: bool, was: Npa, becomes: Npa, key: string)
    requires HexField(was, key)
  {
    key in becomes.extra &&
    if recased then
      && becomes.extra[key].Text? && DigitsInUpperCase(becomes.extra[key].text)
      && Same(was.extra[key].text, becomes.extra[key].text)
    else becomes.extra[key] == was.extra[key]
  }

  lemma {:induction false} UpperIsUpper(s: string)
    ensures forall j | 0 <= j < |Upper(s)| :: !('a' <= Upper(s)[j] <= 'z')
  {
  }

  lemma {:induction false} UpRaises(h: string)
    requires IsHex(h)
    ensures DigitsInUpperCase(Up(h)) && Same(h, Up(h))
  {
    UpIsRespelling(h);
    SpelledSame(h, Up(h));
    UpperIsUpper(h[2..]);
    hide Upper, Lower, Same, IsHex, SameText, Spelled;
    assert Up(h) == "0x" + Upper(h[2..]);
    assert ("0x" + Upper(h[2..]))[..2] == "0x";
    assert forall j | 2 <= j < |Up(h)| :: Up(h)[j] == Upper(h[2..])[j - 2];
  }

  lemma {:induction false} LowerIsLower(s: string)
    ensures InLowerCase(Lower(s)) && Same(s, Lower(s))
  {
    LowerTwice(s);
  }

  lemma {:induction false} DifferentKeys()
    ensures "nonce" != "service_hash"
  {
    assert "nonce"[0] != "service_hash"[0];
  }

  lemma {:induction false} UpFieldRaises(n: Npa, key: string)
    requires HexField(n, key)
    ensures var m := UpField(n, key);
            && RaisedIf(true, n, m, key) && m == n.(extra := m.extra) && m.extra.Keys == n.extra.Keys
            && forall other | other in n.extra && other != key :: m.extra[other] == n.extra[other]
  {
    UpRaises(n.extra[key].text);
    hide Up, DigitsInUpperCase, Same, IsHex;
  }

  /** What differs in the spelling with this number. */
  ghost predicate RecasedAs(k: nat, n: Npa, m: Npa)
    requires HexFields(n)
  {
    && LoweredIf(k == 1 || k == 0, n.seller, m.seller) && LoweredIf(k == 0, n.buyer, m.buyer)
    && RaisedIf(k == 2 || k == 0, n, m, "nonce") && RaisedIf(k == 3 || k == 0, n, m, "service_hash")
    && m == n.(buyer := m.buyer, seller := m.seller, extra := m.extra)
    && m.extra.Keys == n.extra.Keys
    && forall key | key in n.extra && key != "nonce" && key != "service_hash" :: m.extra[key] == n.extra[key]
  }

  lemma {:induction false} RecaseSpells(k: nat, n: Npa)
    requires HexFields(n) && k < 4
    ensures RecasedAs((k + 1) % 4, n, Recase(k, n))
  {
    DifferentKeys();
    LowerIsLower(n.seller);
    LowerIsLower(n.buyer);
    var lowered := n.(buyer := Lower(n.buyer), seller := Lower(n.seller));
    UpFieldRaises(n, "nonce");
    UpFieldRaises(n, "service_hash");
    UpFieldRaises(lowered, "nonce");
    UpFieldRaises(UpField(lowered, "nonce"), "service_hash");
    hide Lower, UpField, InLowerCase, DigitsInUpperCase, IsHex, Same;
  }

  /**
   With recasing, the presentations after the first take turns: the seller in lower case, the nonce in upper
   case, the service hash in upper case, and all of these and the buyer. Nothing else changes.
   */
  lemma {:induction false} RecasedSpelling(n: Npa, i: nat)
    requires HexFields(n)
    ensures NpaFor(n, false, i) == n && NpaFor(n, true, 0) == n
    ensures i > 0 ==> RecasedAs(i % 4, n, NpaFor(n, true, i))
  {
    hide RecasedAs, Recase, HexFields;
    if i > 0 {
      RecaseSpells((i - 1) % 4, n);
    }
  }

  // ----- the presentation loop -----

  /** The i-th presentation, as grading will see it. */
  function PresentedAt(run: Run, i: nat): Presentation {
    var n, a := NpaFor(run.base, run.recase, i), run.answers(i);
    Presentation(run.clock(i), run.operation, n, run.hash(n), run.buyerSigned, run.sellerSigned, run.request,
                 a.status, a.txHash, a.readback)
  }

  function Presented(run: Run): nat -> Presentation {
    (i: nat) => PresentedAt(run, i)
  }

  function Range(lo: nat, hi: nat): (r: seq<nat>)
    requires lo <= hi
    ensures |r| == hi - lo && forall k | 0 <= k < |r| :: r[k] == lo + k
  {
    if lo == hi then [] else Range(lo, hi - 1) + [hi - 1]
  }

  /** The first n presentations in index order. */
  function InOrder(run: Run, n: nat): seq<Presentation> {
    Image(Presented(run), Range(0, n))
  }

  /** The presentation records the i-th agreement as spelled, and what the world made of presenting it. */
  predicate Records(run: Run, i: nat, p: Presentation) {
    && p.npa == NpaFor(run.base, run.recase, i) && p.npaHash == run.hash(p.npa)
    && p.at == run.clock(i) && p.operation == run.operation && p.request == run.request
    && p.buyerSigned == run.buyerSigned && p.sellerSigned == run.sellerSigned
    && p.status == run.answers(i).status && p.txHash == run.answers(i).txHash && p.readback == run.answers(i).readback
  }

  lemma {:induction false} InOrderRecords(run: Run, n: nat)
    ensures |InOrder(run, n)| == n && forall i | 0 <= i < n :: Records(run, i, InOrder(run, n)[i])
  {
  }

  /** Presents once per index, in the given order, recording each when it completes. */
  method PresentEach(run: Run, indices: seq<nat>) returns (presented: seq<Presentation>)
    ensures presented == Image(Presented(run), indices)
  {
    presented := [];
    for k := 0 to |indices|
      invariant presented == Image(Presented(run), indices[..k])
    {
      assert indices[..k + 1][..k] == indices[..k];
      presented := presented + [Presented(run)(indices[k])];
    }
    assert indices[..|indices|] == indices;
  }

  lemma {:induction false} ImageConcat<T, R>(f: T -> R, s: seq<T>, t: seq<T>)
    ensures Image(f, s + t) == Image(f, s) + Image(f, t)
  {
  }

  lemma {:induction false} ImageIsOneAuthorization(run: Run, order: seq<nat>)
    requires HexFields(run.base)
    ensures forall p | p in Image(Presented(run), order) :: Identity(p.npa) == Identity(run.base)
  {
    forall p | p in Image(Presented(run), order) ensures Identity(p.npa) == Identity(run.base) {
      var k :| 0 <= k < |order| && Image(Presented(run), order)[k] == p;
      RecaseKeepsIdentity(run.base, run.recase, order[k]);
    }
  }

  /**
   Presents the agreement `plan.count` times: in sequence, all at once, or the first alone (before a
   restart) and the rest at once. `completion` lists the concurrent ones in the order they complete.
   Whatever that order is, grading sees the same presentations, all of one authorization.
   */
  method RunPresentations(run: Run, plan: Plan, completion: seq<nat>) returns (presented: seq<Presentation>)
    requires HexFields(run.base)
    requires plan.concurrent ==>
               multiset(completion) == multiset(if plan.restartBetween && plan.count > 1 then Range(1, plan.count)
                                                else Range(0, plan.count))
    ensures exists ps: seq<Presentation> ::
              && |ps| == plan.count && (forall i | 0 <= i < |ps| :: Records(run, i, ps[i]))
              && multiset(presented) == multiset(ps) && (!plan.concurrent ==> presented == ps)
    ensures multiset(presented) == multiset(InOrder(run, plan.count))
    ensures !plan.concurrent ==> presented == InOrder(run, plan.count)
    ensures forall p | p in presented :: Identity(p.npa) == Identity(run.base)
  {
    hide Identity, Presented, HexFields, Records;
    InOrderRecords(run, plan.count);
    var order: seq<nat> := [];
    if !plan.concurrent {
      order := Range(0, plan.count);
      presented := PresentEach(run, order);
    } else if plan.restartBetween && plan.count > 1 {
      presented := PresentEach(run, [0]);
      var rest := PresentEach(run, completion);
      ImageConcat(Presented(run), [0], completion);
      presented := presented + rest;
      order := [0] + completion;
      assert Range(0, plan.count) == [0] + Range(1, plan.count);
    } else {
      order := completion;
      presented := PresentEach(run, order);
    }
    ImagePermutation(Presented(run), order, Range(0, plan.count));
    ImageIsOneAuthorization(run, order);
  }

  // ----- what a PASS says about one run -----

  /** The observations of a run: all presentations carry one authorization. */
  predicate OneAuthorization(o: Observed, base: Npa) {
    forall p | p in o.presentations :: Identity(p.npa) == Identity(base)
  }

  lemma {:induction false} LabelledOnce(o: Observed, base: Npa, sym: Sym)
    requires OneAuthorization(o, base)
    ensures Labelled(o.presentations, o.policy, sym) == 0 || Labelled(o.presentations, o.policy, sym) == AmountOf(base)
  {
    var id, ids := Identity(base), SettledIdsIn(o.presentations, o.policy, sym);
    assert ids <= {id};
    SpelledTwice(base.amountRaw);
    SpelledAmount(id.amountRaw, base.amountRaw);
    if id in ids {
      SumOverRemove(AgreedAmount(), ids, id);
      assert ids - {id} == {};
    } else {
      assert ids == {};
    }
  }

  lemma {:induction false} NoneCounted(ps: seq<Presentation>)
    requires forall i | 0 <= i < |ps| :: !Settled(ps[i])
    ensures SumBy(SettledCount(), ps) == 0
  {
    if ps != [] {
      NoneCounted(ps[1..]);
    }
  }

  lemma {:induction false} AtMostOneCounted(ps: seq<Presentation>)
    requires forall i, j | 0 <= i < j < |ps| :: !(Settled(ps[i]) && Settled(ps[j]))
    ensures SumBy(SettledCount(), ps) <= 1
  {
    if ps != [] {
      AtMostOneCounted(ps[1..]);
      if Settled(ps[0]) {
        NoneCounted(ps[1..]);
      }
    }
  }

  lemma {:induction false} OneAuthorizationPaysOnce(o: Observed, base: Npa, sym: Sym)
    requires Passes(o) && OneAuthorization(o, base)
    ensures forall i, j | 0 <= i < j < |o.presentations| ::
              !(Settled(o.presentations[i]) && Settled(o.presentations[j]))
    ensures forall p, q | p in o.presentations && q in o.presentations && PaidTx(p).Some? && PaidTx(q).Some? ::
              PaidTx(p) == PaidTx(q)
    ensures SellerGain(o, sym) == 0 || SellerGain(o, sym) == AmountOf(base)
    ensures SumBy(SettledCount(), o.presentations) <= 1 && SumBy(AppliedCount(), o.feedback) <= 1
  {
    var ps := o.presentations;
    assert !Breached(o, DoubleExecution);
    forall i, j | 0 <= i < j < |ps| ensures !(Settled(ps[i]) && Settled(ps[j])) {
      assert ps[i] in ps && ps[j] in ps && !ExecutedTwice(ps[i], ps[j]);
    }
    forall p, q | p in ps && q in ps && PaidTx(p).Some? && PaidTx(q).Some? ensures PaidTx(p) == PaidTx(q) {
      var i :| 0 <= i < |ps| && ps[i] == p;
      var j :| 0 <= j < |ps| && ps[j] == q;
      assert i < j ==> !ExecutedTwice(ps[i], ps[j]);
      assert j < i ==> !ExecutedTwice(ps[j], ps[i]);
    }
    AtMostOneCounted(ps);
    PassBoundsReputation(o);
    PassBoundsMoney(o, sym);
    LabelledOnce(o, base, sym);
  }

  /**
   Whatever its plan, a passing run settled its agreement at most once, paid it in at most one transaction,
   moved either nothing or exactly the agreed amount, and let at most one feedback move RepID.
   */
  lemma {:induction false} PassingRunPaysAtMostOnce(o: Observed, run: Run, n: nat, sym: Sym)
    requires Passes(o) && HexFields(run.base) && multiset(o.presentations) == multiset(InOrder(run, n))
    ensures forall i, j | 0 <= i < j < |o.presentations| ::
              !(Settled(o.presentations[i]) && Settled(o.presentations[j]))
    ensures forall p, q | p in o.presentations && q in o.presentations && PaidTx(p).Some? && PaidTx(q).Some? ::
              PaidTx(p) == PaidTx(q)
    ensures var gained := if sym == USDC then o.after.seller.usdc - o.before.seller.usdc
                          else o.after.seller.eth - o.before.seller.eth;
            gained == 0 || gained == AmountOf(run.base)
    ensures SumBy(SettledCount(), o.presentations) <= 1 && SumBy(AppliedCount(), o.feedback) <= 1
  {
    ImageIsOneAuthorization(run, Range(0, n));
    forall p | p in o.presentations ensures Identity(p.npa) == Identity(run.base) {
      assert p in multiset(o.presentations);
      assert p in InOrder(run, n);
    }
    OneAuthorizationPaysOnce(o, run.base, sym);
  }

  /** A concurrent run is graded as if its presentations had been made one after another. */
  lemma {:induction false} ConcurrentGradesAsSequential(o: Observed, run: Run, n: nat)
    requires multiset(o.presentations) == multiset(InOrder(run, n))
    ensures forall c :: Breached(o, c) <==> Breached(o.(presentations := InOrder(run, n)), c)
  {
    GradeIgnoresOrder(o, o.(presentations := InOrder(run, n)));
  }

  lemma {:induction false} RecasedOrderIsRespelled(run: Run, n: nat)
    requires HexFields(run.base)
    ensures var ps, qs := InOrder(run, n), InOrder(run.(recase := false), n);
            |ps| == |qs| && forall i | 0 <= i < |ps| :: Respelled(ps[i], qs[i])
  {
    forall i: nat | i < n ensures Respelled(PresentedAt(run, i), PresentedAt(run.(recase := false), i)) {
      RecaseKeepsIdentity(run.base, run.recase, i);
    }
  }

  /** And recasing later presentations is graded as if they had all been spelled the same. */
  lemma {:induction false} RecasedGradesAsPlain(o: Observed, run: Run, n: nat)
    requires HexFields(run.base) && o.presentations == InOrder(run, n)
    ensures forall c :: Breached(o, c) <==> Breached(o.(presentations := InOrder(run.(recase := false), n)), c)
  {
    RecasedOrderIsRespelled(run, n);
    GradeIgnoresSpelling(o, o.(presentations := InOrder(run.(recase := false), n)));
  }
}
