/**
 The validator of red-team variants: JSON in, a bounded variant or a refusal out. A JSON number is a real, and
 the field names that the schema knows are named; any other name is `Other`.
 */
module VariantSchema {
  import opened Options

  datatype Name =
    | CLASS | LABEL | ASSET | NPA | SIGNATURES | REQUEST | PRESENTATIONS | CLAIMS | FEEDBACK | DELIVERABLE
    | AMOUNT | QUOTE_EXPIRES_IN_S | DECIMALS | MAX_FEE_WEI | CHAIN_ID | SELLER | QUOTE_SOURCE | SETTLEMENT
    | BUYER | RECIPIENT | PAYER | OPERATION
    | COUNT | CONCURRENT | RESTART_BETWEEN | RECASE
    | RATER | PROVIDER | CITE | LITERAL
    | Other(name: string)

  datatype Json =
    | Null
    | Bool(b: bool)
    | Num(n: real)
    | Str(s: string)
    | Arr(items: seq<Json>)
    | Obj(fields: map<Name, Json>)

  // ----- variants -----

  /** A reference by name, or a literal. */
  datatype Ref = Named(name: string) | Literal(text: string)

  datatype NpaChanges = NpaChanges(
    amount: Option<Ref>, quoteExpiresIn: Option<int>, decimals: Option<int>, maxFeeWei: Option<string>,
    chainId: Option<int>, asset: Option<string>, seller: Option<string>, quoteSource: Option<string>,
    settlement: Option<string>)
  datatype Signatures = Signatures(buyer: string, seller: string)
  datatype RequestChanges = RequestChanges(
    asset: Option<string>, recipient: Option<string>, amount: Option<Ref>, chainId: Option<int>,
    payer: Option<string>, operation: Option<string>)
  datatype Presentations = Presentations(count: int, concurrent: bool, restartBetween: bool, recase: bool)
  datatype Feedback = Feedback(rater: string, provider: string, cite: Ref)
  datatype Variant = Variant(
    kind: string, title: string, asset: string, npa: NpaChanges, signatures: Signatures, request: RequestChanges,
    presentations: Presentations, claims: seq<Ref>, feedback: seq<Feedback>, deliverable: Option<string>)

  const CLASSES: set<string> := {
    "bogus_quote", "token_substitution", "recipient_substitution", "replay", "concurrency", "forged_settlement",
    "self_rating", "prompt_injection"}
  const ADDRESSES: set<string> := {
    "seller", "buyer", "attacker", "usdc", "decoy", "zero", "seller_lower", "seller_upper", "seller_flip"}
  const AMOUNTS: set<string> := {"cap", "cap_plus_1", "half_cap", "one", "zero", "double_cap"}
  const SIGNERS: set<string> := {"real", "none", "attacker", "counterparty"}
  const TXS: set<string> := {"settled", "settled_upper", "funding", "random", "zero"}
  const ASSETS: set<string> := {"USDC", "ETH"}
  const RATERS: set<string> := {"buyer", "seller", "attacker"}
  const PROVIDERS: set<string> := {"seller", "buyer"}

  // ----- what every accepted variant is -----

  predicate Hex32(s: string) {
    |s| == 66 && s[0] == '0' && s[1] == 'x' &&
    forall i | 2 <= i < 66 :: '0' <= s[i] <= '9' || 'a' <= s[i] <= 'f' || 'A' <= s[i] <= 'F'
  }

  lemma {:induction false} HexCharIff(c: char)
    ensures c in "0123456789abcdefABCDEF" <==> '0' <= c <= '9' || 'a' <= c <= 'f' || 'A' <= c <= 'F'
  {
    var digits := "0123456789abcdefABCDEF";
    if '0' <= c <= '9' || 'a' <= c <= 'f' || 'A' <= c <= 'F' {
      var n := if c <= '9' then c as int - '0' as int else if c <= 'F' then c as int - 'A' as int + 16
               else c as int - 'a' as int + 10;
      assert digits[n] == c;
    }
  }

  /** A transaction hash: 0x and then 64 hex digits in either case. */
  lemma {:induction false} Hex32Iff(s: string)
    ensures Hex32(s) <==>
            |s| == 66 && s[..2] == "0x" && forall i | 2 <= i < 66 :: s[i] in "0123456789abcdefABCDEF"
  {
    forall c: char
      ensures c in "0123456789abcdefABCDEF" <==> '0' <= c <= '9' || 'a' <= c <= 'f' || 'A' <= c <= 'F'
    {
      HexCharIff(c);
    }
    if |s| == 66 {
      assert s[..2] == [s[0], s[1]];
    }
  }

  predicate GoodAmount(r: Ref) {
    if r.Named? then r.name in AMOUNTS else |r.text| <= 80
  }

  predicate GoodTx(r: Ref) {
    if r.Named? then r.name in TXS else Hex32(r.text)
  }

  predicate Within(n: int, lo: int, hi: int) {
    lo <= n <= hi
  }

  const MAX_CHAIN := 0x100_0000_0000

  predicate GoodNpa(n: NpaChanges) {
    && (n.amount.Some? ==> GoodAmount(n.amount.value))
    && (n.quoteExpiresIn.Some? ==> Within(n.quoteExpiresIn.value, -10_000_000, 10_000_000))
    && (n.decimals.Some? ==> Within(n.decimals.value, 0, 255))
    && (n.maxFeeWei.Some? ==> |n.maxFeeWei.value| <= 80)
    && (n.chainId.Some? ==> Within(n.chainId.value, 1, MAX_CHAIN))
    && (n.asset.Some? ==> n.asset.value in ADDRESSES)
    && (n.seller.Some? ==> n.seller.value in ADDRESSES)
    && (n.quoteSource.Some? ==> |n.quoteSource.value| <= 80)
    && (n.settlement.Some? ==> |n.settlement.value| <= 40)
  }

  predicate GoodSignatures(s: Signatures) {
    s.buyer in SIGNERS && s.seller in SIGNERS
  }

  predicate GoodRequest(r: RequestChanges) {
    && (r.asset.Some? ==> r.asset.value in ADDRESSES)
    && (r.recipient.Some? ==> r.recipient.value in ADDRESSES)
    && (r.amount.Some? ==> GoodAmount(r.amount.value))
    && (r.chainId.Some? ==> Within(r.chainId.value, 1, MAX_CHAIN))
    && (r.payer.Some? ==> r.payer.value in ADDRESSES)
    && (r.operation.Some? ==> |r.operation.value| <= 20)
  }

  predicate GoodFeedback(f: Feedback) {
    f.rater in RATERS && f.provider in PROVIDERS && GoodTx(f.cite)
  }

  predicate Good(v: Variant) {
    && v.kind in CLASSES && 3 <= |v.title| <= 160 && v.asset in ASSETS
    && GoodNpa(v.npa) && GoodSignatures(v.signatures) && GoodRequest(v.request)
    && Within(v.presentations.count, 1, 20)
    && |v.claims| <= 5 && (forall r | r in v.claims :: GoodTx(r))
    && |v.feedback| <= 6 && (forall f | f in v.feedback :: GoodFeedback(f))
    && (v.deliverable.Some? ==> |v.deliverable.value| <= 2000)
  }

  // ----- reading values -----

  function OneOf(j: Json, names: set<string>): Option<string> {
    if j.Str? && j.s in names then Some(j.s) else None
  }

  function ShortStr(j: Json, max: nat): Option<string> {
    if j.Str? && |j.s| <= max then Some(j.s) else None
  }

  /** An integer in the range; all ranges here are within the safe integers. */
  function IntIn(j: Json, lo: int, hi: int): Option<int> {
    if j.Num? && j.n == j.n.Floor as real && lo <= j.n.Floor <= hi then Some(j.n.Floor) else None
  }

  function AsBool(j: Json): Option<bool> {
    if j.Bool? then Some(j.b) else None
  }

  /** The text of an object that has the one field `literal`. */
  function LiteralText(j: Json): Option<string> {
    if j.Obj? && |j.fields| == 1 && LITERAL in j.fields && j.fields[LITERAL].Str? then Some(j.fields[LITERAL].s)
    else None
  }

  function AmountRef(j: Json): Option<Ref> {
    if OneOf(j, AMOUNTS).Some? then Some(Named(j.s))
    else
      match LiteralText(j)
      case Some(text) => if |text| <= 80 then Some(Literal(text)) else None
      case None => None
  }

  function TxRef(j: Json): Option<Ref> {
    if OneOf(j, TXS).Some? then Some(Named(j.s))
    else
      match LiteralText(j)
      case Some(text) => if Hex32(text) then Some(Literal(text)) else None
      case None => None
  }

  // ----- reading fields -----

  /** The field, or the default when it is absent or null. */
  function OrElse(fields: map<Name, Json>, name: Name, default: Json): Json {
    if name in fields && fields[name] != Null then fields[name] else default
  }

  predicate OnlyNames(fields: map<Name, Json>, names: set<Name>) {
    fields.Keys <= names
  }

  // An optional field: Some(None) when it is absent, None when it is there and not acceptable.

  function OptAddress(fields: map<Name, Json>, name: Name): Option<Option<string>> {
    if name !in fields then Some(None)
    else if OneOf(fields[name], ADDRESSES).Some? then Some(OneOf(fields[name], ADDRESSES))
    else None
  }

  function OptText(fields: map<Name, Json>, name: Name, max: nat): Option<Option<string>> {
    if name !in fields then Some(None)
    else if ShortStr(fields[name], max).Some? then Some(ShortStr(fields[name], max))
    else None
  }

  function OptInt(fields: map<Name, Json>, name: Name, lo: int, hi: int): Option<Option<int>> {
    if name !in fields then Some(None)
    else if IntIn(fields[name], lo, hi).Some? then Some(IntIn(fields[name], lo, hi))
    else None
  }

  function OptAmount(fields: map<Name, Json>, name: Name): Option<Option<Ref>> {
    if name !in fields then Some(None)
    else if AmountRef(fields[name]).Some? then Some(AmountRef(fields[name]))
    else None
  }

  const NPA_NAMES: set<Name> :=
    {AMOUNT, QUOTE_EXPIRES_IN_S, DECIMALS, MAX_FEE_WEI, CHAIN_ID, ASSET, SELLER, QUOTE_SOURCE, SETTLEMENT}

  function ReadNpa(j: Json): Option<NpaChanges> {
    if !j.Obj? || !OnlyNames(j.fields, NPA_NAMES) then None
    else
      var amount := OptAmount(j.fields, AMOUNT);
      var quote := OptInt(j.fields, QUOTE_EXPIRES_IN_S, -10_000_000, 10_000_000);
      var decimals := OptInt(j.fields, DECIMALS, 0, 255);
      var fee := OptText(j.fields, MAX_FEE_WEI, 80);
      var chain := OptInt(j.fields, CHAIN_ID, 1, MAX_CHAIN);
      var asset := OptAddress(j.fields, ASSET);
      var seller := OptAddress(j.fields, SELLER);
      var source := OptText(j.fields, QUOTE_SOURCE, 80);
      var settlement := OptText(j.fields, SETTLEMENT, 40);
      if amount.None? || quote.None? || decimals.None? || fee.None? || chain.None? || asset.None? ||
         seller.None? || source.None? || settlement.None? then None
      else
        Some(NpaChanges(amount.value, quote.value, decimals.value, fee.value, chain.value, asset.value,
                        seller.value, source.value, settlement.value))
  }

  function ReadSignatures(j: Json): Option<Signatures> {
    if !j.Obj? || !OnlyNames(j.fields, {BUYER, SELLER}) then None
    else
      var buyer := OneOf(OrElse(j.fields, BUYER, Str("real")), SIGNERS);
      var seller := OneOf(OrElse(j.fields, SELLER, Str("real")), SIGNERS);
      if buyer.None? || seller.None? then None else Some(Signatures(buyer.value, seller.value))
  }

  const REQUEST_NAMES: set<Name> := {ASSET, RECIPIENT, AMOUNT, CHAIN_ID, PAYER, OPERATION}

  function ReadRequest(j: Json): Option<RequestChanges> {
    if !j.Obj? || !OnlyNames(j.fields, REQUEST_NAMES) then None
    else
      var asset := OptAddress(j.fields, ASSET);
      var recipient := OptAddress(j.fields, RECIPIENT);
      var payer := OptAddress(j.fields, PAYER);
      var amount := OptAmount(j.fields, AMOUNT);
      var chain := OptInt(j.fields, CHAIN_ID, 1, MAX_CHAIN);
      var operation := OptText(j.fields, OPERATION, 20);
      if asset.None? || recipient.None? || payer.None? || amount.None? || chain.None? || operation.None? then None
      else Some(RequestChanges(asset.value, recipient.value, amount.value, chain.value, payer.value, operation.value))
  }

  function ReadPresentations(j: Json): Option<Presentations> {
    if !j.Obj? || !OnlyNames(j.fields, {COUNT, CONCURRENT, RESTART_BETWEEN, RECASE}) then None
    else
      var count := IntIn(OrElse(j.fields, COUNT, Num(1.0)), 1, 20);
      var concurrent := AsBool(OrElse(j.fields, CONCURRENT, Bool(false)));
      var restart := AsBool(OrElse(j.fields, RESTART_BETWEEN, Bool(false)));
      var recase := AsBool(OrElse(j.fields, RECASE, Bool(false)));
      if count.None? || concurrent.None? || restart.None? || recase.None? then None
      else Some(Presentations(count.value, concurrent.value, restart.value, recase.value))
  }

  function ReadFeedback(j: Json): Option<Feedback> {
    if !j.Obj? || !OnlyNames(j.fields, {RATER, PROVIDER, CITE}) then None
    else
      var rater := OneOf(OrElse(j.fields, RATER, Null), RATERS);
      var provider := OneOf(OrElse(j.fields, PROVIDER, Null), PROVIDERS);
      var cite := TxRef(OrElse(j.fields, CITE, Null));
      if rater.None? || provider.None? || cite.None? then None
      else Some(Feedback(rater.value, provider.value, cite.value))
  }

  /** All items read, or none if one is not acceptable. */
  function ReadTxs(items: seq<Json>): Option<seq<Ref>> {
    if items == [] then Some([])
    else
      var before, last := ReadTxs(items[..|items| - 1]), TxRef(items[|items| - 1]);
      if before.None? || last.None? then None else Some(before.value + [last.value])
  }

  function ReadRatings(items: seq<Json>): Option<seq<Feedback>> {
    if items == [] then Some([])
    else
      var before, last := ReadRatings(items[..|items| - 1]), ReadFeedback(items[|items| - 1]);
      if before.None? || last.None? then None else Some(before.value + [last.value])
  }

  const VARIANT_NAMES: set<Name> :=
    {CLASS, LABEL, ASSET, NPA, SIGNATURES, REQUEST, PRESENTATIONS, CLAIMS, FEEDBACK, DELIVERABLE}

  const NOTHING: Json := Obj(map[])

  function ReadClaims(j: Json): Option<seq<Ref>> {
    if j.Arr? && |j.items| <= 5 then ReadTxs(j.items) else None
  }

  function ReadFeedbacks(j: Json): Option<seq<Feedback>> {
    if j.Arr? && |j.items| <= 6 then ReadRatings(j.items) else None
  }

  /** The variant that a JSON value stands for, if it is acceptable. */
  function Validated(raw: Json): Option<Variant> {
    if !raw.Obj? || !OnlyNames(raw.fields, VARIANT_NAMES) then None
    else
      var o := raw.fields;
      var kind := OneOf(OrElse(o, CLASS, Null), CLASSES);
      var title := ShortStr(OrElse(o, LABEL, Null), 160);
      var asset := OneOf(OrElse(o, ASSET, Null), ASSETS);
      var npa := ReadNpa(OrElse(o, NPA, NOTHING));
      var signatures := ReadSignatures(OrElse(o, SIGNATURES, NOTHING));
      var request := ReadRequest(OrElse(o, REQUEST, NOTHING));
      var presentations := ReadPresentations(OrElse(o, PRESENTATIONS, NOTHING));
      var claims := ReadClaims(OrElse(o, CLAIMS, Arr([])));
      var feedback := ReadFeedbacks(OrElse(o, FEEDBACK, Arr([])));
      var deliverable := OptText(o, DELIVERABLE, 2000);
      if kind.None? || title.None? || |title.value| < 3 || asset.None? || npa.None? || signatures.None? ||
         request.None? || presentations.None? || claims.None? || feedback.None? || deliverable.None? then None
      else
        Some(Variant(kind.value, title.value, asset.value, npa.value, signatures.value, request.value,
                     presentations.value, claims.value, feedback.value, deliverable.value))
  }

  // ----- which JSON stands for a variant -----

  function RefJson(r: Ref): Json {
    if r.Named? then Str(r.name) else Obj(map[LITERAL := Str(r.text)])
  }

  function TextField(x: Option<string>): Option<Json> {
    if x.Some? then Some(Str(x.value)) else None
  }

  function IntField(x: Option<int>): Option<Json> {
    if x.Some? then Some(Num(x.value as real)) else None
  }

  function RefField(x: Option<Ref>): Option<Json> {
    if x.Some? then Some(RefJson(x.value)) else None
  }

  /** The field is there with this value, or is not there. */
  predicate HasField(fields: map<Name, Json>, name: Name, value: Option<Json>) {
    if value.Some? then name in fields && fields[name] == value.value else name !in fields
  }

  predicate Absent(fields: map<Name, Json>, name: Name) {
    name !in fields || fields[name] == Null
  }

  /** The field has this value, or it is absent or null and the value is the default. */
  predicate HasOrDefault(fields: map<Name, Json>, name: Name, value: Json, isDefault: bool) {
    if Absent(fields, name) then isDefault else fields[name] == value
  }

  predicate NpaShows(j: Json, n: NpaChanges) {
    && j.Obj? && j.fields.Keys <= NPA_NAMES
    && HasField(j.fields, AMOUNT, RefField(n.amount))
    && HasField(j.fields, QUOTE_EXPIRES_IN_S, IntField(n.quoteExpiresIn))
    && HasField(j.fields, DECIMALS, IntField(n.decimals))
    && HasField(j.fields, MAX_FEE_WEI, TextField(n.maxFeeWei))
    && HasField(j.fields, CHAIN_ID, IntField(n.chainId))
    && HasField(j.fields, ASSET, TextField(n.asset))
    && HasField(j.fields, SELLER, TextField(n.seller))
    && HasField(j.fields, QUOTE_SOURCE, TextField(n.quoteSource))
    && HasField(j.fields, SETTLEMENT, TextField(n.settlement))
  }

  predicate SignaturesShow(j: Json, s: Signatures) {
    && j.Obj? && j.fields.Keys <= {BUYER, SELLER}
    && HasOrDefault(j.fields, BUYER, Str(s.buyer), s.buyer == "real")
    && HasOrDefault(j.fields, SELLER, Str(s.seller), s.seller == "real")
  }

  predicate RequestShows(j: Json, r: RequestChanges) {
    && j.Obj? && j.fields.Keys <= REQUEST_NAMES
    && HasField(j.fields, ASSET, TextField(r.asset))
    && HasField(j.fields, RECIPIENT, TextField(r.recipient))
    && HasField(j.fields, AMOUNT, RefField(r.amount))
    && HasField(j.fields, CHAIN_ID, IntField(r.chainId))
    && HasField(j.fields, PAYER, TextField(r.payer))
    && HasField(j.fields, OPERATION, TextField(r.operation))
  }

  predicate PresentationsShow(j: Json, p: Presentations) {
    && j.Obj? && j.fields.Keys <= {COUNT, CONCURRENT, RESTART_BETWEEN, RECASE}
    && HasOrDefault(j.fields, COUNT, Num(p.count as real), p.count == 1)
    && HasOrDefault(j.fields, CONCURRENT, Bool(p.concurrent), !p.concurrent)
    && HasOrDefault(j.fields, RESTART_BETWEEN, Bool(p.restartBetween), !p.restartBetween)
    && HasOrDefault(j.fields, RECASE, Bool(p.recase), !p.recase)
  }

  predicate FeedbackShows(j: Json, f: Feedback) {
    && j.Obj? && j.fields.Keys <= {RATER, PROVIDER, CITE}
    && HasField(j.fields, RATER, Some(Str(f.rater)))
    && HasField(j.fields, PROVIDER, Some(Str(f.provider)))
    && HasField(j.fields, CITE, Some(RefJson(f.cite)))
  }

  predicate ClaimsShow(items: seq<Json>, claims: seq<Ref>) {
    |items| == |claims| && forall i | 0 <= i < |items| :: items[i] == RefJson(claims[i])
  }

  predicate FeedbacksShow(items: seq<Json>, feedback: seq<Feedback>) {
    |items| == |feedback| && forall i | 0 <= i < |items| :: FeedbackShows(items[i], feedback[i])
  }

  const NO_NPA_CHANGES := NpaChanges(None, None, None, None, None, None, None, None, None)
  const NO_REQUEST_CHANGES := RequestChanges(None, None, None, None, None, None)

  /** The parts that may be left out, or be null. */
  predicate PartsShow(o: map<Name, Json>, v: Variant) {
    && (if Absent(o, NPA) then v.npa == NO_NPA_CHANGES else NpaShows(o[NPA], v.npa))
    && (if Absent(o, SIGNATURES) then v.signatures == Signatures("real", "real")
        else SignaturesShow(o[SIGNATURES], v.signatures))
    && (if Absent(o, REQUEST) then v.request == NO_REQUEST_CHANGES else RequestShows(o[REQUEST], v.request))
    && (if Absent(o, PRESENTATIONS) then v.presentations == Presentations(1, false, false, false)
        else PresentationsShow(o[PRESENTATIONS], v.presentations))
    && (if Absent(o, CLAIMS) then v.claims == [] else o[CLAIMS].Arr? && ClaimsShow(o[CLAIMS].items, v.claims))
    && (if Absent(o, FEEDBACK) then v.feedback == []
        else o[FEEDBACK].Arr? && FeedbacksShow(o[FEEDBACK].items, v.feedback))
  }

  /** The JSON stands for the variant: the schema's names only, and every field as the variant has it. */
  predicate Represents(raw: Json, v: Variant) {
    && raw.Obj? && raw.fields.Keys <= VARIANT_NAMES
    && HasField(raw.fields, CLASS, Some(Str(v.kind)))
    && HasField(raw.fields, LABEL, Some(Str(v.title)))
    && HasField(raw.fields, ASSET, Some(Str(v.asset)))
    && PartsShow(raw.fields, v)
    && HasField(raw.fields, DELIVERABLE, TextField(v.deliverable))
  }

  // ----- reading finds what stands there, and nothing else -----

  lemma {:induction false} LiteralIff(j: Json, text: string)
    ensures LiteralText(j) == Some(text) <==> j == Obj(map[LITERAL := Str(text)])
  {
    if LiteralText(j) == Some(text) {
      var other := j.fields.Keys - {LITERAL};
      assert |j.fields.Keys| == |other + {LITERAL}| == |other| + 1;
      assert other == {};
      assert j.fields.Keys == {LITERAL};
      assert j.fields == map[LITERAL := Str(text)];
    } else {
      assert map[LITERAL := Str(text)].Keys == {LITERAL};
    }
  }

  lemma {:induction false} AmountIff(j: Json, r: Ref)
    ensures AmountRef(j) == Some(r) <==> GoodAmount(r) && j == RefJson(r)
  {
    if r.Literal? {
      LiteralIff(j, r.text);
    }
    if LiteralText(j).Some? {
      LiteralIff(j, LiteralText(j).value);
    }
  }

  lemma {:induction false} TxIff(j: Json, r: Ref)
    ensures TxRef(j) == Some(r) <==> GoodTx(r) && j == RefJson(r)
  {
    if r.Literal? {
      LiteralIff(j, r.text);
    }
    if LiteralText(j).Some? {
      LiteralIff(j, LiteralText(j).value);
    }
  }

  lemma {:induction false} AddressIff(o: map<Name, Json>, k: Name, x: Option<string>)
    ensures OptAddress(o, k) == Some(x) <==> HasField(o, k, TextField(x)) && (x.Some? ==> x.value in ADDRESSES)
  {
  }

  lemma {:induction false} TextIff(o: map<Name, Json>, k: Name, max: nat, x: Option<string>)
    ensures OptText(o, k, max) == Some(x) <==> HasField(o, k, TextField(x)) && (x.Some? ==> |x.value| <= max)
  {
  }

  lemma {:induction false} IntIff(o: map<Name, Json>, k: Name, lo: int, hi: int, x: Option<int>)
    ensures OptInt(o, k, lo, hi) == Some(x) <==> HasField(o, k, IntField(x)) && (x.Some? ==> Within(x.value, lo, hi))
  {
  }

  lemma {:induction false} RefIff(o: map<Name, Json>, k: Name, x: Option<Ref>)
    ensures OptAmount(o, k) == Some(x) <==> HasField(o, k, RefField(x)) && (x.Some? ==> GoodAmount(x.value))
  {
    hide AmountRef, RefJson, GoodAmount;
    if k in o {
      if x.Some? { AmountIff(o[k], x.value); }
      if AmountRef(o[k]).Some? { AmountIff(o[k], AmountRef(o[k]).value); }
    }
  }

  lemma {:induction false} NpaIff(j: Json, n: NpaChanges)
    ensures ReadNpa(j) == Some(n) <==> GoodNpa(n) && NpaShows(j, n)
  {
    hide OptAddress, OptText, OptInt, OptAmount, HasField, TextField, IntField, RefField, GoodAmount, Within;
    if j.Obj? {
      RefIff(j.fields, AMOUNT, n.amount);
      IntIff(j.fields, QUOTE_EXPIRES_IN_S, -10_000_000, 10_000_000, n.quoteExpiresIn);
      IntIff(j.fields, DECIMALS, 0, 255, n.decimals);
      TextIff(j.fields, MAX_FEE_WEI, 80, n.maxFeeWei);
      IntIff(j.fields, CHAIN_ID, 1, MAX_CHAIN, n.chainId);
      AddressIff(j.fields, ASSET, n.asset);
      AddressIff(j.fields, SELLER, n.seller);
      TextIff(j.fields, QUOTE_SOURCE, 80, n.quoteSource);
      TextIff(j.fields, SETTLEMENT, 40, n.settlement);
    }
  }

  lemma {:induction false} RequestIff(j: Json, r: RequestChanges)
    ensures ReadRequest(j) == Some(r) <==> GoodRequest(r) && RequestShows(j, r)
  {
    hide OptAddress, OptText, OptInt, OptAmount, HasField, TextField, IntField, RefField, GoodAmount, Within;
    if j.Obj? {
      AddressIff(j.fields, ASSET, r.asset);
      AddressIff(j.fields, RECIPIENT, r.recipient);
      RefIff(j.fields, AMOUNT, r.amount);
      IntIff(j.fields, CHAIN_ID, 1, MAX_CHAIN, r.chainId);
      AddressIff(j.fields, PAYER, r.payer);
      TextIff(j.fields, OPERATION, 20, r.operation);
    }
  }

  lemma {:induction false} SignaturesIff(j: Json, s: Signatures)
    ensures ReadSignatures(j) == Some(s) <==> GoodSignatures(s) && SignaturesShow(j, s)
  {
  }

  lemma {:induction false} PresentationsIff(j: Json, p: Presentations)
    ensures ReadPresentations(j) == Some(p) <==> Within(p.count, 1, 20) && PresentationsShow(j, p)
  {
  }

  lemma {:induction false} NullIsNoRef(r: Ref)
    ensures RefJson(r) != Null
  {
  }

  lemma {:induction false} FeedbackIff(j: Json, f: Feedback)
    ensures ReadFeedback(j) == Some(f) <==> GoodFeedback(f) && FeedbackShows(j, f)
  {
    hide TxRef, RefJson, GoodTx;
    if j.Obj? {
      var cite := OrElse(j.fields, CITE, Null);
      TxIff(cite, f.cite);
      if TxRef(cite).Some? { TxIff(cite, TxRef(cite).value); }
      NullIsNoRef(f.cite);
    }
  }

  lemma {:induction false} LastOfConcat<T>(before: seq<T>, last: T, all: seq<T>)
    requires all != []
    ensures before + [last] == all <==> before == all[..|all| - 1] && last == all[|all| - 1]
  {
    assert all == all[..|all| - 1] + [all[|all| - 1]];
    if before + [last] == all {
      assert before == all[..|all| - 1];
    }
  }

  lemma {:induction false} ClaimsIff(items: seq<Json>, claims: seq<Ref>)
    ensures ReadTxs(items) == Some(claims) <==> (forall r | r in claims :: GoodTx(r)) && ClaimsShow(items, claims)
    decreases |items|
  {
    hide TxRef, RefJson, GoodTx;
    if items != [] && claims != [] {
      var n, m := |items| - 1, |claims| - 1;
      assert claims == claims[..m] + [claims[m]];
      ClaimsIff(items[..n], claims[..m]);
      TxIff(items[n], claims[m]);
      assert ClaimsShow(items, claims) <==> ClaimsShow(items[..n], claims[..m]) && items[n] == RefJson(claims[m]);
      assert ReadTxs(items) == Some(claims) <==>
             ReadTxs(items[..n]) == Some(claims[..m]) && TxRef(items[n]) == Some(claims[m]) by {
        if ReadTxs(items[..n]).Some? && TxRef(items[n]).Some? {
          LastOfConcat(ReadTxs(items[..n]).value, TxRef(items[n]).value, claims);
        }
      }
    }
  }

  lemma {:induction false} FeedbacksIff(items: seq<Json>, feedback: seq<Feedback>)
    ensures ReadRatings(items) == Some(feedback) <==>
            (forall f | f in feedback :: GoodFeedback(f)) && FeedbacksShow(items, feedback)
    decreases |items|
  {
    hide ReadFeedback, FeedbackShows, GoodFeedback;
    if items != [] && feedback != [] {
      var n, m := |items| - 1, |feedback| - 1;
      assert feedback == feedback[..m] + [feedback[m]];
      FeedbacksIff(items[..n], feedback[..m]);
      FeedbackIff(items[n], feedback[m]);
      assert FeedbacksShow(items, feedback) <==>
             FeedbacksShow(items[..n], feedback[..m]) && FeedbackShows(items[n], feedback[m]);
      assert ReadRatings(items) == Some(feedback) <==>
             ReadRatings(items[..n]) == Some(feedback[..m]) && ReadFeedback(items[n]) == Some(feedback[m]) by {
        if ReadRatings(items[..n]).Some? && ReadFeedback(items[n]).Some? {
          LastOfConcat(ReadRatings(items[..n]).value, ReadFeedback(items[n]).value, feedback);
        }
      }
    }
  }

  /** What the parts read as. */
  predicate PartsRead(o: map<Name, Json>, v: Variant) {
    && ReadNpa(OrElse(o, NPA, NOTHING)) == Some(v.npa)
    && ReadSignatures(OrElse(o, SIGNATURES, NOTHING)) == Some(v.signatures)
    && ReadRequest(OrElse(o, REQUEST, NOTHING)) == Some(v.request)
    && ReadPresentations(OrElse(o, PRESENTATIONS, NOTHING)) == Some(v.presentations)
    && ReadClaims(OrElse(o, CLAIMS, Arr([]))) == Some(v.claims)
    && ReadFeedbacks(OrElse(o, FEEDBACK, Arr([]))) == Some(v.feedback)
  }

  lemma {:induction false} NothingShows(n: NpaChanges, s: Signatures, r: RequestChanges, p: Presentations)
    ensures NpaShows(NOTHING, n) <==> n == NO_NPA_CHANGES
    ensures SignaturesShow(NOTHING, s) <==> s == Signatures("real", "real")
    ensures RequestShows(NOTHING, r) <==> r == NO_REQUEST_CHANGES
    ensures PresentationsShow(NOTHING, p) <==> p == Presentations(1, false, false, false)
  {
  }

  predicate GoodParts(v: Variant) {
    && GoodNpa(v.npa) && GoodSignatures(v.signatures) && GoodRequest(v.request)
    && Within(v.presentations.count, 1, 20)
    && |v.claims| <= 5 && (forall r | r in v.claims :: GoodTx(r))
    && |v.feedback| <= 6 && (forall f | f in v.feedback :: GoodFeedback(f))
  }

  lemma {:induction false} ListsIff(o: map<Name, Json>, v: Variant)
    ensures ReadClaims(OrElse(o, CLAIMS, Arr([]))) == Some(v.claims) <==>
            |v.claims| <= 5 && (forall r | r in v.claims :: GoodTx(r)) &&
            (if Absent(o, CLAIMS) then v.claims == [] else o[CLAIMS].Arr? && ClaimsShow(o[CLAIMS].items, v.claims))
    ensures ReadFeedbacks(OrElse(o, FEEDBACK, Arr([]))) == Some(v.feedback) <==>
            |v.feedback| <= 6 && (forall f | f in v.feedback :: GoodFeedback(f)) &&
            (if Absent(o, FEEDBACK) then v.feedback == []
             else o[FEEDBACK].Arr? && FeedbacksShow(o[FEEDBACK].items, v.feedback))
  {
    hide GoodTx, GoodFeedback, RefJson, FeedbackShows;
    var claims, feedback := OrElse(o, CLAIMS, Arr([])), OrElse(o, FEEDBACK, Arr([]));
    if claims.Arr? { ClaimsIff(claims.items, v.claims); }
    if feedback.Arr? { FeedbacksIff(feedback.items, v.feedback); }
  }

  lemma {:induction false} PartsIff(o: map<Name, Json>, v: Variant)
    ensures PartsRead(o, v) <==> GoodParts(v) && PartsShow(o, v)
  {
    hide ReadNpa, ReadSignatures, ReadRequest, ReadPresentations, ReadTxs, ReadRatings;
    hide NpaShows, SignaturesShow, RequestShows, PresentationsShow, ClaimsShow, FeedbacksShow;
    hide GoodNpa, GoodSignatures, GoodRequest, GoodTx, GoodFeedback, Within;
    NpaIff(OrElse(o, NPA, NOTHING), v.npa);
    SignaturesIff(OrElse(o, SIGNATURES, NOTHING), v.signatures);
    RequestIff(OrElse(o, REQUEST, NOTHING), v.request);
    PresentationsIff(OrElse(o, PRESENTATIONS, NOTHING), v.presentations);
    NothingShows(v.npa, v.signatures, v.request, v.presentations);
    ListsIff(o, v);
  }

  /**
   The validator accepts exactly the JSON that stands for a variant within the schema's bounds, and returns that
   variant.
   */
  lemma {:induction false} AcceptsExactly(raw: Json, v: Variant)
    ensures Validated(raw) == Some(v) <==> Good(v) && Represents(raw, v)
  {
    hide ReadNpa, ReadSignatures, ReadRequest, ReadPresentations, ReadClaims, ReadFeedbacks, PartsShow;
    hide GoodNpa, GoodSignatures, GoodRequest, GoodTx, GoodFeedback, Within, OptText;
    if raw.Obj? {
      PartsIff(raw.fields, v);
      TextIff(raw.fields, DELIVERABLE, 2000, v.deliverable);
    }
  }

  // ----- the validator as it runs -----

  lemma {:induction false} StopsAtBadTx(items: seq<Json>, i: nat)
    requires i < |items| && TxRef(items[i]).None?
    ensures ReadTxs(items).None?
  {
    if i < |items| - 1 {
      StopsAtBadTx(items[..|items| - 1], i);
    }
  }

  method ValidateClaims(j: Json) returns (claims: Option<seq<Ref>>)
    ensures claims == ReadClaims(j)
  {
    if !j.Arr? || |j.items| > 5 {
      return None;
    }
    var read: seq<Ref> := [];
    for i := 0 to |j.items|
      invariant ReadTxs(j.items[..i]) == Some(read)
    {
      assert j.items[..i + 1][..i] == j.items[..i];
      var t := TxRef(j.items[i]);
      if t.None? {
        StopsAtBadTx(j.items, i);
        return None;
      }
      read := read + [t.value];
    }
    assert j.items[..|j.items|] == j.items;
    claims := Some(read);
  }

  lemma {:induction false} StopsAtBadRating(items: seq<Json>, i: nat)
    requires i < |items| && ReadFeedback(items[i]).None?
    ensures ReadRatings(items).None?
  {
    if i < |items| - 1 {
      StopsAtBadRating(items[..|items| - 1], i);
    }
  }

  method ValidateFeedback(j: Json) returns (feedback: Option<seq<Feedback>>)
    ensures feedback == ReadFeedbacks(j)
  {
    if !j.Arr? || |j.items| > 6 {
      return None;
    }
    var read: seq<Feedback> := [];
    for i := 0 to |j.items|
      invariant ReadRatings(j.items[..i]) == Some(read)
    {
      assert j.items[..i + 1][..i] == j.items[..i];
      var f := ReadFeedback(j.items[i]);
      if f.None? {
        StopsAtBadRating(j.items, i);
        return None;
      }
      read := read + [f.value];
    }
    assert j.items[..|j.items|] == j.items;
    feedback := Some(read);
  }

  method ValidateFields(raw: Json) returns (variant: Option<Variant>)
    ensures variant == Validated(raw)
  {
    hide ReadNpa, ReadSignatures, ReadRequest, ReadPresentations, ReadClaims, ReadFeedbacks;
    if !raw.Obj? || !OnlyNames(raw.fields, VARIANT_NAMES) { return None; }
    var o := raw.fields;
    var kind := OneOf(OrElse(o, CLASS, Null), CLASSES);
    if kind.None? { return None; }
    var title := ShortStr(OrElse(o, LABEL, Null), 160);
    if title.None? || |title.value| < 3 { return None; }
    var asset := OneOf(OrElse(o, ASSET, Null), ASSETS);
    if asset.None? { return None; }
    var npa := ReadNpa(OrElse(o, NPA, NOTHING));
    if npa.None? { return None; }
    var signatures := ReadSignatures(OrElse(o, SIGNATURES, NOTHING));
    if signatures.None? { return None; }
    var request := ReadRequest(OrElse(o, REQUEST, NOTHING));
    if request.None? { return None; }
    var presentations := ReadPresentations(OrElse(o, PRESENTATIONS, NOTHING));
    if presentations.None? { return None; }
    var claims := ValidateClaims(OrElse(o, CLAIMS, Arr([])));
    if claims.None? { return None; }
    var feedback := ValidateFeedback(OrElse(o, FEEDBACK, Arr([])));
    if feedback.None? { return None; }
    var deliverable := OptText(o, DELIVERABLE, 2000);
    if deliverable.None? { return None; }
    variant := Some(Variant(kind.value, title.value, asset.value, npa.value, signatures.value, request.value,
                            presentations.value, claims.value, feedback.value, deliverable.value));
  }

  /** Field after field, refusing at the first that is not acceptable: so exactly what stands for no variant. */
  method ValidateVariant(raw: Json) returns (variant: Option<Variant>)
    ensures forall v :: variant == Some(v) <==> Good(v) && Represents(raw, v)
  {
    forall v ensures Validated(raw) == Some(v) <==> Good(v) && Represents(raw, v) { AcceptsExactly(raw, v); }
    variant := ValidateFields(raw);
  }

  // ----- a variant as JSON -----

  function NpaField(n: NpaChanges, k: Name): Option<Json> {
    match k
    case AMOUNT => RefField(n.amount)
    case QUOTE_EXPIRES_IN_S => IntField(n.quoteExpiresIn)
    case DECIMALS => IntField(n.decimals)
    case MAX_FEE_WEI => TextField(n.maxFeeWei)
    case CHAIN_ID => IntField(n.chainId)
    case ASSET => TextField(n.asset)
    case SELLER => TextField(n.seller)
    case QUOTE_SOURCE => TextField(n.quoteSource)
    case SETTLEMENT => TextField(n.settlement)
    case _ => None
  }

  function NpaJson(n: NpaChanges): Json {
    Obj(map k | k in NPA_NAMES && NpaField(n, k).Some? :: NpaField(n, k).value)
  }

  function SignaturesJson(s: Signatures): Json {
    Obj(map[BUYER := Str(s.buyer), SELLER := Str(s.seller)])
  }

  function RequestField(r: RequestChanges, k: Name): Option<Json> {
    match k
    case ASSET => TextField(r.asset)
    case RECIPIENT => TextField(r.recipient)
    case AMOUNT => RefField(r.amount)
    case CHAIN_ID => IntField(r.chainId)
    case PAYER => TextField(r.payer)
    case OPERATION => TextField(r.operation)
    case _ => None
  }

  function RequestJson(r: RequestChanges): Json {
    Obj(map k | k in REQUEST_NAMES && RequestField(r, k).Some? :: RequestField(r, k).value)
  }

  function PresentationsJson(p: Presentations): Json {
    Obj(map[COUNT := Num(p.count as real), CONCURRENT := Bool(p.concurrent),
            RESTART_BETWEEN := Bool(p.restartBetween), RECASE := Bool(p.recase)])
  }

  function FeedbackJson(f: Feedback): Json {
    Obj(map[RATER := Str(f.rater), PROVIDER := Str(f.provider), CITE := RefJson(f.cite)])
  }

  function ClaimsJson(claims: seq<Ref>): seq<Json> {
    seq(|claims|, i requires 0 <= i < |claims| => RefJson(claims[i]))
  }

  function RatingsJson(feedback: seq<Feedback>): seq<Json> {
    seq(|feedback|, i requires 0 <= i < |feedback| => FeedbackJson(feedback[i]))
  }

  /** The variant that the validator returns, as the JSON value it is. */
  function ToJson(v: Variant): Json {
    var o := map[
      CLASS := Str(v.kind), LABEL := Str(v.title), ASSET := Str(v.asset), NPA := NpaJson(v.npa),
      SIGNATURES := SignaturesJson(v.signatures), REQUEST := RequestJson(v.request),
      PRESENTATIONS := PresentationsJson(v.presentations), CLAIMS := Arr(ClaimsJson(v.claims)),
      FEEDBACK := Arr(RatingsJson(v.feedback))];
    Obj(if v.deliverable.Some? then o[DELIVERABLE := Str(v.deliverable.value)] else o)
  }

  lemma {:induction false} NpaHasField(n: NpaChanges, k: Name)
    ensures HasField(NpaJson(n).fields, k, NpaField(n, k))
  {
  }

  lemma {:induction false} NpaJsonShows(n: NpaChanges)
    ensures NpaShows(NpaJson(n), n)
  {
    assert NpaJson(n).fields.Keys <= NPA_NAMES;
    hide NpaJson, HasField, TextField, IntField, RefField;
    NpaHasField(n, AMOUNT);
    NpaHasField(n, QUOTE_EXPIRES_IN_S);
    NpaHasField(n, DECIMALS);
    NpaHasField(n, MAX_FEE_WEI);
    NpaHasField(n, CHAIN_ID);
    NpaHasField(n, ASSET);
    NpaHasField(n, SELLER);
    NpaHasField(n, QUOTE_SOURCE);
    NpaHasField(n, SETTLEMENT);
  }

  lemma {:induction false} RequestHasField(r: RequestChanges, k: Name)
    ensures HasField(RequestJson(r).fields, k, RequestField(r, k))
  {
  }

  lemma {:induction false} RequestJsonShows(r: RequestChanges)
    ensures RequestShows(RequestJson(r), r)
  {
    assert RequestJson(r).fields.Keys <= REQUEST_NAMES;
    hide RequestJson, HasField, TextField, IntField, RefField;
    RequestHasField(r, ASSET);
    RequestHasField(r, RECIPIENT);
    RequestHasField(r, AMOUNT);
    RequestHasField(r, CHAIN_ID);
    RequestHasField(r, PAYER);
    RequestHasField(r, OPERATION);
  }

  lemma {:induction false} FeedbackJsonShows(f: Feedback)
    ensures FeedbackShows(FeedbackJson(f), f)
  {
  }

  lemma {:induction false} ListsShow(v: Variant)
    ensures ClaimsShow(ClaimsJson(v.claims), v.claims) && FeedbacksShow(RatingsJson(v.feedback), v.feedback)
  {
    hide FeedbackShows, FeedbackJson, RefJson;
    forall f | f in v.feedback ensures FeedbackShows(FeedbackJson(f), f) { FeedbackJsonShows(f); }
  }

  lemma {:induction false} SmallPartsShow(s: Signatures, p: Presentations)
    ensures SignaturesShow(SignaturesJson(s), s) && PresentationsShow(PresentationsJson(p), p)
  {
  }

  lemma {:induction false} PartsAreThere(v: Variant)
    ensures NpaJson(v.npa) != Null && SignaturesJson(v.signatures) != Null && RequestJson(v.request) != Null
    ensures PresentationsJson(v.presentations) != Null
  {
  }

  lemma {:induction false} ToJsonRepresents(v: Variant)
    ensures Represents(ToJson(v), v)
  {
    hide NpaShows, RequestShows, SignaturesShow, PresentationsShow, ClaimsShow, FeedbacksShow;
    hide NpaJson, RequestJson, SignaturesJson, PresentationsJson, ClaimsJson, RatingsJson;
    NpaJsonShows(v.npa);
    RequestJsonShows(v.request);
    SmallPartsShow(v.signatures, v.presentations);
    ListsShow(v);
    PartsAreThere(v);
  }

  /** Validating is normalising: what is accepted is accepted again, and then returned unchanged. */
  lemma {:induction false} ValidatingNormalises(raw: Json)
    requires Validated(raw).Some?
    ensures Good(Validated(raw).value)
    ensures Validated(ToJson(Validated(raw).value)) == Validated(raw)
  {
    hide Validated, Good, Represents, ToJson;
    var v := Validated(raw).value;
    AcceptsExactly(raw, v);
    ToJsonRepresents(v);
    AcceptsExactly(ToJson(v), v);
  }

  /** The good variants are exactly those that some JSON is validated to. */
  lemma {:induction false} GoodIffAccepted(v: Variant)
    ensures Good(v) <==> exists raw :: Validated(raw) == Some(v)
  {
    hide Validated, Good, Represents, ToJson;
    if Good(v) {
      ToJsonRepresents(v);
      AcceptsExactly(ToJson(v), v);
    }
    if exists raw :: Validated(raw) == Some(v) {
      var raw :| Validated(raw) == Some(v);
      AcceptsExactly(raw, v);
    }
  }
}
