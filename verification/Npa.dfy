/**
 The payment agreement that both parties sign, and its identity: every field with hex text in lower case.
 Two presentations with one identity are one authorization, however they are spelled.

 Letter case is that of ASCII. `extra` holds the fields that grading never reads by name (the nonce, the
 service hash, the quote source and whatever else the object carries).
 */
module Npa {
  import opened Options

  datatype Value = Text(text: string) | Number(number: int)

  datatype Npa = Npa(
    buyer: string, seller: string, chainId: int, asset: string, decimals: int, amountRaw: string,
    quoteExpiresAt: int, maxFeeWei: string, settlement: string, extra: map<string, Value>)

  function LowerChar(c: char): char {
    if 'A' <= c <= 'Z' then c + ('a' - 'A') else c
  }

  function Lower(s: string): (r: string)
    ensures |r| == |s| && forall i | 0 <= i < |s| :: r[i] == LowerChar(s[i])
  {
    if s == "" then "" else [LowerChar(s[0])] + Lower(s[1..])
  }

  /** Equality that ignores letter case. */
  predicate Same(a: string, b: string) {
    Lower(a) == Lower(b)
  }

  predicate HexDigit(c: char) {
    '0' <= c <= '9' || 'a' <= c <= 'f' || 'A' <= c <= 'F'
  }

  predicate IsHex(s: string) {
    |s| >= 2 && s[0] == '0' && (s[1] == 'x' || s[1] == 'X') && forall i | 2 <= i < |s| :: HexDigit(s[i])
  }

  lemma {:induction false} HexDigitIff(c: char)
    ensures HexDigit(c) <==> c in "0123456789abcdefABCDEF"
  {
    var digits := "0123456789abcdefABCDEF";
    if HexDigit(c) {
      var n := if c <= '9' then c as int - '0' as int else if c <= 'F' then c as int - 'A' as int + 16
               else c as int - 'a' as int + 10;
      assert digits[n] == c;
    }
  }

  /** Hex text: 0x in either case, and then nothing but hex digits. */
  lemma {:induction false} HexTextIff(s: string)
    ensures IsHex(s) <==>
            |s| >= 2 && s[..2] in {"0x", "0X"} && forall i | 2 <= i < |s| :: s[i] in "0123456789abcdefABCDEF"
  {
    forall c: char ensures HexDigit(c) <==> c in "0123456789abcdefABCDEF" {
      HexDigitIff(c);
    }
    if |s| >= 2 {
      assert s[..2] == [s[0], s[1]];
    }
  }

  function Spelled(s: string): string {
    if IsHex(s) then Lower(s) else s
  }

  function SpelledValue(v: Value): Value {
    match v
    case Text(text) => Text(Spelled(text))
    case Number(_) => v
  }

  function Identity(n: Npa): Npa {
    Npa(Spelled(n.buyer), Spelled(n.seller), n.chainId, Spelled(n.asset), n.decimals, Spelled(n.amountRaw),
        n.quoteExpiresAt, Spelled(n.maxFeeWei), Spelled(n.settlement), map k | k in n.extra :: SpelledValue(n.extra[k]))
  }

  // ----- canonical decimal amounts -----

  predicate Digits(s: string) {
    forall i | 0 <= i < |s| :: '0' <= s[i] <= '9'
  }

  predicate CanonicalDecimal(s: string) {
    s == "0" || (s != "" && s[0] != '0' && Digits(s))
  }

  function Decimal(s: string): nat
    requires Digits(s)
  {
    if s == "" then 0 else 10 * Decimal(s[..|s| - 1]) + (s[|s| - 1] as int - '0' as int)
  }

  /** The amount a canonical decimal names; nothing for any other text. */
  function Canon(s: string): Option<nat> {
    if CanonicalDecimal(s) then Some(Decimal(s)) else None
  }

  // ----- spelling -----

  lemma {:induction false} LowerTwice(s: string)
    ensures Lower(Lower(s)) == Lower(s)
  {
  }

  lemma {:induction false} HexStaysHex(s: string)
    ensures IsHex(Lower(s)) <==> IsHex(s)
  {
    if IsHex(Lower(s)) {
      forall i | 2 <= i < |s| ensures HexDigit(s[i]) {
        assert HexDigit(Lower(s)[i]);
      }
    }
  }

  /** Texts that the identity does not tell apart: equal, or both hex and equal up to letter case. */
  predicate SameText(a: string, b: string) {
    a == b || (IsHex(a) && IsHex(b) && Same(a, b))
  }

  /** One spelling means the same text, or two hex texts that differ in letter case only. */
  lemma {:induction false} SpelledSame(a: string, b: string)
    ensures Spelled(a) == Spelled(b) <==> SameText(a, b)
    ensures Spelled(a) == Spelled(b) ==> Same(a, b)
  {
    HexStaysHex(a);
    HexStaysHex(b);
    LowerTwice(a);
    LowerTwice(b);
  }

  lemma {:induction false} SpelledTwice(s: string)
    ensures Spelled(Spelled(s)) == Spelled(s)
  {
    HexStaysHex(s);
    LowerTwice(s);
  }

  /** An identity is its own identity: it is a normal form of the agreement. */
  lemma {:induction false} IdentityTwice(n: Npa)
    ensures Identity(Identity(n)) == Identity(n)
  {
    SpelledTwice(n.buyer);
    SpelledTwice(n.seller);
    SpelledTwice(n.asset);
    SpelledTwice(n.amountRaw);
    SpelledTwice(n.maxFeeWei);
    SpelledTwice(n.settlement);
    forall k | k in n.extra ensures SpelledValue(SpelledValue(n.extra[k])) == SpelledValue(n.extra[k]) {
      if n.extra[k].Text? {
        SpelledTwice(n.extra[k].text);
      }
    }
  }

  lemma {:induction false} HexIsNoAmount(s: string)
    requires IsHex(s)
    ensures Canon(s) == None
  {
    assert s[1] == 'x' || s[1] == 'X';
  }

  /** Hence the identity fixes the amount and the fee. */
  lemma {:induction false} SpelledAmount(a: string, b: string)
    requires Spelled(a) == Spelled(b)
    ensures Canon(a) == Canon(b)
  {
    SpelledSame(a, b);
    if a != b {
      HexIsNoAmount(a);
      HexIsNoAmount(b);
    }
  }

  predicate SameValue(v: Value, w: Value) {
    if v.Text? && w.Text? then SameText(v.text, w.text) else v == w
  }

  predicate SameExtra(a: map<string, Value>, b: map<string, Value>) {
    a.Keys == b.Keys && forall k | k in a :: SameValue(a[k], b[k])
  }

  lemma {:induction false} ExtraSame(a: map<string, Value>, b: map<string, Value>)
    ensures (map k | k in a :: SpelledValue(a[k])) == (map k | k in b :: SpelledValue(b[k])) <==> SameExtra(a, b)
  {
    var x, y := map k | k in a :: SpelledValue(a[k]), map k | k in b :: SpelledValue(b[k]);
    assert x.Keys == a.Keys && y.Keys == b.Keys;
    forall k | k in a && k in b ensures SpelledValue(a[k]) == SpelledValue(b[k]) <==> SameValue(a[k], b[k]) {
      if a[k].Text? && b[k].Text? {
        SpelledSame(a[k].text, b[k].text);
      }
    }
    hide SpelledValue, SameValue;
    if x == y {
      forall k | k in a ensures SameValue(a[k], b[k]) {
        assert x[k] == y[k];
      }
    }
  }

  /** Two agreements have one identity exactly if every field is the same, hex texts up to letter case. */
  lemma {:induction false} IdentitySame(n: Npa, m: Npa)
    ensures Identity(n) == Identity(m) <==>
            && SameText(n.buyer, m.buyer) && SameText(n.seller, m.seller) && SameText(n.asset, m.asset)
            && SameText(n.amountRaw, m.amountRaw) && SameText(n.maxFeeWei, m.maxFeeWei)
            && SameText(n.settlement, m.settlement)
            && n.chainId == m.chainId && n.decimals == m.decimals && n.quoteExpiresAt == m.quoteExpiresAt
            && SameExtra(n.extra, m.extra)
  {
    SpelledSame(n.buyer, m.buyer);
    SpelledSame(n.seller, m.seller);
    SpelledSame(n.asset, m.asset);
    SpelledSame(n.amountRaw, m.amountRaw);
    SpelledSame(n.maxFeeWei, m.maxFeeWei);
    SpelledSame(n.settlement, m.settlement);
    ExtraSame(n.extra, m.extra);
    hide Spelled, SpelledValue, SameText, SameExtra;
  }

  // ----- a number has one canonical decimal -----

  function DigitChar(d: nat): char
    requires d < 10
  {
    '0' + d as char
  }

  function DecimalText(n: nat): string {
    if n < 10 then [DigitChar(n)] else DecimalText(n / 10) + [DigitChar(n % 10)]
  }

  lemma {:induction false} DecimalTextNames(n: nat)
    ensures Canon(DecimalText(n)) == Some(n)
    ensures n > 0 ==> DecimalText(n)[0] != '0'
  {
    if n >= 10 {
      DecimalTextNames(n / 10);
      var front, s := DecimalText(n / 10), DecimalText(n);
      assert s[..|s| - 1] == front;
      assert front[0] != '0' && Digits(front);
      assert Decimal(s) == 10 * Decimal(front) + n % 10;
    } else {
      var s := DecimalText(n);
      assert s[..0] == "";
      assert Decimal(s) == 10 * Decimal("") + n;
    }
  }

  lemma {:induction false} PositiveDecimal(s: string)
    requires Digits(s) && s != "" && s[0] != '0'
    ensures Decimal(s) > 0
  {
    if |s| > 1 {
      PositiveDecimal(s[..|s| - 1]);
    } else {
      assert s[..0] == "";
    }
  }

  lemma {:induction false} CanonicalIsText(s: string)
    requires CanonicalDecimal(s)
    ensures s == DecimalText(Decimal(s))
  {
    if |s| == 1 {
      assert s[..0] == "" && Decimal(s) == 10 * Decimal("") + (s[0] as int - '0' as int);
    } else {
      var front := s[..|s| - 1];
      PositiveDecimal(front);
      CanonicalIsText(front);
      var d := s[|s| - 1] as int - '0' as int;
      assert Decimal(s) == 10 * Decimal(front) + d && 0 <= d < 10;
      assert s == front + [s[|s| - 1]];
    }
  }

  /** A text names an amount exactly if it is the decimal without leading zeros of that number. */
  lemma {:induction false} CanonIff(s: string, n: nat)
    ensures Canon(s) == Some(n) <==> s == DecimalText(n)
  {
    DecimalTextNames(n);
    if CanonicalDecimal(s) {
      CanonicalIsText(s);
    }
  }
}
