/**
 Lease globs: the translation to a regular expression, the cheap overlap test on literal prefixes,
 and why the cheap test never misses a clash.

 `Matches` says what a glob means without any token or regular expression: `**` followed by a slash stands for
 any leading directories, other `**` for any run of characters, `*` for a run inside one path segment
 and `?` for one character of a segment. Neither form of `**` crosses a line terminator.
 */
module Globs {
  import opened Options
  import opened RegExp

  predicate Wildcard(c: char) {
    c == '*' || c == '?'
  }

  predicate OneLine(s: string) {
    forall i | 0 <= i < |s| :: !LineTerminator(s[i])
  }

  /** What a glob means, character by character. */
  predicate Matches(glob: string, s: string)
    decreases |glob|
  {
    if glob == "" then s == ""
    else if "**/" <= glob then
      Matches(glob[3..], s) ||
      exists k | 0 < k <= |s| :: OneLine(s[..k - 1]) && s[k - 1] == '/' && Matches(glob[3..], s[k..])
    else if "**" <= glob then exists k | 0 <= k <= |s| :: OneLine(s[..k]) && Matches(glob[2..], s[k..])
    else if glob[0] == '*' then exists k | 0 <= k <= |s| :: '/' !in s[..k] && Matches(glob[1..], s[k..])
    else s != "" && (if glob[0] == '?' then s[0] != '/' else s[0] == glob[0]) && Matches(glob[1..], s[1..])
  }

  // ----- tokens -----

  const ESCAPED: string := "\\^$.|+()[]{}"
  const DIRECTORIES: Term := Maybe(Group(Then(Star(Dot), Then(Once(Ch('/')), Empty))))

  datatype Token = DeepDirectories | Deep | Segment | One | Literal(c: char) {
    /** How many characters of the glob the token takes. */
    function Width(): nat {
      match this
      case DeepDirectories => 3
      case Deep => 2
      case _ => 1
    }

    /** What the translation emits for it. */
    function Text(): string {
      match this
      case DeepDirectories => "(?:.*/)?"
      case Deep => ".*"
      case Segment => "[^/]*"
      case One => "[^/]"
      case Literal(c) => if c in ESCAPED then ['\\', c] else [c]
    }

    /** What the emitted text should parse to. */
    function Tree(): Term {
      match this
      case DeepDirectories => DIRECTORIES
      case Deep => Star(Dot)
      case Segment => Star(NotSlash)
      case One => Once(NotSlash)
      case Literal(c) => Once(Ch(c))
    }

    /** The strings it stands for. */
    predicate Accepts(s: string) {
      match this
      case DeepDirectories => s == "" || (OneLine(s[..|s| - 1]) && s[|s| - 1] == '/')
      case Deep => OneLine(s)
      case Segment => '/' !in s
      case One => |s| == 1 && s[0] != '/'
      case Literal(c) => s == [c]
    }
  }

  function TokenAt(glob: string, i: nat): (t: Token)
    requires i < |glob|
    ensures i + t.Width() <= |glob|
    ensures t.Literal? ==> !Wildcard(t.c)
  {
    if glob[i] == '*' then
      if i + 1 < |glob| && glob[i + 1] == '*' then
        if i + 2 < |glob| && glob[i + 2] == '/' then DeepDirectories else Deep
      else Segment
    else if glob[i] == '?' then One
    else Literal(glob[i])
  }

  function Tokens(glob: string, i: nat := 0): (ts: seq<Token>)
    requires i <= |glob|
    ensures forall t | t in ts :: t.Literal? ==> !Wildcard(t.c)
    decreases |glob| - i
  {
    if i == |glob| then [] else [TokenAt(glob, i)] + Tokens(glob, i + TokenAt(glob, i).Width())
  }

  /** The meaning of a token sequence: the string splits into pieces, one per token. */
  predicate Accepted(ts: seq<Token>, s: string) {
    if ts == [] then s == ""
    else exists k | 0 <= k <= |s| :: ts[0].Accepts(s[..k]) && Accepted(ts[1..], s[k..])
  }

  lemma {:induction false} AcceptedFirst(t: Token, ts: seq<Token>, s: string)
    ensures Accepted([t] + ts, s) <==> exists k | 0 <= k <= |s| :: t.Accepts(s[..k]) && Accepted(ts, s[k..])
  {
    assert ([t] + ts)[1..] == ts;
  }

  lemma {:induction false} AcceptedOne(t: Token, ts: seq<Token>, s: string)
    requires t.One? || t.Literal?
    ensures Accepted([t] + ts, s) <==> s != "" && t.Accepts([s[0]]) && Accepted(ts, s[1..])
  {
    AcceptedFirst(t, ts, s);
    if s != "" {
      assert s[..1] == [s[0]];
    }
  }

  lemma {:induction false} AcceptedDirectories(ts: seq<Token>, s: string)
    ensures Accepted([DeepDirectories] + ts, s) <==>
            || Accepted(ts, s)
            || exists k | 0 < k <= |s| :: OneLine(s[..k - 1]) && s[k - 1] == '/' && Accepted(ts, s[k..])
  {
    AcceptedFirst(DeepDirectories, ts, s);
    assert s[0..] == s && s[..0] == "";
    forall k | 0 < k <= |s| ensures DeepDirectories.Accepts(s[..k]) <==> OneLine(s[..k - 1]) && s[k - 1] == '/' {
      assert s[..k][..k - 1] == s[..k - 1];
    }
  }

  lemma {:induction false} TokenMeansFirst(t: Token, ts: seq<Token>, glob: string, s: string)
    requires glob != "" && t == TokenAt(glob, 0)
    requires forall k | 0 <= k <= |s| :: Accepted(ts, s[k..]) <==> Matches(glob[t.Width()..], s[k..])
    ensures Accepted([t] + ts, s) <==> Matches(glob, s)
  {
    hide Accepted;
    assert s[0..] == s;
    match t
    case DeepDirectories =>
      AcceptedDirectories(ts, s);
      assert "**/" <= glob;
    case One => AcceptedOne(t, ts, s);
    case Literal(c) => AcceptedOne(t, ts, s);
    case _ => AcceptedFirst(t, ts, s);
  }

  lemma {:induction false} TokenIsFirst(glob: string, i: nat)
    requires i < |glob|
    ensures TokenAt(glob[i..], 0) == TokenAt(glob, i)
  {
  }

  /** The tokens of a glob stand for what it means. */
  lemma {:induction false} TokensMeanGlob(glob: string, i: nat, s: string)
    requires i <= |glob|
    ensures Accepted(Tokens(glob, i), s) <==> Matches(glob[i..], s)
    decreases |glob| - i
  {
    if i < |glob| {
      var t, rest := TokenAt(glob, i), glob[i..];
      var ts := Tokens(glob, i + t.Width());
      assert Tokens(glob, i) == [t] + ts;
      TokenIsFirst(glob, i);
      hide Accepted, Matches, Tokens, TokenAt;
      assert rest[t.Width()..] == glob[i + t.Width()..];
      forall k | 0 <= k <= |s| ensures Accepted(ts, s[k..]) <==> Matches(rest[t.Width()..], s[k..]) {
        TokensMeanGlob(glob, i + t.Width(), s[k..]);
      }
      TokenMeansFirst(t, ts, rest, s);
    }
  }

  lemma {:induction false} GlobMeansTokens(glob: string, s: string)
    ensures Matches(glob, s) <==> Accepted(Tokens(glob), s)
  {
    TokensMeanGlob(glob, 0, s);
    assert glob[0..] == glob;
  }

  // ----- the translation -----

  function TextOf(ts: seq<Token>): string {
    if ts == [] then "" else ts[0].Text() + TextOf(ts[1..])
  }

  function TreeOf(ts: seq<Token>): Alternative {
    if ts == [] then Empty else Then(ts[0].Tree(), TreeOf(ts[1..]))
  }

  function Source(glob: string): string {
    "^" + TextOf(Tokens(glob)) + "$"
  }

  // ----- the emitted text parses to the intended tree -----

  /** Text behind a term never begins with a quantifier, so nothing is repeated by accident. */
  predicate Settled(rest: string) {
    rest != "" && rest[0] !in {'*', '?'}
  }

  lemma {:induction false} TextIsSettled(ts: seq<Token>)
    requires forall t | t in ts :: t.Literal? ==> !Wildcard(t.c)
    ensures Settled(TextOf(ts) + "$")
  {
    if ts != [] {
      assert ts[0] in ts;
      assert (TextOf(ts) + "$")[0] == ts[0].Text()[0];
    }
  }

  lemma {:induction false} StarParses(src: string, a: Atom, rest: string)
    requires src != "" && src[0] !in {')', '$'} && Settled(rest)
    requires (src == ".*" + rest && a == Dot) || (src == "[^/]*" + rest && a == NotSlash)
    ensures ParseAtom(src) == Some((a, "*" + rest))
    ensures ParseQuantifier(a, "*" + rest) == Some((Star(a), rest))
  {
    assert a == Dot ==> src[1..] == "*" + rest;
    assert a == NotSlash ==> src[1..4] == "^/]" && src[4..] == "*" + rest;
    assert ("*" + rest)[1..] == rest;
  }

  lemma {:induction false} GroupBodyParses(tail: string)
    requires tail != "" && tail[0] == ')'
    ensures ParseAlternative(".*/" + tail) == Some((Then(Star(Dot), Then(Once(Ch('/')), Empty)), tail))
  {
    var slash := "/" + tail;
    assert slash[1..] == tail;
    assert ParseAlternative(tail) == Some((Empty, tail));
    assert ParseAtom(slash) == Some((Ch('/'), tail));
    assert ParseQuantifier(Ch('/'), tail) == Some((Once(Ch('/')), tail));
    assert ParseAlternative(slash) == Some((Then(Once(Ch('/')), Empty), tail));
    assert ".*/" + tail == ".*" + slash;
    StarParses(".*" + slash, Dot, slash);
  }

  lemma {:induction false} DirectoriesParse(rest: string)
    requires Settled(rest)
    ensures ParseAtom("(?:.*/)?" + rest) == Some((DIRECTORIES.atom, "?" + rest))
    ensures ParseQuantifier(DIRECTORIES.atom, "?" + rest) == Some((DIRECTORIES, rest))
  {
    var src, tail := "(?:.*/)?" + rest, ")?" + rest;
    GroupBodyParses(tail);
    assert src[1..3] == "?:" && src[3..] == ".*/" + tail;
    assert tail[1..] == "?" + rest;
    assert ("?" + rest)[1..] == rest;
  }

  /** One step of the parser reads exactly one token's text. */
  lemma {:induction false} TokenParses(t: Token, rest: string)
    requires Settled(rest) && (t.Literal? ==> !Wildcard(t.c))
    ensures ParseAlternative(rest).Some? ==>
              ParseAlternative(t.Text() + rest) ==
              Some((Then(t.Tree(), ParseAlternative(rest).value.0), ParseAlternative(rest).value.1))
  {
    var src := t.Text() + rest;
    match t
    case DeepDirectories => DirectoriesParse(rest);
    case Deep => StarParses(src, Dot, rest);
    case Segment =>
      assert src[1..4] == "^/]" && src[4..] == "*" + rest;
      StarParses(src, NotSlash, rest);
    case One => assert src[1..4] == "^/]" && src[4..] == rest;
    case Literal(c) => assert src[|t.Text()|..] == rest;
  }

  lemma {:induction false} TextParses(ts: seq<Token>)
    requires forall t | t in ts :: t.Literal? ==> !Wildcard(t.c)
    ensures ParseAlternative(TextOf(ts) + "$") == Some((TreeOf(ts), "$"))
  {
    if ts == [] {
      assert TextOf(ts) + "$" == "$";
    } else {
      var rest := TextOf(ts[1..]) + "$";
      TextParses(ts[1..]);
      TextIsSettled(ts[1..]);
      assert ts[0] in ts;
      TokenParses(ts[0], rest);
      assert TextOf(ts) + "$" == ts[0].Text() + rest;
    }
  }

  /** The text that the translation builds is a pattern of the grammar, and parses to the intended tree. */
  lemma {:induction false} SourceParses(glob: string)
    ensures ParsePattern(Source(glob)) == Some(TreeOf(Tokens(glob)))
  {
    TextParses(Tokens(glob));
    assert Source(glob)[1..] == TextOf(Tokens(glob)) + "$";
  }

  // ----- the tree means what the glob means -----

  lemma {:induction false} OnlySlash(s: string)
    ensures InAlternative(Then(Once(Ch('/')), Empty), s) <==> s == "/"
  {
    LiteralFirst('/', Empty, s);
  }

  lemma {:induction false} LineAndSlash(s: string)
    requires s != ""
    ensures InAlternative(Then(Star(Dot), Then(Once(Ch('/')), Empty)), s) <==>
            OneLine(s[..|s| - 1]) && s[|s| - 1] == '/'
  {
    var slash := Then(Once(Ch('/')), Empty);
    assert InAlternative(Then(Star(Dot), slash), s) <==>
           exists k | 0 <= k <= |s| :: InTerm(Star(Dot), s[..k]) && InAlternative(slash, s[k..]);
    hide InAlternative, InTerm;
    forall k | 0 <= k <= |s|
      ensures InTerm(Star(Dot), s[..k]) && InAlternative(slash, s[k..]) <==>
              OneLine(s[..k]) && k == |s| - 1 && s[k] == '/'
    {
      StarOfDot(s[..k]);
      OnlySlash(s[k..]);
      assert s[k..] == "/" <==> k == |s| - 1 && s[k] == '/';
    }
  }

  lemma {:induction false} DirectoriesMeanPrefix(s: string)
    ensures InTerm(DIRECTORIES, s) <==> DeepDirectories.Accepts(s)
  {
    assert InTerm(DIRECTORIES, s) <==> s == "" || InAlternative(Then(Star(Dot), Then(Once(Ch('/')), Empty)), s);
    if s != "" {
      LineAndSlash(s);
    }
  }

  lemma {:induction false} TermMeansToken(t: Token, s: string)
    ensures InTerm(t.Tree(), s) <==> t.Accepts(s)
  {
    match t
    case DeepDirectories => DirectoriesMeanPrefix(s);
    case Deep => StarOfDot(s);
    case Segment => StarOfNotSlash(s);
    case One =>
    case Literal(c) =>
  }

  lemma {:induction false} TreeMeansTokens(ts: seq<Token>, s: string)
    ensures InAlternative(TreeOf(ts), s) <==> Accepted(ts, s)
  {
    if ts != [] {
      forall k | 0 <= k <= |s|
        ensures InTerm(ts[0].Tree(), s[..k]) <==> ts[0].Accepts(s[..k])
        ensures InAlternative(TreeOf(ts[1..]), s[k..]) <==> Accepted(ts[1..], s[k..])
      {
        TermMeansToken(ts[0], s[..k]);
        TreeMeansTokens(ts[1..], s[k..]);
      }
    }
  }

  /** Testing a file against the emitted regular expression decides the meaning of the glob. */
  lemma {:induction false} TestDecidesGlob(glob: string, file: string)
    ensures ParsePattern(Source(glob)).Some?
    ensures Test(Source(glob), file) <==> Matches(glob, file)
  {
    SourceParses(glob);
    TreeMeansTokens(Tokens(glob), file);
    GlobMeansTokens(glob, file);
  }

  // ----- the loop that writes the text -----

  lemma {:induction false} TextOfFirst(t: Token, ts: seq<Token>)
    ensures TextOf([t] + ts) == t.Text() + TextOf(ts)
  {
    assert ([t] + ts)[1..] == ts;
  }

  lemma {:induction false} Associates<T>(a: seq<T>, b: seq<T>, c: seq<T>)
    ensures a + (b + c) == a + b + c
  {
  }

  lemma {:induction false} TextOfStep(pattern: string, i: nat, out: string)
    requires i < |pattern|
    ensures var t := TokenAt(pattern, i);
            out + TextOf(Tokens(pattern, i)) == (out + t.Text()) + TextOf(Tokens(pattern, i + t.Width()))
  {
    var t, rest := TokenAt(pattern, i), Tokens(pattern, i + TokenAt(pattern, i).Width());
    assert Tokens(pattern, i) == [t] + rest;
    hide Tokens, TokenAt;
    TextOfFirst(t, rest);
    Associates(out, t.Text(), TextOf(rest));
  }

  lemma {:induction false} TestDecidesEveryFile(glob: string)
    ensures ParsePattern(Source(glob)).Some?
    ensures forall file :: Test(Source(glob), file) <==> Matches(glob, file)
  {
    SourceParses(glob);
    forall file ensures Test(Source(glob), file) <==> Matches(glob, file) {
      TestDecidesGlob(glob, file);
    }
  }

  lemma {:induction false} NoTextLeft(pattern: string)
    ensures TextOf(Tokens(pattern, |pattern|)) == ""
  {
  }

  /** The translation loop, one glob character after another. */
  method GlobToRegExp(pattern: string) returns (out: string)
    ensures out == Source(pattern)
    ensures ParsePattern(out).Some?
    ensures forall file :: Test(out, file) <==> Matches(pattern, file)
  {
    hide Tokens, TextOf, Matches, Test, ParsePattern;
    out := "^";
    var i := 0;
    while i < |pattern|
      invariant 0 <= i <= |pattern|
      invariant out + TextOf(Tokens(pattern, i)) == "^" + TextOf(Tokens(pattern))
    {
      ghost var t, start, before := TokenAt(pattern, i), i, out;
      TextOfStep(pattern, i, out);
      var c := pattern[i];
      if c == '*' {
        if i + 1 < |pattern| && pattern[i + 1] == '*' {
          if i + 2 < |pattern| && pattern[i + 2] == '/' {
            out := out + "(?:.*/)?";
            i := i + 2;
          } else {
            out := out + ".*";
            i := i + 1;
          }
        } else {
          out := out + "[^/]*";
        }
      } else if c == '?' {
        out := out + "[^/]";
      } else if c in ESCAPED {
        out := out + ['\\', c];
      } else {
        out := out + [c];
      }
      i := i + 1;
      assert i == start + t.Width() && out == before + t.Text();
    }
    NoTextLeft(pattern);
    out := out + "$";
    TestDecidesEveryFile(pattern);
  }

  // ----- the cheap overlap test -----

  /** Index of the first wildcard from i on, or the length. */
  function FirstWildcard(pattern: string, i: nat := 0): (n: nat)
    requires i <= |pattern|
    ensures i <= n <= |pattern|
    ensures forall j | i <= j < n :: !Wildcard(pattern[j])
    ensures n < |pattern| ==> Wildcard(pattern[n])
    decreases |pattern| - i
  {
    if i == |pattern| || Wildcard(pattern[i]) then i else FirstWildcard(pattern, i + 1)
  }

  /** One past the last slash, or 0. */
  function AfterLastSlash(s: string): (n: nat)
    ensures n <= |s|
    ensures n > 0 ==> s[n - 1] == '/'
    ensures forall i | n <= i < |s| :: s[i] != '/'
  {
    if s == "" then 0
    else if s[|s| - 1] == '/' then |s|
    else AfterLastSlash(s[..|s| - 1])
  }

  function LiteralPrefix(pattern: string): string {
    var head := pattern[..FirstWildcard(pattern)];
    head[..AfterLastSlash(head)]
  }

  /** A leading part of a pattern that names a directory: no wildcard, and ending in a slash (or the root). */
  predicate LeadingDirectory(d: string, pattern: string) {
    d <= pattern && (forall i | 0 <= i < |d| :: !Wildcard(d[i])) && (d == "" || d[|d| - 1] == '/')
  }

  /** The literal prefix is the longest leading directory. */
  lemma {:induction false} PrefixIsLongest(pattern: string, d: string)
    ensures LeadingDirectory(LiteralPrefix(pattern), pattern)
    ensures LeadingDirectory(d, pattern) ==> d <= LiteralPrefix(pattern)
  {
    var head := pattern[..FirstWildcard(pattern)];
    if LeadingDirectory(d, pattern) {
      assert forall i | 0 <= i < |d| :: !Wildcard(pattern[i]);
      assert d != "" ==> head[|d| - 1] == '/';
    }
  }

  predicate MayOverlap(a: string, b: string) {
    LiteralPrefix(b) <= LiteralPrefix(a) || LiteralPrefix(a) <= LiteralPrefix(b)
  }

  lemma {:induction false} AcceptedLiteral(c: char, ts: seq<Token>, s: string)
    ensures Accepted([Literal(c)] + ts, s) <==> s != "" && s[0] == c && Accepted(ts, s[1..])
  {
    var all := [Literal(c)] + ts;
    assert all[1..] == ts;
    if Accepted(all, s) {
      var k :| 0 <= k <= |s| && all[0].Accepts(s[..k]) && Accepted(all[1..], s[k..]);
      assert k == 1 && s[..k][0] == s[0];
    }
    if s != "" && s[0] == c && Accepted(ts, s[1..]) {
      assert all[0].Accepts(s[..1]) && Accepted(all[1..], s[1..]);
    }
  }

  /** What is left of the glob's head comes first, and the rest of the glob matches what follows. */
  predicate HeadThenRest(glob: string, i: nat, s: string)
    requires i <= FirstWildcard(glob)
  {
    var n := FirstWildcard(glob);
    glob[i..n] <= s && Accepted(Tokens(glob, n), s[n - i..])
  }

  lemma {:induction false} HeadStep(glob: string, i: nat, s: string)
    requires i < FirstWildcard(glob)
    ensures HeadThenRest(glob, i, s) <==> s != "" && s[0] == glob[i] && HeadThenRest(glob, i + 1, s[1..])
  {
    var n := FirstWildcard(glob);
    assert glob[i..n] == [glob[i]] + glob[i + 1..n];
    if s != "" {
      assert s == [s[0]] + s[1..];
      assert glob[i..n] <= s <==> s[0] == glob[i] && glob[i + 1..n] <= s[1..];
      if |s| >= n - i {
        assert s[1..][n - i - 1..] == s[n - i..];
      }
    }
  }

  /** Up to the first wildcard, matching is comparing: what is left must match the rest of the glob. */
  lemma {:induction false} MatchSplitsAtHead(glob: string, i: nat, s: string)
    requires i <= FirstWildcard(glob)
    ensures Accepted(Tokens(glob, i), s) <==> HeadThenRest(glob, i, s)
    decreases |glob| - i
  {
    if i == FirstWildcard(glob) {
      assert s[0..] == s;
    } else {
      HeadStep(glob, i, s);
      assert !Wildcard(glob[i]);
      AcceptedLiteral(glob[i], Tokens(glob, i + 1), s);
      if s != "" {
        MatchSplitsAtHead(glob, i + 1, s[1..]);
      }
    }
  }

  /** Every file a glob matches starts with the glob's literal prefix. */
  lemma {:induction false} MatchStartsWithPrefix(glob: string, s: string)
    requires Matches(glob, s)
    ensures LiteralPrefix(glob) <= s
  {
    GlobMeansTokens(glob, s);
    MatchSplitsAtHead(glob, 0, s);
  }

  /** The path lies below every leading directory of the pattern. */
  ghost predicate Below(file: string, pattern: string) {
    forall d | LeadingDirectory(d, pattern) :: d <= file
  }

  /** The test holds exactly if some path lies below the leading directories of both patterns. */
  lemma {:induction false} OverlapIffCommonDirectory(a: string, b: string)
    ensures MayOverlap(a, b) <==> exists file :: Below(file, a) && Below(file, b)
  {
    forall d ensures LeadingDirectory(d, a) ==> d <= LiteralPrefix(a) {
      PrefixIsLongest(a, d);
    }
    forall d ensures LeadingDirectory(d, b) ==> d <= LiteralPrefix(b) {
      PrefixIsLongest(b, d);
    }
    PrefixIsLongest(a, "");
    PrefixIsLongest(b, "");
    if MayOverlap(a, b) {
      var file := if LiteralPrefix(a) <= LiteralPrefix(b) then LiteralPrefix(b) else LiteralPrefix(a);
      assert Below(file, a) && Below(file, b);
    }
  }

  /** The fence never misses: globs with a common file always count as overlapping. */
  lemma {:induction false} OverlapSound(a: string, b: string, file: string)
    requires Matches(a, file) && Matches(b, file)
    ensures MayOverlap(a, b)
  {
    MatchStartsWithPrefix(a, file);
    MatchStartsWithPrefix(b, file);
  }

  /** The same, of the regular expressions themselves. */
  lemma {:induction false} OverlapSoundForRegExps(a: string, b: string, file: string)
    requires ParsePattern(Source(a)).Some? && ParsePattern(Source(b)).Some?
    requires Test(Source(a), file) && Test(Source(b), file)
    ensures MayOverlap(a, b)
  {
    TestDecidesGlob(a, file);
    TestDecidesGlob(b, file);
    OverlapSound(a, b, file);
  }

  // ----- where the overlap test is exact, and where it is not -----

  /** A directory name as a lease spells it: no wildcard, and ending in a slash (or the root). */
  predicate Directory(d: string) {
    (forall i | 0 <= i < |d| :: !Wildcard(d[i])) && OneLine(d) && (d == "" || d[|d| - 1] == '/')
  }

  lemma {:induction false} LoneDeep(s: string)
    ensures Accepted([Deep], s) <==> OneLine(s)
  {
    assert [Deep][1..] == [];
    assert s[..|s|] == s;
    if OneLine(s) {
      assert Deep.Accepts(s[..|s|]) && Accepted([], s[|s|..]);
    }
  }

  lemma {:induction false} DirectoryClaim(d: string, file: string)
    requires Directory(d)
    ensures LiteralPrefix(d + "**") == d
    ensures Matches(d + "**", file) <==> d <= file && OneLine(file[|d|..])
  {
    var glob := d + "**";
    var n := FirstWildcard(glob);
    assert glob[|d|] == '*';
    assert forall i | 0 <= i < |d| :: !Wildcard(glob[i]);
    assert n == |d|;
    assert glob[..n] == d;
    GlobMeansTokens(glob, file);
    MatchSplitsAtHead(glob, 0, file);
    assert Tokens(glob, n) == [Deep] by { assert Tokens(glob, n + 2) == []; }
    if d <= file {
      LoneDeep(file[|d|..]);
    }
  }

  /** On claims of whole directories the test is exact: it refuses only claims that do share a file. */
  lemma {:induction false} OverlapExactOnDirectories(d: string, e: string)
    requires Directory(d) && Directory(e)
    ensures MayOverlap(d + "**", e + "**") <==>
            exists file :: Matches(d + "**", file) && Matches(e + "**", file)
  {
    if MayOverlap(d + "**", e + "**") {
      var file := if |d| <= |e| then e else d;
      DirectoryClaim(d, file);
      DirectoryClaim(e, file);
      assert Matches(d + "**", file) && Matches(e + "**", file);
    }
    if file :| Matches(d + "**", file) && Matches(e + "**", file) {
      OverlapSound(d + "**", e + "**", file);
    }
  }

  /** Elsewhere it over-approximates: two different files of one directory count as overlapping. */
  lemma {:induction false} OverlapOverApproximates()
    ensures MayOverlap("s/a", "s/b")
    ensures forall file :: !(Matches("s/a", file) && Matches("s/b", file))
  {
    var a, b := "s/a", "s/b";
    assert FirstWildcard(a) == 3 && FirstWildcard(b) == 3;
    assert a[..3] == a && b[..3] == b;
    assert AfterLastSlash(a) == 2 && AfterLastSlash(b) == 2 by { assert a[1] == '/' && b[1] == '/'; }
    forall file ensures !(Matches(a, file) && Matches(b, file)) {
      GlobMeansTokens(a, file);
      GlobMeansTokens(b, file);
      MatchSplitsAtHead(a, 0, file);
      MatchSplitsAtHead(b, 0, file);
      assert a <= file ==> file[2] == 'a';
      assert b <= file ==> file[2] == 'b';
    }
  }
}
