/**
 The fragment of regular expressions that the lease registry emits, after section 22.2 of ECMA-262:
 pattern text, its syntax tree, the parser from one to the other, and the language of a tree.

 Everything is a whole-string pattern `^...$` without flags, so `RegExp.prototype.test` answers
 whether the whole input lies in the language. A construct outside the fragment does not parse.
 */
module RegExp {
  import opened Options

  /** An atom, a quantified atom and a sequence of those (the grammar's Atom, Term and Alternative). */
  datatype Atom = Ch(c: char) | Dot | NotSlash | Group(body: Alternative)
  datatype Term = Once(atom: Atom) | Star(atom: Atom) | Maybe(atom: Atom)
  datatype Alternative = Empty | Then(head: Term, tail: Alternative)

  /** The characters that stand for themselves only behind a backslash. */
  const SYNTAX_CHARACTERS: set<char> := {'^', '$', '\\', '.', '*', '+', '?', '(', ')', '[', ']', '{', '}', '|'}

  predicate LineTerminator(c: char) {
    c == '\n' || c == '\r' || c == '\U{2028}' || c == '\U{2029}'
  }

  // ----- parsing -----

  /** Reads one atom off the front. What remains is always shorter. */
  function ParseAtom(src: string): (r: Option<(Atom, string)>)
    requires src != []
    ensures r.Some? ==> |r.value.1| < |src|
    decreases |src|, 0
  {
    if src[0] == '.' then Some((Dot, src[1..]))
    else if src[0] == '\\' then
      if |src| >= 2 && src[1] in SYNTAX_CHARACTERS then Some((Ch(src[1]), src[2..])) else None
    else if src[0] == '[' then
      if |src| >= 4 && src[1..4] == "^/]" then Some((NotSlash, src[4..])) else None
    else if src[0] == '(' then
      if |src| >= 3 && src[1..3] == "?:" then
        match ParseAlternative(src[3..])
        case Some((body, rest)) => if rest != [] && rest[0] == ')' then Some((Group(body), rest[1..])) else None
        case None => None
      else None
    else if src[0] in SYNTAX_CHARACTERS then None
    else Some((Ch(src[0]), src[1..]))
  }

  /** Attaches the quantifier that follows an atom. A `?` behind a quantifier would make it lazy. */
  function ParseQuantifier(atom: Atom, rest: string): (r: Option<(Term, string)>)
    ensures r.Some? ==> |r.value.1| <= |rest|
  {
    if rest != [] && (rest[0] == '*' || rest[0] == '?') then
      if |rest| >= 2 && rest[1] == '?' then None
      else Some((if rest[0] == '*' then Star(atom) else Maybe(atom), rest[1..]))
    else Some((Once(atom), rest))
  }

  /** Reads terms up to the end of the text, a closing parenthesis or the final `$`. */
  function ParseAlternative(src: string): (r: Option<(Alternative, string)>)
    ensures r.Some? ==> |r.value.1| <= |src|
    decreases |src|, 1
  {
    if src == [] || src[0] == ')' || src[0] == '$' then Some((Empty, src))
    else
      match ParseAtom(src)
      case None => None
      case Some((atom, rest)) =>
        match ParseQuantifier(atom, rest)
        case None => None
        case Some((term, rest')) =>
          match ParseAlternative(rest')
          case None => None
          case Some((tail, rest'')) => Some((Then(term, tail), rest''))
  }

  /** Reads `^...$`. */
  function ParsePattern(src: string): Option<Alternative> {
    if src == [] || src[0] != '^' then None
    else
      match ParseAlternative(src[1..])
      case Some((body, rest)) => if rest == "$" then Some(body) else None
      case None => None
  }

  // ----- languages -----

  predicate InAtom(a: Atom, s: string)
    decreases a, 0
  {
    match a
    case Ch(c) => s == [c]
    case Dot => |s| == 1 && !LineTerminator(s[0])
    case NotSlash => |s| == 1 && s[0] != '/'
    case Group(body) => InAlternative(body, s)
  }

  predicate InStar(a: Atom, s: string)
    decreases a, 1 + |s|
  {
    s == [] || exists k | 1 <= k <= |s| :: InAtom(a, s[..k]) && InStar(a, s[k..])
  }

  predicate InTerm(t: Term, s: string)
    decreases t, 0
  {
    match t
    case Once(a) => InAtom(a, s)
    case Star(a) => InStar(a, s)
    case Maybe(a) => s == [] || InAtom(a, s)
  }

  predicate InAlternative(a: Alternative, s: string)
    decreases a, 0
  {
    match a
    case Empty => s == []
    case Then(head, tail) => exists k | 0 <= k <= |s| :: InTerm(head, s[..k]) && InAlternative(tail, s[k..])
  }

  /** `new RegExp(src).test(s)` for a source in the fragment. */
  predicate Test(src: string, s: string)
    requires ParsePattern(src).Some?
  {
    InAlternative(ParsePattern(src).value, s)
  }

  // ----- facts about the languages -----

  /** A run of a one-character atom is any string of such characters. */
  lemma {:induction false} StarOfDot(s: string)
    ensures InStar(Dot, s) <==> forall i | 0 <= i < |s| :: !LineTerminator(s[i])
  {
    if s != [] {
      StarOfDot(s[1..]);
      if forall i | 0 <= i < |s| :: !LineTerminator(s[i]) {
        assert InAtom(Dot, s[..1]);
      }
      if InStar(Dot, s) {
        var k :| 1 <= k <= |s| && InAtom(Dot, s[..k]) && InStar(Dot, s[k..]);
        assert k == 1;
        assert forall i | 1 <= i < |s| :: s[i] == s[1..][i - 1];
      }
    }
  }

  lemma {:induction false} StarOfNotSlash(s: string)
    ensures InStar(NotSlash, s) <==> '/' !in s
  {
    if s != [] {
      StarOfNotSlash(s[1..]);
      assert s == [s[0]] + s[1..];
      if '/' !in s {
        assert InAtom(NotSlash, s[..1]);
      }
      if InStar(NotSlash, s) {
        var k :| 1 <= k <= |s| && InAtom(NotSlash, s[..k]) && InStar(NotSlash, s[k..]);
        assert k == 1;
      }
    }
  }

  /** A pattern that starts with a literal character matches exactly the strings that start with it. */
  lemma {:induction false} LiteralFirst(c: char, tail: Alternative, s: string)
    ensures InAlternative(Then(Once(Ch(c)), tail), s) <==> s != [] && s[0] == c && InAlternative(tail, s[1..])
  {
    if InAlternative(Then(Once(Ch(c)), tail), s) {
      var k :| 0 <= k <= |s| && InTerm(Once(Ch(c)), s[..k]) && InAlternative(tail, s[k..]);
      assert InAtom(Ch(c), s[..k]);
      assert k == 1 && s[..k][0] == c;
    }
    if s != [] && s[0] == c && InAlternative(tail, s[1..]) {
      assert InAtom(Ch(c), s[..1]);
      assert InTerm(Once(Ch(c)), s[..1]);
    }
  }
}
