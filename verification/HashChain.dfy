/**
 The verifier of hash-chained audit tables, and what its verdicts mean.

 A table is listed in the order of the window (creation time, then id). `content` is a row's JSON text
 without the chain column, so it begins with a brace; `stored` is the chain column, None for a row that
 was never chained. The hash is any function whose values are text in lower-case hex digits. Nothing else
 is assumed of it, except where a lemma says that it has no collisions.
 */
module HashChain {
  import opened Options

  datatype Row = Row(content: string, stored: Option<string>)

  type Table = seq<Row>

  datatype Status = VALID | CHAIN_BREAK
  datatype Report = Report(status: Status, total: nat, unchained: nat, breaks: nat, firstBreak: Option<nat>)

  predicate JsonRows(t: Table) {
    forall i | 0 <= i < |t| :: t[i].content != "" && t[i].content[0] == '{'
  }

  predicate FullyChained(t: Table) {
    forall i | 0 <= i < |t| :: t[i].stored.Some?
  }

  // ----- the verifier -----

  const GENESIS: string := "GENESIS"

  /** What row i is chained from: the stored hash of the row before it, or the genesis marker. */
  function Link(t: Table, i: nat): string
    requires i < |t|
  {
    if i == 0 || t[i - 1].stored.None? then GENESIS else t[i - 1].stored.value
  }

  function Input(t: Table, i: nat): string
    requires i < |t|
  {
    Link(t, i) + t[i].content
  }

  predicate IsBreak(hash: string -> string, t: Table, i: nat)
    requires i < |t|
  {
    t[i].stored.Some? && t[i].stored.value != hash(Input(t, i))
  }

  /** The indices of the broken rows, in order. */
  function Breaks(hash: string -> string, t: Table, n: nat): (r: seq<nat>)
    requires n <= |t|
    ensures forall i :: i in r <==> 0 <= i < n && IsBreak(hash, t, i)
    ensures forall j, k | 0 <= j < k < |r| :: r[j] < r[k]
  {
    if n == 0 then []
    else
      var before := Breaks(hash, t, n - 1);
      assert forall j | 0 <= j < |before| :: before[j] in before;
      before + if IsBreak(hash, t, n - 1) then [n - 1] else []
  }

  function Unchained(t: Table): nat {
    if t == [] then 0 else Unchained(t[1..]) + if t[0].stored.None? then 1 else 0
  }

  function Verify(hash: string -> string, t: Table): Report {
    var breaks := Breaks(hash, t, |t|);
    Report(if breaks == [] then VALID else CHAIN_BREAK, |t|, Unchained(t), |breaks|,
           if breaks == [] then None else Some(breaks[0]))
  }

  /** The row stores another hash than that of the hash stored before it (or the marker) and its own content. */
  predicate Mismatched(hash: string -> string, t: Table, i: nat) {
    i < |t| && t[i].stored.Some? &&
    t[i].stored.value !=
      hash((if i > 0 && t[i - 1].stored.Some? then t[i - 1].stored.value else "GENESIS") + t[i].content)
  }

  function Members(s: seq<nat>): set<nat> {
    set x | x in s
  }

  lemma {:induction false} CountOneMore(s: set<nat>, x: nat)
    requires x !in s
    ensures |s + {x}| == |s| + 1
  {
  }

  lemma {:induction false} AscendingCount(s: seq<nat>)
    requires forall j, k | 0 <= j < k < |s| :: s[j] < s[k]
    ensures |Members(s)| == |s|
  {
    if s != [] {
      var init, last := s[..|s| - 1], s[|s| - 1];
      AscendingCount(init);
      assert s == init + [last];
      assert Members(s) == Members(init) + {last};
      assert last !in Members(init);
      hide *;
      CountOneMore(Members(init), last);
    }
  }

  function UnchainedAt(t: Table): set<nat> {
    set i: nat | i < |t| && t[i].stored.None?
  }

  lemma {:induction false} UnchainedConcat(t: Table, u: Table)
    ensures Unchained(t + u) == Unchained(t) + Unchained(u)
    decreases |t|
  {
    if t == [] {
      assert t + u == u;
    } else {
      assert (t + u)[1..] == t[1..] + u;
      UnchainedConcat(t[1..], u);
    }
  }

  lemma {:induction false} UnchainedCount(t: Table)
    ensures Unchained(t) == |UnchainedAt(t)|
    decreases |t|
  {
    if t != [] {
      var n := |t| - 1;
      assert t == t[..n] + [t[n]];
      UnchainedCount(t[..n]);
      UnchainedConcat(t[..n], [t[n]]);
      assert UnchainedAt(t) == UnchainedAt(t[..n]) + if t[n].stored.None? then {n} else {};
      assert n !in UnchainedAt(t[..n]);
      assert Unchained([t[n]]) == if t[n].stored.None? then 1 else 0 by { assert [t[n]][1..] == []; }
      hide *;
      CountOneMore(UnchainedAt(t[..n]), n);
    }
  }

  lemma {:induction false} BreaksAreMismatches(hash: string -> string, t: Table)
    ensures forall i: nat :: i in Breaks(hash, t, |t|) <==> Mismatched(hash, t, i)
    ensures |Breaks(hash, t, |t|)| == |set i: nat | i < |t| && Mismatched(hash, t, i)|
  {
    var breaks := Breaks(hash, t, |t|);
    hide Breaks;
    AscendingCount(breaks);
    assert Members(breaks) == set i: nat | i < |t| && Mismatched(hash, t, i);
  }

  lemma {:induction false} LeastIsFirst(s: seq<nat>, k: nat)
    requires forall j, k | 0 <= j < k < |s| :: s[j] < s[k]
    ensures s != [] && s[0] == k <==> k in s && forall i: nat | i < k :: i !in s
  {
    if k in s {
      var j :| 0 <= j < |s| && s[j] == k;
      assert s[0] in s;
    }
  }

  /**
   The report in terms of the rows: how many there are, how many are unchained and how many mismatched, and
   the first that is.
   */
  lemma {:induction false} VerifyReports(hash: string -> string, t: Table)
    ensures var r := Verify(hash, t);
            && r.total == |t|
            && r.unchained == |set i: nat | i < |t| && t[i].stored.None?|
            && r.breaks == |set i: nat | i < |t| && Mismatched(hash, t, i)|
            && (r.status == VALID <==> forall i: nat :: !Mismatched(hash, t, i))
            && forall k: nat :: r.firstBreak == Some(k) <==>
                 Mismatched(hash, t, k) && forall i: nat | i < k :: !Mismatched(hash, t, i)
  {
    var breaks := Breaks(hash, t, |t|);
    BreaksAreMismatches(hash, t);
    UnchainedCount(t);
    hide Breaks, Mismatched, Unchained;
    forall k: nat ensures breaks != [] && breaks[0] == k <==> k in breaks && forall i: nat | i < k :: i !in breaks {
      LeastIsFirst(breaks, k);
    }
    assert breaks != [] ==> breaks[0] in breaks;
    assert Verify(hash, t).firstBreak == if breaks == [] then None else Some(breaks[0]);
  }

  predicate Intact(hash: string -> string, t: Table) {
    forall i | 0 <= i < |t| :: !IsBreak(hash, t, i)
  }

  lemma {:induction false} ValidMeansNoBreak(hash: string -> string, t: Table)
    ensures Verify(hash, t).status == VALID <==> Intact(hash, t)
    ensures Verify(hash, t).status == VALID <==> Verify(hash, t).firstBreak.None?
  {
    var breaks := Breaks(hash, t, |t|);
    if breaks != [] {
      assert breaks[0] in breaks;
    }
  }

  // ----- what the stored hash of the last row commits to -----

  predicate HexText(s: string) {
    forall i | 0 <= i < |s| :: '0' <= s[i] <= '9' || 'a' <= s[i] <= 'f'
  }

  ghost predicate HexHash(hash: string -> string) {
    forall s :: HexText(hash(s))
  }

  ghost predicate CollisionFree(hash: string -> string) {
    forall s, t :: hash(s) == hash(t) ==> s == t
  }

  function FirstBrace(s: string): nat {
    if s == "" || s[0] == '{' then 0 else 1 + FirstBrace(s[1..])
  }

  lemma {:induction false} BraceStartsContent(link: string, content: string)
    requires '{' !in link && content != "" && content[0] == '{'
    ensures FirstBrace(link + content) == |link|
  {
    if link == "" {
      assert link + content == content;
    } else {
      assert (link + content)[0] == link[0] && (link + content)[1..] == link[1..] + content;
      BraceStartsContent(link[1..], content);
    }
  }

  /** No link contains a brace, so link and content can be told apart in what is hashed. */
  lemma {:induction false} InputSplits(link: string, content: string, link': string, content': string)
    requires '{' !in link && '{' !in link'
    requires content != "" && content[0] == '{' && content' != "" && content'[0] == '{'
    ensures link + content == link' + content' <==> link == link' && content == content'
  {
    BraceStartsContent(link, content);
    BraceStartsContent(link', content');
    assert link == (link + content)[..|link|] && content == (link + content)[|link|..];
    assert link' == (link' + content')[..|link'|] && content' == (link' + content')[|link'|..];
  }

  lemma {:induction false} HexIsNotGenesis(s: string)
    requires HexText(s)
    ensures s != GENESIS && '{' !in s
  {
    assert GENESIS[0] == 'G';
  }

  /** A table of JSON rows, all chained, that the verifier calls valid. */
  predicate Accepted(hash: string -> string, t: Table) {
    JsonRows(t) && FullyChained(t) && Verify(hash, t).status == VALID
  }

  predicate Sealed(hash: string -> string, t: Table) {
    JsonRows(t) && FullyChained(t) && Intact(hash, t)
  }

  lemma {:induction false} AcceptedIsSealed(hash: string -> string, t: Table)
    ensures Accepted(hash, t) <==> Sealed(hash, t)
  {
    ValidMeansNoBreak(hash, t);
  }

  /** Each row of such a table stores the hash of its own input, and only the first starts the chain. */
  lemma {:induction false} SealedRow(hash: string -> string, t: Table, i: nat)
    requires HexHash(hash) && Sealed(hash, t) && i < |t|
    ensures t[i].stored == Some(hash(Input(t, i)))
    ensures '{' !in Link(t, i)
    ensures Link(t, i) == GENESIS <==> i == 0
    ensures t[i].content != "" && t[i].content[0] == '{'
  {
    assert !IsBreak(hash, t, i);
    if i > 0 {
      assert !IsBreak(hash, t, i - 1);
      HexIsNotGenesis(hash(Input(t, i - 1)));
    } else {
      assert '{' !in GENESIS;
    }
  }

  lemma {:induction false} PrefixStaysIntact(hash: string -> string, t: Table, n: nat)
    requires Intact(hash, t) && n <= |t|
    ensures Intact(hash, t[..n])
  {
    forall i | 0 <= i < n ensures !IsBreak(hash, t[..n], i) {
      assert !IsBreak(hash, t, i);
    }
  }

  /** Walks two tables back from their last rows until what was hashed differs. */
  function Collision(t: Table, u: Table): Option<(string, string)> {
    if t == [] || u == [] then None
    else if Input(t, |t| - 1) != Input(u, |u| - 1) then Some((Input(t, |t| - 1), Input(u, |u| - 1)))
    else Collision(t[..|t| - 1], u[..|u| - 1])
  }

  /** When the last rows hashed the same text, they are the same row and the rows before them end alike. */
  lemma {:induction false} EqualEnds(hash: string -> string, t: Table, u: Table)
    requires HexHash(hash) && Sealed(hash, t) && Sealed(hash, u)
    requires t != [] && u != [] && Input(t, |t| - 1) == Input(u, |u| - 1)
    ensures t[|t| - 1] == u[|u| - 1]
    ensures |t| == 1 <==> |u| == 1
    ensures |t| > 1 ==> t[|t| - 2].stored == u[|u| - 2].stored
  {
    var n, m := |t| - 1, |u| - 1;
    SealedRow(hash, t, n);
    SealedRow(hash, u, m);
    InputSplits(Link(t, n), t[n].content, Link(u, m), u[m].content);
    if n > 0 {
      SealedRow(hash, t, n - 1);
      SealedRow(hash, u, m - 1);
    }
  }

  /** Either the walk finds nothing and the tables are equal, or it finds two texts with one hash. */
  ghost predicate SameOrCollision(hash: string -> string, t: Table, u: Table) {
    match Collision(t, u)
    case None => t == u
    case Some(pair) => pair.0 != pair.1 && hash(pair.0) == hash(pair.1)
  }

  lemma {:induction false} SameLastRow(t: Table, u: Table)
    requires t != [] && u != [] && t[|t| - 1] == u[|u| - 1]
    ensures t == u <==> t[..|t| - 1] == u[..|u| - 1]
  {
    assert t == t[..|t| - 1] + [t[|t| - 1]] && u == u[..|u| - 1] + [u[|u| - 1]];
  }

  lemma {:induction false} EndHashCommitsBefore(hash: string -> string, t: Table, u: Table)
    requires HexHash(hash) && Sealed(hash, t) && Sealed(hash, u)
    requires |t| > 1 && |u| > 1 && t[|t| - 2].stored == u[|u| - 2].stored
    ensures SameOrCollision(hash, t[..|t| - 1], u[..|u| - 1])
    decreases |t|, 0
  {
    PrefixStaysIntact(hash, t, |t| - 1);
    PrefixStaysIntact(hash, u, |u| - 1);
    EndHashCommits(hash, t[..|t| - 1], u[..|u| - 1]);
  }

  /**
   Two fully chained tables that both verify and end in the same stored hash are the same table, or the
   walk back from their ends exhibits two different texts with one hash.
   */
  lemma {:induction false} EndHashCommits(hash: string -> string, t: Table, u: Table)
    requires HexHash(hash) && Sealed(hash, t) && Sealed(hash, u)
    requires t != [] && u != [] && t[|t| - 1].stored == u[|u| - 1].stored
    ensures SameOrCollision(hash, t, u)
    decreases |t|, 1
  {
    var n, m := |t| - 1, |u| - 1;
    if Input(t, n) != Input(u, m) {
      SealedRow(hash, t, n);
      SealedRow(hash, u, m);
    } else {
      EqualEnds(hash, t, u);
      SameLastRow(t, u);
      if n > 0 {
        EndHashCommitsBefore(hash, t, u);
      }
    }
  }

  lemma {:induction false} NoCollisionFound(hash: string -> string, t: Table, u: Table)
    requires CollisionFree(hash) && SameOrCollision(hash, t, u)
    ensures t == u
  {
  }

  /** Without collisions, the last stored hash determines the whole table. */
  lemma {:induction false} EndHashDeterminesTable(hash: string -> string, t: Table, u: Table)
    requires HexHash(hash) && CollisionFree(hash) && Accepted(hash, t) && Accepted(hash, u)
    requires t != [] && u != [] && t[|t| - 1].stored == u[|u| - 1].stored
    ensures t == u
  {
    AcceptedIsSealed(hash, t);
    AcceptedIsSealed(hash, u);
    EndHashCommits(hash, t, u);
    NoCollisionFound(hash, t, u);
  }

  /** The end must be known: cutting rows off the end of a valid table leaves a valid table. */
  lemma {:induction false} TruncationStaysValid(hash: string -> string, t: Table, n: nat)
    requires Verify(hash, t).status == VALID && n <= |t|
    ensures Verify(hash, t[..n]).status == VALID
  {
    ValidMeansNoBreak(hash, t);
    ValidMeansNoBreak(hash, t[..n]);
    PrefixStaysIntact(hash, t, n);
  }

  lemma {:induction false} AllUnchained(t: Table)
    requires forall i | 0 <= i < |t| :: t[i].stored.None?
    ensures Unchained(t) == |t|
    decreases |t|
  {
    if t != [] {
      AllUnchained(t[1..]);
    }
  }

  /**
   And the count of unchained rows must be watched: in place of what was cut off, any rows at all may follow
   with an empty chain column, and only that count shows them.
   */
  lemma {:induction false} UnchainedRowsStayValid(hash: string -> string, t: Table, n: nat, forged: Table)
    requires Verify(hash, t).status == VALID && n <= |t|
    requires forall i | 0 <= i < |forged| :: forged[i].stored.None?
    ensures Verify(hash, t[..n] + forged).status == VALID
    ensures Verify(hash, t[..n] + forged).unchained == Unchained(t[..n]) + |forged|
  {
    var u := t[..n] + forged;
    ValidMeansNoBreak(hash, t);
    forall i | 0 <= i < |u| ensures !IsBreak(hash, u, i) {
      if i < n {
        assert !IsBreak(hash, t, i);
      } else {
        assert u[i] == forged[i - n];
      }
    }
    ValidMeansNoBreak(hash, u);
    UnchainedConcat(t[..n], forged);
    AllUnchained(forged);
  }

  // ----- edits -----

  /** Two different texts with one hash. */
  predicate Collides(hash: string -> string, x: string, y: string) {
    x != y && hash(x) == hash(y)
  }

  /** The verifier reports exactly one break, at row k. */
  predicate OneBreakAt(hash: string -> string, t: Table, k: nat) {
    var r := Verify(hash, t);
    r.status == CHAIN_BREAK && r.breaks == 1 && r.firstBreak == Some(k)
  }

  lemma {:induction false} OneValueOnce(s: seq<nat>, k: nat)
    requires k in s && forall i, j | 0 <= i < j < |s| :: s[i] < s[j]
    ensures (forall j | 0 <= j < |s| :: s[j] == k) <==> s == [k]
  {
    assert |s| > 1 ==> s[0] < s[1];
  }

  lemma {:induction false} OnlyBreak(hash: string -> string, t: Table, k: nat)
    requires k < |t| && forall i | 0 <= i < |t| :: IsBreak(hash, t, i) <==> i == k
    ensures OneBreakAt(hash, t, k)
  {
    var breaks := Breaks(hash, t, |t|);
    assert k in breaks;
    assert forall j | 0 <= j < |breaks| :: breaks[j] in breaks;
    OneValueOnce(breaks, k);
  }

  /** The same rows with other contents; the chain column is left alone. */
  predicate ContentEdited(t: Table, u: Table) {
    |t| == |u| && forall i | 0 <= i < |t| :: t[i].stored == u[i].stored
  }

  lemma {:induction false} SamePrefix(link: string, a: string, b: string)
    ensures link + a == link + b <==> a == b
  {
    assert a == (link + a)[|link|..] && b == (link + b)[|link|..];
  }

  lemma {:induction false} SameSuffix(a: string, b: string, content: string)
    ensures a + content == b + content <==> a == b
  {
    assert a == (a + content)[..|a|] && b == (b + content)[..|b|];
    assert |a + content| == |a| + |content| && |b + content| == |b| + |content|;
  }

  /** Editing contents breaks exactly the edited rows, except one whose old and new texts have one hash. */
  lemma {:induction false} ContentEditsBreakThere(hash: string -> string, t: Table, u: Table, i: nat)
    requires FullyChained(t) && Intact(hash, t)
    requires ContentEdited(t, u) && i < |t|
    ensures IsBreak(hash, u, i) <==>
            u[i].content != t[i].content && !Collides(hash, Input(t, i), Input(u, i))
  {
    assert !IsBreak(hash, t, i);
    assert Link(u, i) == Link(t, i);
    SamePrefix(Link(t, i), t[i].content, u[i].content);
  }

  /** Editing one row's content is reported as exactly one break, at that row, unless the two texts collide. */
  lemma {:induction false} OneEditOneBreak(hash: string -> string, t: Table, k: nat, content: string)
    requires FullyChained(t) && Verify(hash, t).status == VALID
    requires k < |t| && content != t[k].content
    ensures OneBreakAt(hash, t[k := t[k].(content := content)], k) ||
            Collides(hash, Link(t, k) + t[k].content, Link(t, k) + content)
  {
    hide IsBreak, OneBreakAt;
    var u := t[k := t[k].(content := content)];
    ValidMeansNoBreak(hash, t);
    if !Collides(hash, Link(t, k) + t[k].content, Link(t, k) + content) {
      assert Link(u, k) == Link(t, k);
      forall i | 0 <= i < |u| ensures IsBreak(hash, u, i) <==> i == k {
        ContentEditsBreakThere(hash, t, u, i);
      }
      OnlyBreak(hash, u, k);
    }
  }

  /** A row carried over into another table is broken there if it is linked to something else, or collides. */
  lemma {:induction false} RelinkedRow(hash: string -> string, t: Table, i: nat, u: Table, j: nat)
    requires FullyChained(t) && Intact(hash, t)
    requires i < |t| && j < |u| && u[j] == t[i]
    ensures IsBreak(hash, u, j) <==>
            Link(u, j) != Link(t, i) && !Collides(hash, Input(t, i), Input(u, j))
  {
    assert !IsBreak(hash, t, i);
    SameSuffix(Link(u, j), Link(t, i), t[i].content);
  }

  lemma {:induction false} LinkAfterStoredEdit(t: Table, k: nat, stored: Option<string>, i: nat)
    requires k < |t| && i < |t|
    ensures Link(t[k := t[k].(stored := stored)], i)
         == if i != k + 1 then Link(t, i) else if stored.None? then GENESIS else stored.value
  {
  }

  lemma {:induction false} StoredEditBreaksNext(
      hash: string -> string, t: Table, k: nat, stored: Option<string>, i: nat)
    requires HexHash(hash) && Sealed(hash, t)
    requires k < |t| && i < |t| && i != k && stored != t[k].stored
    ensures var u := t[k := t[k].(stored := stored)];
            IsBreak(hash, u, i) <==> i == k + 1 && !Collides(hash, Input(t, i), Input(u, i))
  {
    LinkAfterStoredEdit(t, k, stored, i);
    RelinkedRow(hash, t, i, t[k := t[k].(stored := stored)], i);
    SealedRow(hash, t, i);
  }

  lemma {:induction false} StoredEditBreaksItself(hash: string -> string, t: Table, k: nat, stored: Option<string>)
    requires FullyChained(t) && Intact(hash, t) && k < |t| && stored != t[k].stored
    ensures IsBreak(hash, t[k := t[k].(stored := stored)], k) <==> stored.Some?
  {
    assert !IsBreak(hash, t, k);
    assert Input(t[k := t[k].(stored := stored)], k) == Input(t, k);
  }

  /**
   Editing one row's chain column (to another text, or to nothing) breaks that row unless it was emptied,
   the next row unless its old and new texts collide, and no other.
   */
  lemma {:induction false} StoredEditBreaks(hash: string -> string, t: Table, k: nat, stored: Option<string>, i: nat)
    requires HexHash(hash) && Accepted(hash, t)
    requires k < |t| && i < |t| && stored != t[k].stored
    ensures var u := t[k := t[k].(stored := stored)];
            IsBreak(hash, u, i) <==>
            (i == k && stored.Some?) || (i == k + 1 && !Collides(hash, Input(t, i), Input(u, i)))
  {
    AcceptedIsSealed(hash, t);
    if i == k {
      StoredEditBreaksItself(hash, t, k, stored);
    } else {
      StoredEditBreaksNext(hash, t, k, stored, i);
    }
  }

  /** Walks back from two neighbouring rows until what was hashed differs. */
  function Twins(t: Table, k: nat): (string, string)
    requires k + 1 < |t|
  {
    if k == 0 || Input(t, k) != Input(t, k + 1) then (Input(t, k), Input(t, k + 1)) else Twins(t, k - 1)
  }

  /** In a valid table, neighbouring rows that store the same hash lead back to a collision. */
  lemma {:induction false} TwinsCollide(hash: string -> string, t: Table, k: nat)
    requires HexHash(hash) && Sealed(hash, t)
    requires k + 1 < |t| && t[k].stored == t[k + 1].stored
    ensures Collides(hash, Twins(t, k).0, Twins(t, k).1)
  {
    SealedRow(hash, t, k);
    SealedRow(hash, t, k + 1);
    InputSplits(Link(t, k), t[k].content, Link(t, k + 1), t[k + 1].content);
    if k > 0 && Input(t, k) == Input(t, k + 1) {
      SealedRow(hash, t, k - 1);
      TwinsCollide(hash, t, k - 1);
    }
  }

  /** The texts that must collide for a deletion to go unnoticed. */
  function DeletionTexts(t: Table, k: nat): (string, string)
    requires k + 1 < |t|
  {
    if k > 0 && Link(t, k) == Link(t, k + 1) then Twins(t, k - 1)
    else (Input(t, k + 1), Link(t, k) + t[k + 1].content)
  }

  lemma {:induction false} LinkAfterDeletion(t: Table, k: nat, i: nat)
    requires k + 1 < |t| && i < |t| - 1
    ensures var u := t[..k] + t[k + 1..];
            u[i] == t[if i < k then i else i + 1] && Link(u, i) == Link(t, if i <= k then i else i + 1)
  {
    var u := t[..k] + t[k + 1..];
    assert i > 0 ==> u[i - 1] == t[if i <= k then i - 1 else i];
  }

  lemma {:induction false} EqualLinksCollide(hash: string -> string, t: Table, k: nat)
    requires HexHash(hash) && Sealed(hash, t) && k + 1 < |t| && Link(t, k) == Link(t, k + 1)
    ensures k > 0 && Collides(hash, Twins(t, k - 1).0, Twins(t, k - 1).1)
  {
    SealedRow(hash, t, k);
    SealedRow(hash, t, k + 1);
    if k > 0 {
      SealedRow(hash, t, k - 1);
      TwinsCollide(hash, t, k - 1);
    }
  }

  lemma {:induction false} DeletedRowBreak(hash: string -> string, t: Table, k: nat, i: nat)
    requires HexHash(hash) && Sealed(hash, t)
    requires k + 1 < |t| && i < |t| - 1
    requires !Collides(hash, DeletionTexts(t, k).0, DeletionTexts(t, k).1)
    ensures IsBreak(hash, t[..k] + t[k + 1..], i) <==> i == k
  {
    hide IsBreak, Intact, Twins;
    var kept := if i < k then i else i + 1;
    LinkAfterDeletion(t, k, i);
    RelinkedRow(hash, t, kept, t[..k] + t[k + 1..], i);
    if Link(t, k) == Link(t, k + 1) {
      EqualLinksCollide(hash, t, k);
    }
  }

  /**
   Deleting a row from within a valid table is reported as one break, at the row that followed it, or two
   texts of the table collide.
   */
  lemma {:induction false} DeletionBreaksNext(hash: string -> string, t: Table, k: nat)
    requires HexHash(hash) && Accepted(hash, t)
    requires k + 1 < |t|
    ensures OneBreakAt(hash, t[..k] + t[k + 1..], k) ||
            Collides(hash, DeletionTexts(t, k).0, DeletionTexts(t, k).1)
  {
    hide IsBreak, OneBreakAt, DeletionTexts;
    var u := t[..k] + t[k + 1..];
    AcceptedIsSealed(hash, t);
    if !Collides(hash, DeletionTexts(t, k).0, DeletionTexts(t, k).1) {
      forall i | 0 <= i < |u| ensures IsBreak(hash, u, i) <==> i == k {
        DeletedRowBreak(hash, t, k, i);
      }
      OnlyBreak(hash, u, k);
    }
  }

  // ----- the assumptions can be met -----

  function Tally(n: nat): string {
    if n == 0 then "b" else "a" + Tally(n - 1)
  }

  /** A collision-free hash into hex digits: each character counted out, then closed by another digit. */
  function Unary(s: string): string {
    if s == "" then "" else Tally(s[0] as int) + Unary(s[1..])
  }

  lemma {:induction false} TallyIsHex(n: nat)
    ensures HexText(Tally(n)) && |Tally(n)| == n + 1
  {
    if n > 0 {
      TallyIsHex(n - 1);
    }
  }

  lemma {:induction false} UnaryIsHex(s: string)
    ensures HexText(Unary(s))
  {
    if s != "" {
      TallyIsHex(s[0] as int);
      UnaryIsHex(s[1..]);
    }
  }

  lemma {:induction false} TallySplits(n: nat, x: string, m: nat, y: string)
    requires Tally(n) + x == Tally(m) + y
    ensures n == m && x == y
  {
    assert (Tally(n) + x)[0] == Tally(n)[0] && (Tally(m) + y)[0] == Tally(m)[0];
    assert x == (Tally(n) + x)[|Tally(n)|..] && y == (Tally(m) + y)[|Tally(m)|..];
    if n > 0 {
      assert (Tally(n) + x)[1..] == Tally(n - 1) + x && (Tally(m) + y)[1..] == Tally(m - 1) + y;
      TallySplits(n - 1, x, m - 1, y);
    }
  }

  lemma {:induction false} UnaryIsInjective(s: string, t: string)
    requires Unary(s) == Unary(t)
    ensures s == t
  {
    if s != "" && t != "" {
      TallySplits(s[0] as int, Unary(s[1..]), t[0] as int, Unary(t[1..]));
      UnaryIsInjective(s[1..], t[1..]);
      assert s == [s[0]] + s[1..] && t == [t[0]] + t[1..];
    } else {
      TallyIsHex(if s != "" then s[0] as int else 0);
      TallyIsHex(if t != "" then t[0] as int else 0);
    }
  }

  /** So the lemmas above do not speak of nothing. */
  lemma {:induction false} CollisionFreeHexHashExists()
    ensures exists hash: string -> string :: HexHash(hash) && CollisionFree(hash)
  {
    var hash: string -> string := Unary;
    forall s ensures HexText(hash(s)) {
      UnaryIsHex(s);
    }
    forall s, t | hash(s) == hash(t) ensures s == t {
      UnaryIsInjective(s, t);
    }
    assert HexHash(hash) && CollisionFree(hash);
  }
}
