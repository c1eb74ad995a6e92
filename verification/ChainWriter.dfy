/**
 The trigger that chains audit rows on insertion, and when the verifier accepts what it wrote.

 The verifier takes the rows by creation time and then id, a missing time last. The trigger takes the newest
 row first, a missing time oldest, and never looks at the key of the row it is about to chain. An id is given
 by its place in the order of ids.
 */
module ChainWriter {
  import opened Options
  import opened HashChain

  datatype Key = Key(at: Option<int>, id: int)

  datatype Insertion = Insertion(key: Key, content: string)

  /** A row as the trigger wrote it: what it was chained from, beside its key and content. */
  datatype Entry = Entry(key: Key, content: string, link: string) {
    function Text(): string {
      link + content
    }
  }

  // ----- the two orders -----

  /** Ascending time with missing times last, then ascending id. */
  predicate Before(a: Key, b: Key) {
    || (a.at.Some? && b.at.None?)
    || (a.at.Some? && b.at.Some? && a.at.value < b.at.value)
    || (a.at == b.at && a.id < b.id)
  }

  /** Descending time with missing times last, then descending id. */
  predicate Newer(a: Key, b: Key) {
    || (a.at.Some? && b.at.None?)
    || (a.at.Some? && b.at.Some? && a.at.value > b.at.value)
    || (a.at == b.at && a.id > b.id)
  }

  /** The two orders are opposite, except for a key with a time and one without. */
  lemma {:induction false} OrdersPart(a: Key, b: Key)
    requires Before(a, b)
    ensures a != b && (a.at.None? ==> b.at.None?)
    ensures Newer(b, a) <==> a.at.Some? == b.at.Some?
    ensures Newer(a, b) <==> a.at.Some? != b.at.Some?
  {
  }

  // ----- the trigger -----

  /** The table in the order of the verifier. */
  type Log = seq<Entry>

  /** The entry that comes first in the order of the trigger. */
  function Newest(log: Log): (newest: Option<Entry>)
    ensures newest.None? <==> log == []
    ensures newest.Some? ==> newest.value in log
    ensures newest.Some? ==> forall e | e in log :: e.key == newest.value.key || Newer(newest.value.key, e.key)
  {
    if log == [] then None
    else
      var n := |log| - 1;
      var before := Newest(log[..n]);
      assert log == log[..n] + [log[n]];
      if before.None? || Newer(log[n].key, before.value.key) then Some(log[n]) else before
  }

  function Stored(hash: string -> string, e: Entry): string {
    hash(e.Text())
  }

  function Prior(hash: string -> string, log: Log): string {
    var newest := Newest(log);
    if newest.None? then GENESIS else Stored(hash, newest.value)
  }

  function Chained(hash: string -> string, log: Log, x: Insertion): Entry {
    Entry(x.key, x.content, Prior(hash, log))
  }

  /** How many rows from the start come before the key. */
  function Place(log: Log, key: Key): (p: nat)
    ensures p <= |log|
    ensures forall i | 0 <= i < p :: Before(log[i].key, key)
    ensures p < |log| ==> !Before(log[p].key, key)
  {
    if log != [] && Before(log[0].key, key) then 1 + Place(log[1..], key) else 0
  }

  function Insert(log: Log, e: Entry): Log {
    var p := Place(log, e.key);
    log[..p] + [e] + log[p..]
  }

  /** The table that the trigger leaves after these insertions, one after another. */
  function Written(hash: string -> string, xs: seq<Insertion>): Log {
    if xs == [] then []
    else
      var n := |xs| - 1;
      var log := Written(hash, xs[..n]);
      Insert(log, Chained(hash, log, xs[n]))
  }

  lemma {:induction false} WrittenStep(hash: string -> string, xs: seq<Insertion>)
    requires xs != []
    ensures var log := Written(hash, xs[..|xs| - 1]);
            Written(hash, xs) == Insert(log, Chained(hash, log, xs[|xs| - 1]))
  {
  }

  /** What the verifier sees. */
  function Rows(hash: string -> string, log: Log): Table {
    seq(|log|, i requires 0 <= i < |log| => HashChain.Row(log[i].content, Some(Stored(hash, log[i]))))
  }

  // ----- the table is a sorted list of what was inserted -----

  predicate TakenFrom(log: Log, xs: seq<Insertion>) {
    forall e | e in log :: exists x | x in xs :: x.key == e.key && x.content == e.content
  }

  lemma {:induction false} InsertHolds(log: Log, e: Entry, c: Entry)
    ensures c in Insert(log, e) <==> c == e || c in log
  {
    var p := Place(log, e.key);
    assert log == log[..p] + log[p..];
  }

  predicate HasRow(log: Log, x: Insertion) {
    exists e | e in log :: x.key == e.key && x.content == e.content
  }

  lemma {:induction false} InsertHasRow(log: Log, e: Entry, x: Insertion)
    requires HasRow(log, x) || (x.key == e.key && x.content == e.content)
    ensures HasRow(Insert(log, e), x)
  {
    InsertHolds(log, e, e);
    if HasRow(log, x) {
      var c :| c in log && x.key == c.key && x.content == c.content;
      InsertHolds(log, e, c);
    }
  }

  lemma {:induction false} InsertLength(log: Log, e: Entry)
    ensures |Insert(log, e)| == |log| + 1
  {
  }

  lemma {:induction false} WrittenHasAll(hash: string -> string, xs: seq<Insertion>)
    ensures |Written(hash, xs)| == |xs|
    ensures forall x | x in xs :: HasRow(Written(hash, xs), x)
  {
    if xs != [] {
      hide Written, Insert, HasRow, Newest;
      var n := |xs| - 1;
      var log := Written(hash, xs[..n]);
      var e := Chained(hash, log, xs[n]);
      WrittenHasAll(hash, xs[..n]);
      WrittenStep(hash, xs);
      InsertLength(log, e);
      forall x | x in xs ensures HasRow(Insert(log, e), x) {
        assert x in xs[..n] || x == xs[n];
        InsertHasRow(log, e, x);
      }
    }
  }

  /** The row is chained from the newest row there was, or from the genesis marker if there was none. */
  predicate ChainedFromNewest(hash: string -> string, log: Log, e: Entry) {
    if log == [] then e.link == "GENESIS"
    else exists c | c in log ::
      e.link == hash(c.link + c.content) && forall d | d in log :: d.key == c.key || Newer(c.key, d.key)
  }

  lemma {:induction false} ChainedIsFromNewest(hash: string -> string, log: Log, x: Insertion)
    ensures ChainedFromNewest(hash, log, Chained(hash, log, x))
  {
    if log != [] {
      var c := Newest(log).value;
      assert c in log && Chained(hash, log, x).link == hash(c.link + c.content);
    }
  }

  /** The row that an insertion adds. */
  ghost predicate AddsRow(hash: string -> string, log: Log, x: Insertion, after: Log, e: Entry) {
    && e.key == x.key && e.content == x.content && ChainedFromNewest(hash, log, e)
    && forall c :: c in after <==> c == e || c in log
  }

  /** Each insertion adds one row, chained from the newest of those before it, and leaves those as they are. */
  lemma {:induction false} TriggerChains(hash: string -> string, xs: seq<Insertion>) returns (e: Entry)
    requires xs != []
    ensures AddsRow(hash, Written(hash, xs[..|xs| - 1]), xs[|xs| - 1], Written(hash, xs), e)
  {
    hide Written, Insert, Newest, ChainedFromNewest;
    var log, x := Written(hash, xs[..|xs| - 1]), xs[|xs| - 1];
    e := Chained(hash, log, x);
    WrittenStep(hash, xs);
    ChainedIsFromNewest(hash, log, x);
    forall c ensures c in Insert(log, e) <==> c == e || c in log {
      InsertHolds(log, e, c);
    }
  }

  lemma {:induction false} WrittenHolds(hash: string -> string, xs: seq<Insertion>)
    ensures TakenFrom(Written(hash, xs), xs)
  {
    if xs != [] {
      var n := |xs| - 1;
      var log := Written(hash, xs[..n]);
      WrittenHolds(hash, xs[..n]);
      forall c | c in Written(hash, xs) ensures exists x | x in xs :: x.key == c.key && x.content == c.content {
        InsertHolds(log, Chained(hash, log, xs[n]), c);
        if c in log {
          var x :| x in xs[..n] && x.key == c.key && x.content == c.content;
          assert x in xs;
        } else {
          assert xs[n] in xs;
        }
      }
    }
  }

  /** The table is in the order in which the verifier takes it. */
  predicate Sorted(log: Log) {
    forall i, j | 0 <= i < j < |log| :: Before(log[i].key, log[j].key)
  }

  predicate DistinctKeys(xs: seq<Insertion>) {
    forall i, j | 0 <= i < j < |xs| :: xs[i].key != xs[j].key
  }

  lemma {:induction false} InsertSorts(log: Log, e: Entry)
    requires Sorted(log) && forall c | c in log :: c.key != e.key
    ensures Sorted(Insert(log, e))
  {
    var p, after := Place(log, e.key), Insert(log, e);
    forall i, j | 0 <= i < j < |after| ensures Before(after[i].key, after[j].key) {
      assert forall k | 0 <= k < |log| :: log[k] in log;
      assert p <= j - 1 < |log| && j > p ==> Before(e.key, log[p].key);
    }
  }

  /** Rows with different keys are kept in the order of the verifier, one for each insertion. */
  lemma {:induction false} WrittenIsSorted(hash: string -> string, xs: seq<Insertion>)
    requires DistinctKeys(xs)
    ensures Sorted(Written(hash, xs))
    ensures |Written(hash, xs)| == |xs| && TakenFrom(Written(hash, xs), xs)
    ensures forall x | x in xs :: HasRow(Written(hash, xs), x)
  {
    WrittenHasAll(hash, xs);
    WrittenHolds(hash, xs);
    if xs != [] {
      var n := |xs| - 1;
      var log := Written(hash, xs[..n]);
      WrittenIsSorted(hash, xs[..n]);
      WrittenHolds(hash, xs[..n]);
      forall c | c in log ensures c.key != xs[n].key {
        var x :| x in xs[..n] && x.key == c.key && x.content == c.content;
      }
      InsertSorts(log, Chained(hash, log, xs[n]));
    }
  }

  // ----- insertion in order -----

  /**
   Each key is above all earlier ones for the verifier, and nothing follows a row without a time unless no
   row has a time.
   */
  predicate InOrder(xs: seq<Insertion>) {
    && (forall i, j | 0 <= i < j < |xs| :: Before(xs[i].key, xs[j].key))
    && forall k | 0 <= k < |xs| - 1 :: xs[k].key.at.None? ==> xs[0].key.at.None?
  }

  lemma {:induction false} OrderedPrefix(xs: seq<Insertion>, n: nat)
    requires InOrder(xs) && n <= |xs|
    ensures InOrder(xs[..n])
  {
  }

  lemma {:induction false} InOrderSnoc(xs: seq<Insertion>, n: nat)
    requires n == |xs| - 1
    ensures InOrder(xs) <==>
            && InOrder(xs[..n])
            && (forall i | 0 <= i < n :: Before(xs[i].key, xs[n].key))
            && (n > 0 ==> (xs[n - 1].key.at.None? ==> xs[0].key.at.None?))
  {
    hide Before;
    var ys := xs[..n];
    assert forall j | 0 <= j < n :: ys[j] == xs[j];
    if InOrder(ys) && (forall i | 0 <= i < n :: Before(xs[i].key, xs[n].key)) {
      forall i, j | 0 <= i < j < |xs| ensures Before(xs[i].key, xs[j].key) {
        assert j < n ==> Before(ys[i].key, ys[j].key);
      }
    }
    if InOrder(xs) {
      OrderedPrefix(xs, n);
    }
  }

  predicate Aligned(log: Log, xs: seq<Insertion>) {
    |log| == |xs| && forall i | 0 <= i < |xs| :: log[i].key == xs[i].key && log[i].content == xs[i].content
  }

  lemma {:induction false} PlaceAtEnd(log: Log, key: Key)
    requires forall i | 0 <= i < |log| :: Before(log[i].key, key)
    ensures Place(log, key) == |log|
  {
  }

  lemma {:induction false} InsertAtEnd(log: Log, e: Entry)
    requires Place(log, e.key) == |log|
    ensures Insert(log, e) == log + [e]
  {
  }

  /** One more row, in order: it is appended. */
  lemma {:induction false} AppendsInOrder(hash: string -> string, log: Log, xs: seq<Insertion>)
    requires InOrder(xs) && xs != [] && Aligned(log, xs[..|xs| - 1])
    ensures var e := Chained(hash, log, xs[|xs| - 1]);
            Insert(log, e) == log + [e] && Aligned(log + [e], xs)
  {
    hide Before;
    var n := |xs| - 1;
    forall i | 0 <= i < n ensures Before(log[i].key, xs[n].key) {
      assert xs[..n][i] == xs[i];
    }
    PlaceAtEnd(log, xs[n].key);
    InsertAtEnd(log, Chained(hash, log, xs[n]));
    forall i | 0 <= i < n ensures log[i].key == xs[i].key && log[i].content == xs[i].content {
      assert xs[..n][i] == xs[i];
    }
  }

  lemma {:induction false} WrittenInOrder(hash: string -> string, xs: seq<Insertion>)
    requires InOrder(xs)
    ensures Aligned(Written(hash, xs), xs)
  {
    if xs != [] {
      hide Insert, Chained, Aligned, InOrder;
      OrderedPrefix(xs, |xs| - 1);
      WrittenInOrder(hash, xs[..|xs| - 1]);
      AppendsInOrder(hash, Written(hash, xs[..|xs| - 1]), xs);
    } else {
      assert Written(hash, xs) == [];
    }
  }

  /** The last row is the newest for the trigger exactly if it has a time or the first has none. */
  lemma {:induction false} LastIsNewestIff(log: Log, xs: seq<Insertion>)
    requires xs != [] && Aligned(log, xs) && InOrder(xs)
    ensures Newest(log) == Some(log[|log| - 1]) <==> (xs[|xs| - 1].key.at.None? ==> xs[0].key.at.None?)
  {
    var n, newest := |log| - 1, Newest(log).value;
    var i :| 0 <= i <= n && log[i] == newest;
    assert log[0] in log && log[n] in log;
    assert newest.key == log[n].key || Newer(newest.key, log[n].key);
    assert newest.key == log[0].key || Newer(newest.key, log[0].key);
    assert i < n ==> Before(xs[i].key, xs[n].key);
    assert 0 < i ==> Before(xs[0].key, xs[i].key);
    hide *;
    if i < n {
      OrdersPart(xs[i].key, xs[n].key);
    }
    if 0 < i {
      OrdersPart(xs[0].key, xs[i].key);
    }
  }

  // ----- what the verifier says of it -----

  lemma {:induction false} RowsSnoc(hash: string -> string, log: Log, e: Entry)
    ensures Rows(hash, log + [e]) == Rows(hash, log) + [HashChain.Row(e.content, Some(Stored(hash, e)))]
  {
  }

  lemma {:induction false} RowsIntactIff(hash: string -> string, log: Log, e: Entry)
    ensures Intact(hash, Rows(hash, log + [e])) <==>
            Intact(hash, Rows(hash, log)) && !IsBreak(hash, Rows(hash, log + [e]), |log|)
  {
    var t, u := Rows(hash, log), Rows(hash, log + [e]);
    RowsSnoc(hash, log, e);
    assert u[..|t|] == t;
    if Intact(hash, u) {
      PrefixStaysIntact(hash, u, |t|);
    }
    if Intact(hash, t) && !IsBreak(hash, u, |log|) {
      forall i | 0 <= i < |u| ensures !IsBreak(hash, u, i) {
        assert i < |t| ==> !IsBreak(hash, t, i);
      }
    }
  }

  /** An appended row is linked as the verifier expects, if the last row is the newest for the trigger. */
  lemma {:induction false} AppendedVerifies(hash: string -> string, log: Log, x: Insertion)
    requires log == [] || Newest(log) == Some(log[|log| - 1])
    ensures !IsBreak(hash, Rows(hash, log + [Chained(hash, log, x)]), |log|)
  {
    RowsSnoc(hash, log, Chained(hash, log, x));
  }

  /** Rows inserted in order are verified, whatever the hash. */
  lemma {:induction false} OrderedIsIntact(hash: string -> string, xs: seq<Insertion>)
    requires InOrder(xs)
    ensures Intact(hash, Rows(hash, Written(hash, xs)))
  {
    if xs != [] {
      var n := |xs| - 1;
      var log := Written(hash, xs[..n]);
      hide Intact, IsBreak, InOrder, Before, Newest, Insert, Rows, Aligned;
      OrderedPrefix(xs, n);
      OrderedIsIntact(hash, xs[..n]);
      WrittenInOrder(hash, xs[..n]);
      AppendsInOrder(hash, log, xs);
      InOrderSnoc(xs, n);
      if n > 0 {
        LastIsNewestIff(log, xs[..n]);
      }
      AppendedVerifies(hash, log, xs[n]);
      RowsIntactIff(hash, log, Chained(hash, log, xs[n]));
    }
  }

  // ----- the texts that were hashed -----

  /** What the trigger hashed and what the verifier hashes. */
  function Texts(hash: string -> string, log: Log): set<string> {
    (set i | 0 <= i < |log| :: log[i].Text()) + (set i | 0 <= i < |log| :: Input(Rows(hash, log), i))
  }

  predicate CollisionAmong(hash: string -> string, texts: set<string>) {
    exists x, y | x in texts && y in texts :: Collides(hash, x, y)
  }

  /** Every link is the genesis marker or the hash stored with some row of the table. */
  predicate Linked(hash: string -> string, log: Log) {
    forall e | e in log :: e.link == GENESIS || exists c | c in log :: e.link == Stored(hash, c)
  }

  /** JSON texts, no two of them the same: each holds the id of its row. */
  predicate RowContents(xs: seq<Insertion>) {
    && (forall i | 0 <= i < |xs| :: xs[i].content != "" && xs[i].content[0] == '{')
    && forall i, j | 0 <= i < j < |xs| :: xs[i].content != xs[j].content
  }

  lemma {:induction false} ContentsPrefix(xs: seq<Insertion>, n: nat)
    requires RowContents(xs) && n <= |xs|
    ensures RowContents(xs[..n])
  {
  }

  predicate Contents(log: Log) {
    && (forall c | c in log :: c.content != "" && c.content[0] == '{')
    && forall c, d | c in log && d in log && c.content == d.content :: c == d
  }

  /** What every table that the trigger wrote is like. */
  predicate Proper(hash: string -> string, log: Log) {
    Linked(hash, log) && Contents(log)
  }

  lemma {:induction false} InsertKeepsProper(hash: string -> string, log: Log, e: Entry)
    requires Proper(hash, log) && e.link == Prior(hash, log)
    requires e.content != "" && e.content[0] == '{' && forall c | c in log :: c.content != e.content
    ensures Proper(hash, Insert(log, e))
  {
    var after := Insert(log, e);
    hide Insert, Newest;
    forall c ensures c in after <==> c == e || c in log {
      InsertHolds(log, e, c);
    }
    forall c | c in after ensures c.link == GENESIS || exists d | d in after :: c.link == Stored(hash, d) {
      if c in log && c.link != GENESIS {
        var d :| d in log && c.link == Stored(hash, d);
        assert d in after;
      }
    }
  }

  lemma {:induction false} WrittenIsProper(hash: string -> string, xs: seq<Insertion>)
    requires RowContents(xs)
    ensures Proper(hash, Written(hash, xs))
    ensures xs != [] ==> forall c | c in Written(hash, xs[..|xs| - 1]) :: c.content != xs[|xs| - 1].content
  {
    if xs != [] {
      var n := |xs| - 1;
      var log := Written(hash, xs[..n]);
      ContentsPrefix(xs, n);
      WrittenIsProper(hash, xs[..n]);
      WrittenHolds(hash, xs[..n]);
      forall c | c in log ensures c.content != xs[n].content {
        var x :| x in xs[..n] && x.key == c.key && x.content == c.content;
      }
      InsertKeepsProper(hash, log, Chained(hash, log, xs[n]));
    }
  }

  lemma {:induction false} NoBraceInLink(hash: string -> string, log: Log, e: Entry)
    requires HexHash(hash) && Linked(hash, log) && e in log
    ensures '{' !in e.link
  {
    if e.link == GENESIS {
      assert '{' !in GENESIS;
    } else {
      var c :| c in log && e.link == Stored(hash, c);
      HexIsNotGenesis(hash(c.Text()));
    }
  }

  /** Without a collision, the stored hash tells the rows apart. */
  lemma {:induction false} StoredTellsEntries(hash: string -> string, log: Log, c: Entry, d: Entry)
    requires HexHash(hash) && Proper(hash, log) && c in log && d in log
    requires Stored(hash, c) == Stored(hash, d) && !CollisionAmong(hash, Texts(hash, log))
    ensures c == d
  {
    assert c.Text() in Texts(hash, log) && d.Text() in Texts(hash, log);
    assert !Collides(hash, c.Text(), d.Text());
    NoBraceInLink(hash, log, c);
    NoBraceInLink(hash, log, d);
    InputSplits(c.link, c.content, d.link, d.content);
  }

  /** Without a collision, a row that verifies is linked to the row before it. */
  lemma {:induction false} VerifiedLink(hash: string -> string, log: Log, i: nat)
    requires i < |log| && !IsBreak(hash, Rows(hash, log), i) && !CollisionAmong(hash, Texts(hash, log))
    ensures log[i].link == if i == 0 then GENESIS else Stored(hash, log[i - 1])
  {
    var text := Input(Rows(hash, log), i);
    assert log[i].Text() in Texts(hash, log) && text in Texts(hash, log);
    assert !Collides(hash, log[i].Text(), text);
    SameSuffix(log[i].link, Link(Rows(hash, log), i), log[i].content);
  }

  // ----- what verifies was inserted in order -----

  /** Without a collision, a row that verifies is linked to the row before it, if it is linked to any row. */
  lemma {:induction false} LinkedToPrevious(hash: string -> string, log: Log, p: nat, c: Entry)
    requires HexHash(hash) && Proper(hash, log) && p + 1 < |log| && !CollisionAmong(hash, Texts(hash, log))
    requires !IsBreak(hash, Rows(hash, log), p + 1)
    requires c in log && log[p + 1].link == Stored(hash, c)
    ensures c == log[p]
  {
    hide *;
    VerifiedLink(hash, log, p + 1);
    StoredTellsEntries(hash, log, c, log[p]);
  }

  lemma {:induction false} NotFromGenesis(hash: string -> string, log: Log, p: nat)
    requires HexHash(hash) && p + 1 < |log| && !CollisionAmong(hash, Texts(hash, log))
    requires !IsBreak(hash, Rows(hash, log), p + 1)
    ensures log[p + 1].link != GENESIS
  {
    hide Texts, CollisionAmong, IsBreak, Rows;
    VerifiedLink(hash, log, p + 1);
    HexIsNotGenesis(hash(log[p].Text()));
  }

  lemma {:induction false} InsertPlaces(log: Log, e: Entry)
    ensures var p, after := Place(log, e.key), Insert(log, e);
            p < |log| ==> p + 1 < |after| && after[p] == e && after[p + 1] == log[p] && log[p] in log
  {
  }

  /** No row that verifies is linked to a row inserted after it: the last one inserted is the last one. */
  lemma {:induction false} LastInsertedIsLast(hash: string -> string, log: Log, e: Entry)
    requires HexHash(hash) && Proper(hash, log) && Proper(hash, Insert(log, e)) && e !in log
    requires Intact(hash, Rows(hash, Insert(log, e))) && !CollisionAmong(hash, Texts(hash, Insert(log, e)))
    ensures Place(log, e.key) == |log|
  {
    var p, after := Place(log, e.key), Insert(log, e);
    hide Insert, Place, IsBreak, Texts, CollisionAmong, Contents, Collides;
    if p < |log| {
      InsertPlaces(log, e);
      assert !IsBreak(hash, Rows(hash, after), p + 1);
      hide Intact, Rows;
      NotFromGenesis(hash, after, p);
      var c :| c in log && log[p].link == Stored(hash, c);
      InsertHolds(log, e, c);
      hide Proper, Linked;
      LinkedToPrevious(hash, after, p, c);
    }
  }

  lemma {:induction false} TextsGrow(hash: string -> string, log: Log, e: Entry)
    ensures Texts(hash, log) <= Texts(hash, log + [e])
  {
    var t, u, after := Rows(hash, log), Rows(hash, log + [e]), log + [e];
    forall i | 0 <= i < |log| ensures Input(t, i) in Texts(hash, after) && log[i].Text() in Texts(hash, after) {
      assert Input(t, i) == Input(u, i) && log[i] == after[i];
    }
  }

  /** The last row was appended to a table that verifies, if the whole table does and nothing collides. */
  lemma {:induction false} LastWasAppended(hash: string -> string, xs: seq<Insertion>)
    requires HexHash(hash) && RowContents(xs) && xs != []
    requires Intact(hash, Rows(hash, Written(hash, xs)))
    requires !CollisionAmong(hash, Texts(hash, Written(hash, xs)))
    ensures var log := Written(hash, xs[..|xs| - 1]);
            var e := Chained(hash, log, xs[|xs| - 1]);
            && Place(log, e.key) == |log| && Proper(hash, log + [e])
            && Intact(hash, Rows(hash, log)) && !IsBreak(hash, Rows(hash, log + [e]), |log|)
            && !CollisionAmong(hash, Texts(hash, log)) && !CollisionAmong(hash, Texts(hash, log + [e]))
  {
    var n := |xs| - 1;
    var log := Written(hash, xs[..n]);
    var e := Chained(hash, log, xs[n]);
    ContentsPrefix(xs, n);
    WrittenIsProper(hash, xs[..n]);
    WrittenIsProper(hash, xs);
    WrittenStep(hash, xs);
    hide Insert, Written, Newest, Intact, IsBreak, Texts, Proper, Rows, RowContents;
    LastInsertedIsLast(hash, log, e);
    InsertAtEnd(log, e);
    RowsIntactIff(hash, log, e);
    TextsGrow(hash, log, e);
  }

  /** Without a collision, an appended row that verifies is linked to the newest row, which is the last one. */
  lemma {:induction false} NewestIsLast(hash: string -> string, log: Log, e: Entry)
    requires HexHash(hash) && Proper(hash, log + [e]) && log != [] && e.link == Prior(hash, log)
    requires !IsBreak(hash, Rows(hash, log + [e]), |log|) && !CollisionAmong(hash, Texts(hash, log + [e]))
    ensures Newest(log) == Some(log[|log| - 1])
  {
    var after, last, newest := log + [e], log[|log| - 1], Newest(log).value;
    hide Newest, IsBreak, CollisionAmong, Texts, Proper;
    VerifiedLink(hash, after, |log|);
    assert last in log && newest in log;
    assert last in after && newest in after;
    StoredTellsEntries(hash, after, last, newest);
  }

  /** The last insertion was in order, if the earlier ones were. */
  lemma {:induction false} LastInOrder(hash: string -> string, log: Log, xs: seq<Insertion>)
    requires HexHash(hash) && xs != [] && InOrder(xs[..|xs| - 1]) && Aligned(log, xs[..|xs| - 1])
    requires var e := Chained(hash, log, xs[|xs| - 1]);
             && Place(log, e.key) == |log| && Proper(hash, log + [e])
             && !IsBreak(hash, Rows(hash, log + [e]), |log|) && !CollisionAmong(hash, Texts(hash, log + [e]))
    ensures InOrder(xs)
  {
    var n := |xs| - 1;
    hide Newest, IsBreak, CollisionAmong, Texts, Proper, InOrder, Before;
    forall i | 0 <= i < n ensures Before(xs[i].key, xs[n].key) {
      assert xs[..n][i] == xs[i];
    }
    if n > 0 {
      NewestIsLast(hash, log, Chained(hash, log, xs[n]));
      LastIsNewestIff(log, xs[..n]);
    }
    InOrderSnoc(xs, n);
  }

  lemma {:induction false} IntactIsOrdered(hash: string -> string, xs: seq<Insertion>)
    requires HexHash(hash) && RowContents(xs)
    requires Intact(hash, Rows(hash, Written(hash, xs)))
    requires !CollisionAmong(hash, Texts(hash, Written(hash, xs)))
    ensures InOrder(xs)
  {
    if xs != [] {
      var n := |xs| - 1;
      hide *;
      ContentsPrefix(xs, n);
      LastWasAppended(hash, xs);
      IntactIsOrdered(hash, xs[..n]);
      WrittenInOrder(hash, xs[..n]);
      LastInOrder(hash, Written(hash, xs[..n]), xs);
    }
  }

  /**
   A table that the trigger wrote verifies if and only if its rows were inserted in order, or two of the texts
   that were hashed collide. Rows inserted in order verify in any case.
   */
  lemma {:induction false} WrittenVerifiesIff(hash: string -> string, xs: seq<Insertion>)
    requires HexHash(hash) && RowContents(xs)
    ensures var log := Written(hash, xs);
            && (InOrder(xs) ==> Verify(hash, Rows(hash, log)).status == VALID)
            && (Verify(hash, Rows(hash, log)).status == VALID ==>
                  InOrder(xs) || CollisionAmong(hash, Texts(hash, log)))
  {
    var log := Written(hash, xs);
    ValidMeansNoBreak(hash, Rows(hash, log));
    if InOrder(xs) {
      OrderedIsIntact(hash, xs);
    } else if Intact(hash, Rows(hash, log)) && !CollisionAmong(hash, Texts(hash, log)) {
      IntactIsOrdered(hash, xs);
    }
  }

  /**
   So rows of one transaction, which share its time, break the chain unless their ids ascend: the ids of
   hal_production_events are random.
   */
  lemma {:induction false} FallingIdsBreak(hash: string -> string, a: Insertion, b: Insertion)
    requires HexHash(hash) && CollisionFree(hash) && RowContents([a, b])
    requires a.key.at == b.key.at && b.key.id < a.key.id
    ensures Verify(hash, Rows(hash, Written(hash, [a, b]))).status == CHAIN_BREAK
  {
    var xs := [a, b];
    assert !Before(xs[0].key, xs[1].key);
    assert !CollisionAmong(hash, Texts(hash, Written(hash, xs)));
    hide Written, Rows, Verify;
    WrittenVerifiesIff(hash, xs);
  }
}
