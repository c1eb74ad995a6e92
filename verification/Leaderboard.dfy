/**
 The provider leaderboard: rows are merged by (provider, model) and the result again by provider. Numbers are
 exact here, and a time of last decision is its instant.
 */
module Leaderboard {
  import opened Options
  import opened Npa
  import opened Folds
  import opened Sums
  import opened Grouping

  datatype Row = Row(
    provider: string, model: Option<string>, decisions: int, caught: int, trust: real, certainty: real,
    agents: int, last: Option<int>)

  // ----- which rows are shown -----

  function TrimLeft(s: string): string {
    if s != "" && s[0] in " \t\r\n" then TrimLeft(s[1..]) else s
  }

  function TrimRight(s: string): string {
    if s != "" && s[|s| - 1] in " \t\r\n" then TrimRight(s[..|s| - 1]) else s
  }

  /** The name a provider is grouped under. */
  function Provider(r: Row): string {
    Lower(TrimRight(TrimLeft(r.provider)))
  }

  const CANONICAL := {"anthropic", "groq", "openai", "llama-3-2-1b", "gemma-3-2b", "phi-4"}
  const TEST := {"test-harness", "diagnostic-test", "manual", "test"}

  predicate Shown(r: Row, includeTest: bool, includeAll: bool) {
    var name := Provider(r);
    if name == "" then false
    else if name in TEST || "test" <= name then includeTest
    else includeAll || name in CANONICAL
  }

  // ----- aggregates -----

  datatype Agg = Agg(decisions: int, caught: int, trustSum: real, certaintySum: real, agents: nat, last: Option<int>)

  const NOTHING := Agg(0, 0, 0.0, 0.0, 0, None)

  function Later(a: Option<int>, b: Option<int>): Option<int> {
    if b.Some? && (a.None? || b.value > a.value) then b else a
  }

  function Max(a: nat, b: int): nat {
    if a >= b then a else b
  }

  function Plus(a: Agg, b: Agg): Agg {
    Agg(a.decisions + b.decisions, a.caught + b.caught, a.trustSum + b.trustSum, a.certaintySum + b.certaintySum,
        Max(a.agents, b.agents), Later(a.last, b.last))
  }

  lemma {:induction false} PlusRegroups(x: Agg, y: Agg, z: Agg)
    ensures Plus(Plus(x, y), z) == Plus(x, Plus(y, z)) == Plus(Plus(x, z), y)
  {
  }

  function One(r: Row): Agg {
    var td := r.decisions as real;
    Agg(r.decisions, r.caught, r.trust * td, r.certainty * td, Max(0, r.agents), r.last)
  }

  // ----- the two stages -----

  function Key(r: Row): string {
    Provider(r) + "::" + if r.model.Some? then r.model.value else ""
  }

  function Weighing(): Adding<Row, Agg> {
    Adding((a: Agg, b: Agg) => Plus(a, b), NOTHING, (r: Row) => One(r))
  }

  /** How the handler merges rows. */
  function Handler(): Plan<Row, Agg> {
    Plan((r: Row) => Key(r), (r: Row) => Provider(r), Weighing())
  }

  lemma {:induction false} WeighingIsLawful()
    ensures Lawful(Weighing())
  {
    forall x, y, z ensures Regroups(Weighing(), x, y, z) {
      PlusRegroups(x, y, z);
    }
    forall x ensures HasUnit(Weighing(), x) {
    }
  }

  method AddRow(cur: Agg, r: Row) returns (agg: Agg)
    ensures agg == Weighing().plus(cur, Weighing().one(r))
  {
    var td := r.decisions as real;
    agg := cur.(
      decisions := cur.decisions + r.decisions,
      caught := cur.caught + r.caught,
      trustSum := cur.trustSum + r.trust * td,
      certaintySum := cur.certaintySum + r.certainty * td,
      agents := Max(cur.agents, r.agents));
    if r.last.Some? && (cur.last.None? || r.last.value > cur.last.value) {
      agg := agg.(last := r.last);
    }
  }

  method AddAgg(cur: Agg, a: Agg) returns (agg: Agg)
    ensures agg == Weighing().plus(cur, a)
  {
    agg := cur.(
      decisions := cur.decisions + a.decisions,
      caught := cur.caught + a.caught,
      trustSum := cur.trustSum + a.trustSum,
      certaintySum := cur.certaintySum + a.certaintySum,
      agents := Max(cur.agents, a.agents));
    if a.last.Some? && (cur.last.None? || a.last.value > cur.last.value) {
      agg := agg.(last := a.last);
    }
  }

  lemma {:induction false} RowMerges(
      rows: seq<Row>, r: Row, merged: map<string, Entry<Agg>>, cur: Entry<Agg>, agg: Agg)
    requires Merged(Handler(), rows, merged)
    requires cur == if Key(r) in merged then merged[Key(r)] else Entry(Provider(r), NOTHING)
    requires agg == Weighing().plus(cur.agg, Weighing().one(r))
    ensures Merged(Handler(), rows + [r], merged[Key(r) := Entry(cur.provider, agg)])
  {
    hide Merged;
    MergeStep(Handler(), rows, r, merged, cur, agg);
  }

  lemma {:induction false} NothingMerged()
    ensures Merged(Handler(), [], map[])
  {
  }

  /** The first stage, row by row. */
  method Merge(rows: seq<Row>) returns (merged: map<string, Entry<Agg>>)
    ensures Merged(Handler(), rows, merged)
  {
    hide Merged, Provider, Handler, Weighing, Key;
    merged := map[];
    NothingMerged();
    assert rows[..0] == [];
    for i := 0 to |rows|
      invariant Merged(Handler(), rows[..i], merged)
    {
      var r := rows[i];
      var k := Key(r);
      var cur := if k in merged then merged[k] else Entry(Provider(r), NOTHING);
      var agg := AddRow(cur.agg, r);
      RowMerges(rows[..i], r, merged, cur, agg);
      assert rows[..i + 1] == rows[..i] + [r];
      merged := merged[k := Entry(cur.provider, agg)];
    }
    assert rows[..|rows|] == rows;
  }

  lemma {:induction false} DoneGrows(all: set<string>, left: set<string>, k: string)
    requires k in left && left <= all
    ensures all - (left - {k}) == all - left + {k}
  {
  }

  /** The second stage, taking the entries in any order. */
  method Collapse(merged: map<string, Entry<Agg>>, ghost rows: seq<Row>) returns (byProvider: map<string, Agg>)
    requires Merged(Handler(), rows, merged)
    ensures FullyCollapsed(Handler(), rows, byProvider)
  {
    byProvider := map[];
    var left := merged.Keys;
    WeighingIsLawful();
    while left != {}
      invariant left <= merged.Keys
      invariant Collapsed(Handler(), rows, merged.Keys - left, byProvider)
    {
      var k :| k in left;
      var row := merged[k];
      assert EntryIs(Handler(), rows, k, row);
      var cur := if row.provider in byProvider then byProvider[row.provider] else NOTHING;
      var agg := AddAgg(cur, row.agg);
      CollapseStep(Handler(), rows, merged.Keys - left, byProvider, k, agg);
      DoneGrows(merged.Keys, left, k);
      byProvider := byProvider[row.provider := agg];
      left := left - {k};
    }
    assert merged.Keys - {} == merged.Keys;
    assert AllKeys(Handler(), rows, merged.Keys);
  }

  function FilterShown(rows: seq<Row>, includeTest: bool, includeAll: bool): (shown: seq<Row>)
    ensures forall r :: r in shown <==> r in rows && Shown(r, includeTest, includeAll)
  {
    if rows == [] then []
    else
      var n := |rows| - 1;
      var before := FilterShown(rows[..n], includeTest, includeAll);
      assert rows == rows[..n] + [rows[n]];
      if Shown(rows[n], includeTest, includeAll) then before + [rows[n]] else before
  }

  /** The listed totals are those of at least so many decisions. */
  predicate ListedFrom(byProvider: map<string, Agg>, minDecisions: int, listed: map<string, Agg>) {
    listed == map p | p in byProvider && byProvider[p].decisions >= minDecisions :: byProvider[p]
  }

  // ----- one stage is enough, unless a name has a colon -----

  function ColonAt(s: string): nat {
    if s == "" || s[0] == ':' then 0 else 1 + ColonAt(s[1..])
  }

  lemma {:induction false} ColonEndsName(name: string, rest: string)
    requires ':' !in name && rest != "" && rest[0] == ':'
    ensures ColonAt(name + rest) == |name|
  {
    if name == "" {
      assert name + rest == rest;
    } else {
      assert (name + rest)[0] == name[0] && (name + rest)[1..] == name[1..] + rest;
      ColonEndsName(name[1..], rest);
    }
  }

  lemma {:induction false} NameEndsAtColon(p: string, m: string, q: string, n: string)
    requires ':' !in p && ':' !in q
    ensures p + "::" + m == q + "::" + n <==> p == q && m == n
  {
    var x, y := "::" + m, "::" + n;
    assert p + "::" + m == p + x && q + "::" + n == q + y;
    ColonEndsName(p, x);
    ColonEndsName(q, y);
    assert p == (p + x)[..|p|] && q == (q + y)[..|q|];
    assert m == (p + x)[|p| + 2..] && n == (q + y)[|q| + 2..];
  }

  predicate NoColons(rows: seq<Row>) {
    forall r | r in rows :: ':' !in Provider(r)
  }

  /** Without colons in names, no two providers share a key. */
  lemma {:induction false} KeysTellNames(rows: seq<Row>)
    requires NoColons(rows)
    ensures KeysTellProviders(Handler(), rows)
  {
    forall r, q | r in rows && q in rows && Key(r) == Key(q) ensures Provider(r) == Provider(q) {
      NameEndsAtColon(Provider(r), if r.model.Some? then r.model.value else "",
                 Provider(q), if q.model.Some? then q.model.value else "");
    }
  }

  /** Merging by provider and model and then by provider is grouping by provider, when no providers share a key. */
  lemma {:induction false} TwoStagesGroupByProvider(rows: seq<Row>, byProvider: map<string, Agg>)
    requires FullyCollapsed(Handler(), rows, byProvider) && KeysTellProviders(Handler(), rows)
    ensures GroupedDirectly(Handler(), rows, byProvider)
  {
    CollapsedIsDirect(Handler(), rows, byProvider);
  }

  lemma {:induction false} CanonicalIsPlain(name: string)
    ensures name in CANONICAL ==> ':' !in name
  {
  }

  /** Without query flags only the canonical names are shown, and none has a colon. */
  lemma {:induction false} DefaultShowsNoColons(rows: seq<Row>)
    ensures NoColons(FilterShown(rows, false, false))
  {
    forall r | r in FilterShown(rows, false, false) ensures ':' !in Provider(r) {
      CanonicalIsPlain(Provider(r));
    }
  }

  /** So the answer without query flags always is the grouping by provider. */
  lemma {:induction false} DefaultGroupsByProvider(rows: seq<Row>, byProvider: map<string, Agg>)
    requires FullyCollapsed(Handler(), FilterShown(rows, false, false), byProvider)
    ensures GroupedDirectly(Handler(), FilterShown(rows, false, false), byProvider)
  {
    DefaultShowsNoColons(rows);
    KeysTellNames(FilterShown(rows, false, false));
    TwoStagesGroupByProvider(FilterShown(rows, false, false), byProvider);
  }

  // ----- the answer in terms of the rows -----

  predicate Blank(c: char) {
    c == ' ' || c == '\t' || c == '\r' || c == '\n'
  }

  predicate AllBlank(s: string) {
    forall i | 0 <= i < |s| :: Blank(s[i])
  }

  lemma {:induction false} LeftTrimmed(s: string) returns (front: string)
    ensures s == front + TrimLeft(s) && AllBlank(front)
    ensures TrimLeft(s) != "" ==> !Blank(TrimLeft(s)[0])
  {
    if s != "" && s[0] in " \t\r\n" {
      var rest := LeftTrimmed(s[1..]);
      front := [s[0]] + rest;
    } else {
      front := "";
    }
  }

  lemma {:induction false} RightTrimmed(s: string) returns (back: string)
    ensures s == TrimRight(s) + back && AllBlank(back)
    ensures TrimRight(s) != "" ==> !Blank(TrimRight(s)[|TrimRight(s)| - 1])
  {
    if s != "" && s[|s| - 1] in " \t\r\n" {
      var rest := RightTrimmed(s[..|s| - 1]);
      back := rest + [s[|s| - 1]];
    } else {
      back := "";
    }
  }

  /** A name is the text without the blanks around it, in lower case. */
  lemma {:induction false} NameIsTrimmed(r: Row) returns (front: string, name: string, back: string)
    ensures r.provider == front + name + back && AllBlank(front) && AllBlank(back)
    ensures name != "" ==> !Blank(name[0]) && !Blank(name[|name| - 1])
    ensures Provider(r) == Lower(name)
  {
    front := LeftTrimmed(r.provider);
    name := TrimRight(TrimLeft(r.provider));
    back := RightTrimmed(TrimLeft(r.provider));
    assert TrimLeft(r.provider) == name + back;
  }

  /** The names that the query flags admit. */
  predicate Admitted(name: string, includeTest: bool, includeAll: bool) {
    if name == "" then false
    else if name in {"test-harness", "diagnostic-test", "manual"} || "test" <= name then includeTest
    else
      includeAll ||
      name in {"anthropic", "groq", "openai", "llama-3-2-1b", "gemma-3-2b", "phi-4"}
  }

  function FigureOf(name: string, caught: bool): Row -> int {
    (r: Row) => if Provider(r) == name then (if caught then r.caught else r.decisions) else 0
  }

  lemma {:induction false} GroupSums(rows: seq<Row>, name: string)
    ensures Total(Weighing(), Handler().ProviderIs(name), rows).decisions == SumBy(FigureOf(name, false), rows)
    ensures Total(Weighing(), Handler().ProviderIs(name), rows).caught == SumBy(FigureOf(name, true), rows)
  {
    if rows != [] {
      var n := |rows| - 1;
      var init, r := rows[..n], rows[n];
      assert rows == init + [r];
      GroupSums(init, name);
      hide Provider, Total, SumBy;
      TotalSnoc(Weighing(), Handler().ProviderIs(name), init, r);
      SumBySnoc(FigureOf(name, false), init, r);
      SumBySnoc(FigureOf(name, true), init, r);
    }
  }

  lemma {:induction false} ShownIffAdmitted(r: Row, includeTest: bool, includeAll: bool)
    ensures Shown(r, includeTest, includeAll) <==> Admitted(Provider(r), includeTest, includeAll)
  {
    hide Provider;
  }

  lemma {:induction false} CanonicalAdmitted(name: string)
    ensures Admitted(name, false, false) <==>
            name in {"anthropic", "groq", "openai", "llama-3-2-1b", "gemma-3-2b", "phi-4"}
  {
    if name in {"anthropic", "groq", "openai", "llama-3-2-1b", "gemma-3-2b", "phi-4"} {
      assert name[0] in {'a', 'g', 'o', 'l', 'p'};
      assert "test-harness"[0] == 't' && "diagnostic-test"[0] == 'd' && "manual"[0] == 'm';
    }
  }

  lemma {:induction false} ShownSums(
      rows: seq<Row>, includeTest: bool, includeAll: bool, name: string, caught: bool)
    ensures SumBy(FigureOf(name, caught), FilterShown(rows, includeTest, includeAll)) ==
            if Admitted(name, includeTest, includeAll) then SumBy(FigureOf(name, caught), rows) else 0
  {
    if rows != [] {
      var n := |rows| - 1;
      ShownSums(rows[..n], includeTest, includeAll, name, caught);
      ShownIffAdmitted(rows[n], includeTest, includeAll);
      hide Shown, Admitted, Provider;
      SumBySnoc(FigureOf(name, caught), rows[..n], rows[n]);
      SumBySnoc(FigureOf(name, caught), FilterShown(rows[..n], includeTest, includeAll), rows[n]);
      assert rows == rows[..n] + [rows[n]];
    }
  }

  /** The name is listed as its rows demand: if admitted, with enough decisions, and with the sums of its rows. */
  predicate Answers(
      rows: seq<Row>, includeTest: bool, includeAll: bool, minAsked: int, listed: map<string, Agg>, name: string)
  {
    && (name in listed <==>
          && Admitted(name, includeTest, includeAll)
          && SumBy(FigureOf(name, false), rows) >= 1 && SumBy(FigureOf(name, false), rows) >= minAsked)
    && (name in listed ==>
          && listed[name].decisions == SumBy(FigureOf(name, false), rows)
          && listed[name].caught == SumBy(FigureOf(name, true), rows))
  }

  lemma {:induction false} GroupFigures(shown: seq<Row>, byProvider: map<string, Agg>, name: string)
    requires GroupedDirectly(Handler(), shown, byProvider)
    ensures name in byProvider ==>
              && byProvider[name].decisions == SumBy(FigureOf(name, false), shown)
              && byProvider[name].caught == SumBy(FigureOf(name, true), shown)
    ensures name !in byProvider ==> SumBy(FigureOf(name, false), shown) == 0
  {
    hide Provider, Total, SumBy, FigureOf;
    GroupSums(shown, name);
    if name !in byProvider {
      TotalOfNone(Weighing(), Handler().ProviderIs(name), shown);
    }
  }

  /**
   With no shared keys, the providers listed are exactly those that the flags admit and whose rows have enough
   decisions (one at least), and the decisions and catches listed are the sums over all rows of that name.
   */
  lemma {:induction false} AnswerMeans(
      rows: seq<Row>, includeTest: bool, includeAll: bool, minAsked: int, byProvider: map<string, Agg>,
      listed: map<string, Agg>, name: string)
    requires FullyCollapsed(Handler(), FilterShown(rows, includeTest, includeAll), byProvider)
    requires ListedFrom(byProvider, Max(1, minAsked), listed)
    requires KeysTellProviders(Handler(), FilterShown(rows, includeTest, includeAll))
    ensures Answers(rows, includeTest, includeAll, minAsked, listed, name)
  {
    hide FilterShown, SumBy, FullyCollapsed, KeysTellProviders, GroupedDirectly, FigureOf, Admitted;
    var shown := FilterShown(rows, includeTest, includeAll);
    TwoStagesGroupByProvider(shown, byProvider);
    GroupFigures(shown, byProvider, name);
    ShownSums(rows, includeTest, includeAll, name, false);
    ShownSums(rows, includeTest, includeAll, name, true);
  }

  /** So without query flags the answer is the sums of the six canonical providers that have enough decisions. */
  lemma {:induction false} DefaultAnswer(
      rows: seq<Row>, minAsked: int, byProvider: map<string, Agg>, listed: map<string, Agg>, name: string)
    requires FullyCollapsed(Handler(), FilterShown(rows, false, false), byProvider)
    requires ListedFrom(byProvider, Max(1, minAsked), listed)
    ensures name in listed <==>
            && name in {"anthropic", "groq", "openai", "llama-3-2-1b", "gemma-3-2b", "phi-4"}
            && SumBy(FigureOf(name, false), rows) >= 1 && SumBy(FigureOf(name, false), rows) >= minAsked
    ensures name in listed ==>
            && listed[name].decisions == SumBy(FigureOf(name, false), rows)
            && listed[name].caught == SumBy(FigureOf(name, true), rows)
  {
    DefaultShowsNoColons(rows);
    KeysTellNames(FilterShown(rows, false, false));
    CanonicalAdmitted(name);
    AnswerMeans(rows, false, false, minAsked, byProvider, listed, name);
    hide FilterShown, FullyCollapsed, ListedFrom, Admitted;
  }

  // ----- the handler -----

  /** The handler, up to the form and the order of its answer. */
  method LlmTrust(rows: seq<Row>, includeTest: bool, includeAll: bool, minAsked: int)
    returns (listed: map<string, Agg>)
    ensures exists byProvider ::
              FullyCollapsed(Handler(), FilterShown(rows, includeTest, includeAll), byProvider) &&
              ListedFrom(byProvider, Max(1, minAsked), listed)
    ensures KeysTellProviders(Handler(), FilterShown(rows, includeTest, includeAll)) ==>
              forall name :: Answers(rows, includeTest, includeAll, minAsked, listed, name)
    ensures !includeTest && !includeAll ==> forall name :: Answers(rows, false, false, minAsked, listed, name)
  {
    var shown := FilterShown(rows, includeTest, includeAll);
    var merged := Merge(shown);
    var byProvider := Collapse(merged, shown);
    listed := map p | p in byProvider && byProvider[p].decisions >= Max(1, minAsked) :: byProvider[p];
    hide Answers;
    if !includeTest && !includeAll {
      DefaultShowsNoColons(rows);
      KeysTellNames(shown);
    }
    if KeysTellProviders(Handler(), shown) {
      forall name ensures Answers(rows, includeTest, includeAll, minAsked, listed, name) {
        AnswerMeans(rows, includeTest, includeAll, minAsked, byProvider, listed, name);
      }
    }
  }

  // ----- a colon in a name -----

  /** Two shown providers under one key, so that the first is given the decisions of the other. */
  ghost predicate MixesProviders(a: Row, b: Row) {
    && Shown(a, false, true) && Shown(b, false, true)
    && Provider(a) != Provider(b) && Key(a) == Key(b)
    && Owner(Handler(), [a, b], Key(b)) == Provider(a)
  }

  lemma {:induction false} PlainName(s: string)
    requires s == "a" || s == "a:"
    ensures Lower(TrimRight(TrimLeft(s))) == s
  {
    assert TrimLeft(s) == s && TrimRight(s) == s;
    assert |s| == 2 ==> s[1..] == ":";
  }

  lemma {:induction false} ColonRows(a: Row, b: Row)
    requires a.provider == "a" && a.model == Some(":b") && b.provider == "a:" && b.model == Some("b")
    ensures Provider(a) == "a" && Provider(b) == "a:" && Key(a) == Key(b)
    ensures Shown(a, false, true) && Shown(b, false, true)
  {
    PlainName("a");
    PlainName("a:");
    assert Key(a) == "a:::b" == Key(b);
  }

  /** With a colon in a name, two providers may share a key. */
  lemma {:induction false} ColonsMixProviders()
    ensures exists a, b :: MixesProviders(a, b)
  {
    var a := Row("a", Some(":b"), 1, 0, 0.0, 0.0, 0, None);
    var b := Row("a:", Some("b"), 1, 0, 0.0, 0.0, 0, None);
    ColonRows(a, b);
    assert |"a"| != |"a:"|;
    hide Provider, Key, Shown;
    OwnerSnoc(Handler(), [], a, Key(b));
    OwnerSnoc(Handler(), [a], b, Key(b));
    assert [] + [a] == [a] && [a] + [b] == [a, b];
    assert MixesProviders(a, b);
  }

  // ----- what the totals say -----

  lemma {:induction false} EverythingSums(rows: seq<Row>)
    ensures Total(Weighing(), Everything(), rows).decisions == SumBy((r: Row) => r.decisions, rows)
    ensures Total(Weighing(), Everything(), rows).caught == SumBy((r: Row) => r.caught, rows)
  {
    if rows != [] {
      var n := |rows| - 1;
      EverythingSums(rows[..n]);
      SumBySnoc((r: Row) => r.decisions, rows[..n], rows[n]);
      SumBySnoc((r: Row) => r.caught, rows[..n], rows[n]);
      assert rows == rows[..n] + [rows[n]];
    }
  }

  /** All decisions, and all catches, are counted exactly once, colons or not. */
  lemma {:induction false} TotalsConserved(rows: seq<Row>, byProvider: map<string, Agg>)
    requires FullyCollapsed(Handler(), rows, byProvider)
    ensures SumOver(Measured((a: Agg) => a.decisions, byProvider), byProvider.Keys) ==
            SumBy((r: Row) => r.decisions, rows)
    ensures SumOver(Measured((a: Agg) => a.caught, byProvider), byProvider.Keys) ==
            SumBy((r: Row) => r.caught, rows)
  {
    WeighingIsLawful();
    MeasureConserved(Handler(), (a: Agg) => a.decisions, rows, byProvider);
    MeasureConserved(Handler(), (a: Agg) => a.caught, rows, byProvider);
    EverythingSums(rows);
  }

  /** The time shown is the latest of the group. */
  lemma {:induction false} LastIsLatest(group: Row -> bool, rows: seq<Row>)
    ensures var last := Total(Weighing(), group, rows).last;
            && (forall r | r in rows && group(r) && r.last.Some? :: last.Some? && last.value >= r.last.value)
            && (last.Some? ==> exists r | r in rows :: group(r) && r.last == last)
  {
    if rows != [] {
      var n := |rows| - 1;
      LastIsLatest(group, rows[..n]);
      assert rows == rows[..n] + [rows[n]];
    }
  }

  /** The number of agents shown is the largest of the group, or 0. */
  lemma {:induction false} AgentsAreMost(group: Row -> bool, rows: seq<Row>)
    ensures var agents := Total(Weighing(), group, rows).agents;
            && (forall r | r in rows && group(r) :: r.agents <= agents)
            && (agents == 0 || exists r | r in rows :: group(r) && r.agents == agents)
  {
    if rows != [] {
      var n := |rows| - 1;
      AgentsAreMost(group, rows[..n]);
      assert rows == rows[..n] + [rows[n]];
    }
  }

  /** The two averaged figures. */
  datatype Figure = Trust | Certainty {
    function Of(r: Row): real {
      if Trust? then r.trust else r.certainty
    }

    function SumOf(a: Agg): real {
      if Trust? then a.trustSum else a.certaintySum
    }

    function Average(a: Agg): Option<real> {
      if a.decisions > 0 then Some(SumOf(a) / (a.decisions as real)) else None
    }
  }

  predicate WithinIfDecided(fig: Figure, r: Row, lo: real, hi: real) {
    r.decisions >= 0 && (r.decisions > 0 ==> lo <= fig.Of(r) <= hi)
  }

  predicate Between(lo: real, hi: real, sum: real, n: int) {
    n >= 0 && lo * (n as real) <= sum <= hi * (n as real)
  }

  lemma {:induction false} WeightedWithin(x: real, n: int, lo: real, hi: real)
    requires n >= 0 && (n > 0 ==> lo <= x <= hi)
    ensures lo * (n as real) <= x * (n as real) <= hi * (n as real)
  {
    if n == 0 {
      assert x * 0.0 == lo * 0.0 == hi * 0.0 == 0.0;
    }
  }

  lemma {:induction false} OneBetween(fig: Figure, r: Row, lo: real, hi: real)
    requires WithinIfDecided(fig, r, lo, hi)
    ensures Between(lo, hi, fig.SumOf(One(r)), r.decisions)
  {
    WeightedWithin(fig.Of(r), r.decisions, lo, hi);
  }

  lemma {:induction false} Distributes(x: real, a: int, b: int)
    ensures x * ((a + b) as real) == x * (a as real) + x * (b as real)
  {
  }

  lemma {:induction false} BetweenAdds(lo: real, hi: real, x: real, n: int, y: real, m: int)
    requires Between(lo, hi, x, n) && Between(lo, hi, y, m)
    ensures Between(lo, hi, x + y, n + m)
  {
    Distributes(lo, n, m);
    Distributes(hi, n, m);
  }

  lemma {:induction false} SumsAdd(fig: Figure, a: Agg, b: Agg)
    ensures fig.SumOf(Plus(a, b)) == fig.SumOf(a) + fig.SumOf(b) && Plus(a, b).decisions == a.decisions + b.decisions
  {
  }

  ghost predicate Adds(fig: Figure, m: Adding<Row, Agg>, x: Agg, y: Agg) {
    fig.SumOf(m.plus(x, y)) == fig.SumOf(x) + fig.SumOf(y) && m.plus(x, y).decisions == x.decisions + y.decisions
  }

  lemma {:induction false} SumWithin(
      fig: Figure, m: Adding<Row, Agg>, group: Row -> bool, rows: seq<Row>, lo: real, hi: real)
    requires Between(lo, hi, fig.SumOf(m.zero), m.zero.decisions)
    requires forall x, y :: Adds(fig, m, x, y)
    requires forall r | r in rows && group(r) :: Between(lo, hi, fig.SumOf(m.one(r)), m.one(r).decisions)
    ensures Between(lo, hi, fig.SumOf(Total(m, group, rows)), Total(m, group, rows).decisions)
  {
    if rows != [] {
      var n := |rows| - 1;
      var before, one := Total(m, group, rows[..n]), m.one(rows[n]);
      assert rows[n] in rows;
      SumWithin(fig, m, group, rows[..n], lo, hi);
      if group(rows[n]) {
        assert Adds(fig, m, before, one);
        BetweenAdds(lo, hi, fig.SumOf(before), before.decisions, fig.SumOf(one), one.decisions);
      }
    }
  }

  lemma {:induction false} ScalesOrder(a: real, b: real, n: real)
    requires n > 0.0
    ensures a <= b <==> a * n <= b * n
  {
    assert (b - a) * n == b * n - a * n;
  }

  lemma {:induction false} DivideWithin(x: real, n: real, lo: real, hi: real)
    requires n > 0.0 && lo * n <= x <= hi * n
    ensures lo <= x / n <= hi
  {
    var y := x / n;
    assert y * n == x;
    ScalesOrder(lo, y, n);
    ScalesOrder(y, hi, n);
  }

  lemma {:induction false} AverageOfBetween(fig: Figure, t: Agg, lo: real, hi: real)
    requires Between(lo, hi, fig.SumOf(t), t.decisions)
    ensures fig.Average(t).Some? ==> lo <= fig.Average(t).value <= hi
  {
    if t.decisions > 0 {
      DivideWithin(fig.SumOf(t), t.decisions as real, lo, hi);
    }
  }

  /** The figures of the group's rows, each weighted by its decisions. */
  function WeightedSum(fig: Figure, group: Row -> bool, rows: seq<Row>): real {
    if rows == [] then 0.0
    else
      var last := rows[|rows| - 1];
      WeightedSum(fig, group, rows[..|rows| - 1]) +
      if group(last) then (if fig.Trust? then last.trust else last.certainty) * (last.decisions as real) else 0.0
  }

  lemma {:induction false} SumIsWeighted(fig: Figure, group: Row -> bool, rows: seq<Row>)
    ensures fig.SumOf(Total(Weighing(), group, rows)) == WeightedSum(fig, group, rows)
  {
    if rows != [] {
      SumIsWeighted(fig, group, rows[..|rows| - 1]);
    }
  }

  /** There is an average if there are decisions, and then it is the weighted sum divided by their number. */
  lemma {:induction false} AverageIsWeighted(fig: Figure, group: Row -> bool, rows: seq<Row>)
    ensures var total := Total(Weighing(), group, rows);
            && (fig.Average(total).Some? <==> total.decisions > 0)
            && fig.SumOf(total) == WeightedSum(fig, group, rows)
            && (total.decisions > 0 ==>
                  fig.Average(total).value * (total.decisions as real) == WeightedSum(fig, group, rows))
  {
    SumIsWeighted(fig, group, rows);
  }

  /** A weighted average, before rounding, lies between any bounds on the figures of the rows with decisions. */
  lemma {:induction false} AverageBetweenExtremes(fig: Figure, group: Row -> bool, rows: seq<Row>, lo: real, hi: real)
    requires forall r | r in rows && group(r) :: WithinIfDecided(fig, r, lo, hi)
    ensures var average := fig.Average(Total(Weighing(), group, rows)); average.Some? ==> lo <= average.value <= hi
  {
    forall x, y ensures Adds(fig, Weighing(), x, y) {
      SumsAdd(fig, x, y);
    }
    forall r | r in rows && group(r)
      ensures Between(lo, hi, fig.SumOf(Weighing().one(r)), Weighing().one(r).decisions)
    {
      OneBetween(fig, r, lo, hi);
    }
    SumWithin(fig, Weighing(), group, rows, lo, hi);
    AverageOfBetween(fig, Total(Weighing(), group, rows), lo, hi);
  }

  lemma {:induction false} SameMembers<T>(s: seq<T>, t: seq<T>)
    requires multiset(s) == multiset(t)
    ensures forall x :: x in s <==> x in t
  {
    assert forall x :: x in s <==> x in multiset(s);
    assert forall x :: x in t <==> x in multiset(t);
  }

  lemma {:induction false} SameMaps<K, V>(a: map<K, V>, b: map<K, V>)
    requires (forall k :: k in a <==> k in b) && forall k | k in a :: a[k] == b[k]
    ensures a == b
  {
  }

  /** When no providers share a key, the totals of every provider are the same for the rows in any order. */
  lemma {:induction false} AnswerIgnoresOrder(
      rows: seq<Row>, reordered: seq<Row>, a: map<string, Agg>, b: map<string, Agg>)
    requires multiset(rows) == multiset(reordered) && KeysTellProviders(Handler(), rows)
    requires FullyCollapsed(Handler(), rows, a) && FullyCollapsed(Handler(), reordered, b)
    ensures a == b
  {
    SameMembers(rows, reordered);
    WeighingIsLawful();
    TwoStagesGroupByProvider(rows, a);
    TwoStagesGroupByProvider(reordered, b);
    forall p | p in a
      ensures Total(Weighing(), Handler().ProviderIs(p), rows) == Total(Weighing(), Handler().ProviderIs(p), reordered)
    {
      TotalIgnoresOrder(Weighing(), Handler().ProviderIs(p), rows, reordered);
    }
    SameMaps(a, b);
  }
}
