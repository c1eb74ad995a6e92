/**
 The ratchet on known findings: a scan, as the files of its findings, against a baseline of counts per file.
 Only counts per file are compared.
 */
module SecretRatchet {
  import opened Sums

  datatype Report = Report(
    pass: bool, unknown: set<string>, grown: set<string>, cleared: set<string>, total: int, baseTotal: int)

  function CountIn(baseline: map<string, int>): string -> int {
    (p: string) => if p in baseline then baseline[p] else 0
  }

  ghost function TotalOf(counts: map<string, int>): int {
    SumOver(CountIn(counts), counts.Keys)
  }

  /** How often each file occurs. */
  ghost predicate Counts(findings: seq<string>, counts: map<string, int>) {
    && (forall p :: p in counts <==> p in findings)
    && forall p | p in counts :: counts[p] == multiset(findings)[p]
  }

  method CountFindings(findings: seq<string>) returns (counts: map<string, int>)
    ensures Counts(findings, counts)
  {
    counts := map[];
    for i := 0 to |findings|
      invariant Counts(findings[..i], counts)
    {
      var p := findings[i];
      assert findings[..i + 1] == findings[..i] + [p];
      counts := counts[p := (if p in counts then counts[p] else 0) + 1];
    }
    assert findings[..|findings|] == findings;
  }

  /** The sum of the values of a map. */
  method AddUp(counts: map<string, int>) returns (total: int)
    ensures total == TotalOf(counts)
  {
    total := 0;
    var left := counts.Keys;
    while left != {}
      invariant left <= counts.Keys
      invariant total + SumOver(CountIn(counts), left) == TotalOf(counts)
    {
      var p :| p in left;
      SumOverRemove(CountIn(counts), left, p);
      total := total + counts[p];
      left := left - {p};
    }
  }

  /** No file has more findings than the baseline allows it; a file that is not listed is allowed none. */
  predicate Within(findings: seq<string>, baseline: map<string, int>) {
    forall p | p in findings :: p in baseline && multiset(findings)[p] <= baseline[p]
  }

  function Occurrences(findings: seq<string>): string -> int {
    (p: string) => multiset(findings)[p]
  }

  lemma {:induction false} SumOfOccurrences(findings: seq<string>, files: set<string>)
    requires forall p | p in findings :: p in files
    ensures SumOver(Occurrences(findings), files) == |findings|
    decreases |findings|
  {
    if findings == [] {
      SumOverZero(Occurrences(findings), files);
    } else {
      var n := |findings| - 1;
      var p, before := findings[n], findings[..n];
      assert findings == before + [p];
      SumOfOccurrences(before, files);
      SumOverRemove(Occurrences(findings), files, p);
      SumOverRemove(Occurrences(before), files, p);
      SumOverAgrees(Occurrences(findings), Occurrences(before), files - {p});
    }
  }

  lemma {:induction false} CountsAddUp(findings: seq<string>, counts: map<string, int>)
    requires Counts(findings, counts)
    ensures TotalOf(counts) == |findings|
  {
    assert forall p :: p in counts.Keys <==> p in findings;
    SumOfOccurrences(findings, counts.Keys);
    SumOverAgrees(CountIn(counts), Occurrences(findings), counts.Keys);
  }

  method EvaluateScan(findings: seq<string>, baseline: map<string, int>) returns (r: Report)
    ensures r.pass <==> Within(findings, baseline)
    ensures r.unknown == set p | p in findings && p !in baseline
    ensures r.grown == set p | p in findings && p in baseline && multiset(findings)[p] > baseline[p]
    ensures r.cleared == set p | p in baseline && multiset(findings)[p] < baseline[p]
    ensures r.total == |findings| && r.baseTotal == TotalOf(baseline)
  {
    hide TotalOf;
    var counts := CountFindings(findings);
    var unknown := set p | p in counts && p !in baseline;
    var grown := set p | p in counts && p in baseline && counts[p] > baseline[p];
    var cleared := set p | p in baseline && (if p in counts then counts[p] else 0) < baseline[p];
    var total := AddUp(counts);
    var baseTotal := AddUp(baseline);
    CountsAddUp(findings, counts);
    assert forall p :: p in unknown || p in grown ==> p in findings;
    assert Within(findings, baseline) <==> unknown == {} && grown == {} by {
      if !Within(findings, baseline) {
        var p :| p in findings && !(p in baseline && multiset(findings)[p] <= baseline[p]);
        assert p in unknown || p in grown;
      }
    }
    r := Report(unknown == {} && grown == {}, unknown, grown, cleared, total, baseTotal);
  }

  predicate NonNegative(baseline: map<string, int>) {
    forall p | p in baseline :: baseline[p] >= 0
  }

  /** A passing scan has no more findings than the baseline in all, though only files are compared. */
  lemma {:induction false} PassBoundsTotal(findings: seq<string>, baseline: map<string, int>)
    requires NonNegative(baseline) && Within(findings, baseline)
    ensures |findings| <= TotalOf(baseline)
  {
    var files := set p | p in findings;
    SumOfOccurrences(findings, files);
    SumOverMonotone(Occurrences(findings), CountIn(baseline), files, baseline.Keys);
  }

  predicate Lowered(before: map<string, int>, lower: map<string, int>) {
    forall p | p in lower :: p in before && lower[p] <= before[p]
  }

  /** Lowering never raises the total, and what passes a lowered baseline passes the one before it. */
  lemma {:induction false} LoweredIsStricter(findings: seq<string>, baseline: map<string, int>, lower: map<string, int>)
    requires NonNegative(baseline) && Lowered(baseline, lower)
    ensures TotalOf(lower) <= TotalOf(baseline)
    ensures Within(findings, lower) ==> Within(findings, baseline) && |findings| <= TotalOf(baseline)
  {
    SumOverMonotone(CountIn(lower), CountIn(baseline), lower.Keys, baseline.Keys);
    if Within(findings, lower) {
      PassBoundsTotal(findings, baseline);
    }
  }

  /** The baseline lowered to what a scan found. */
  function Tightened(findings: seq<string>, baseline: map<string, int>): map<string, int> {
    map p | p in baseline :: if multiset(findings)[p] < baseline[p] then multiset(findings)[p] else baseline[p]
  }

  /** After a passing scan the baseline can be tightened to exactly the findings there are. */
  lemma {:induction false} TighteningIsExact(findings: seq<string>, baseline: map<string, int>)
    requires NonNegative(baseline) && Within(findings, baseline)
    ensures Lowered(baseline, Tightened(findings, baseline))
    ensures Within(findings, Tightened(findings, baseline))
    ensures TotalOf(Tightened(findings, baseline)) == |findings|
  {
    var tight := Tightened(findings, baseline);
    assert tight.Keys == baseline.Keys;
    forall p | p in tight ensures tight[p] == multiset(findings)[p] {
      if p !in findings {
        assert multiset(findings)[p] == 0;
      }
    }
    SumOfOccurrences(findings, tight.Keys);
    SumOverAgrees(CountIn(tight), Occurrences(findings), tight.Keys);
  }
}
