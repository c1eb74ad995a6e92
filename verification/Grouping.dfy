/** Rows merged by key, and the result merged again by the provider each key is kept under. */
module Grouping {
  import opened Folds
  import opened Sums

  /** What rows are merged by, first and second, and how their totals are formed. */
  datatype Plan<!R, !A> = Plan(key: R -> string, provider: R -> string, add: Adding<R, A>) {
    function KeyIs(k: string): R -> bool { (r: R) => key(r) == k }
    function ProviderIs(p: string): R -> bool { (r: R) => provider(r) == p }
    ghost function OwnedBy(rows: seq<R>, keys: set<string>, p: string): R -> bool {
      (r: R) => key(r) in keys && Owner(this, rows, key(r)) == p
    }
  }

  datatype Entry<A> = Entry(provider: string, agg: A)

  ghost predicate HasKey<R, A>(plan: Plan<R, A>, rows: seq<R>, k: string) {
    exists r | r in rows :: plan.key(r) == k
  }

  /** The provider under which a key is kept: that of the first row with the key. */
  ghost function Owner<R, A>(plan: Plan<R, A>, rows: seq<R>, k: string): string {
    if rows == [] then ""
    else
      var n := |rows| - 1;
      if HasKey(plan, rows[..n], k) then Owner(plan, rows[..n], k) else plan.provider(rows[n])
  }

  lemma {:induction false} OwnerSnoc<R, A>(plan: Plan<R, A>, rows: seq<R>, r: R, k: string)
    ensures HasKey(plan, rows + [r], k) <==> HasKey(plan, rows, k) || plan.key(r) == k
    ensures Owner(plan, rows + [r], k) == if HasKey(plan, rows, k) then Owner(plan, rows, k) else plan.provider(r)
  {
    assert (rows + [r])[..|rows|] == rows && (rows + [r])[|rows|] == r;
    if HasKey(plan, rows, k) {
      var q :| q in rows && plan.key(q) == k;
      assert q in rows + [r];
    }
    assert r in rows + [r];
  }

  lemma {:induction false} OwnerOwnsARow<R, A>(plan: Plan<R, A>, rows: seq<R>, k: string) returns (r: R)
    requires HasKey(plan, rows, k)
    ensures r in rows && plan.key(r) == k && plan.provider(r) == Owner(plan, rows, k)
  {
    var n := |rows| - 1;
    assert rows == rows[..n] + [rows[n]];
    OwnerSnoc(plan, rows[..n], rows[n], k);
    if HasKey(plan, rows[..n], k) {
      r := OwnerOwnsARow(plan, rows[..n], k);
    } else {
      r := rows[n];
    }
  }

  // ----- the first stage -----

  ghost predicate EntryIs<R, A>(plan: Plan<R, A>, rows: seq<R>, k: string, e: Entry<A>) {
    e == Entry(Owner(plan, rows, k), Total(plan.add, plan.KeyIs(k), rows))
  }

  /** One entry for each key, with the total of its rows. */
  ghost predicate Merged<R, A>(plan: Plan<R, A>, rows: seq<R>, merged: map<string, Entry<A>>) {
    && (forall k :: k in merged <==> HasKey(plan, rows, k))
    && forall k | k in merged :: EntryIs(plan, rows, k, merged[k])
  }

  lemma {:induction false} EntryStep<R, A>(
      plan: Plan<R, A>, rows: seq<R>, r: R, k: string, merged: map<string, Entry<A>>)
    requires Merged(plan, rows, merged) && (k in merged || plan.key(r) == k)
    ensures var was := if k in merged then merged[k] else Entry(plan.provider(r), plan.add.zero);
            EntryIs(plan, rows + [r], k,
                    if plan.key(r) == k then Entry(was.provider, plan.add.plus(was.agg, plan.add.one(r))) else was)
  {
    OwnerSnoc(plan, rows, r, k);
    TotalSnoc(plan.add, plan.KeyIs(k), rows, r);
    if k in merged {
      assert EntryIs(plan, rows, k, merged[k]);
    } else {
      TotalOfNone(plan.add, plan.KeyIs(k), rows);
    }
  }

  lemma {:induction false} MergeStep<R, A>(
      plan: Plan<R, A>, rows: seq<R>, r: R, merged: map<string, Entry<A>>, cur: Entry<A>, agg: A)
    requires Merged(plan, rows, merged)
    requires cur == if plan.key(r) in merged then merged[plan.key(r)] else Entry(plan.provider(r), plan.add.zero)
    requires agg == plan.add.plus(cur.agg, plan.add.one(r))
    ensures Merged(plan, rows + [r], merged[plan.key(r) := Entry(cur.provider, agg)])
  {
    var after := merged[plan.key(r) := Entry(cur.provider, agg)];
    forall k ensures k in after <==> HasKey(plan, rows + [r], k) {
      OwnerSnoc(plan, rows, r, k);
    }
    forall k | k in after ensures EntryIs(plan, rows + [r], k, after[k]) {
      EntryStep(plan, rows, r, k, merged);
    }
  }

  // ----- the second stage -----

  ghost predicate Owns<R, A>(plan: Plan<R, A>, rows: seq<R>, keys: set<string>, p: string) {
    exists k | k in keys :: Owner(plan, rows, k) == p
  }

  ghost predicate SumIs<R, A>(plan: Plan<R, A>, rows: seq<R>, keys: set<string>, p: string, agg: A) {
    agg == Total(plan.add, plan.OwnedBy(rows, keys, p), rows)
  }

  /** The keys done, collapsed: one total for each owner, of the rows whose key it owns. */
  ghost predicate Collapsed<R, A>(plan: Plan<R, A>, rows: seq<R>, keys: set<string>, byProvider: map<string, A>) {
    && (forall p :: p in byProvider <==> Owns(plan, rows, keys, p))
    && forall p | p in byProvider :: SumIs(plan, rows, keys, p, byProvider[p])
  }

  lemma {:induction false} OwnsStep<R, A>(plan: Plan<R, A>, rows: seq<R>, keys: set<string>, k: string, p: string)
    ensures Owns(plan, rows, keys + {k}, p) <==> Owns(plan, rows, keys, p) || Owner(plan, rows, k) == p
  {
    if Owns(plan, rows, keys, p) {
      var j :| j in keys && Owner(plan, rows, j) == p;
      assert j in keys + {k};
    }
    assert k in keys + {k};
  }

  lemma {:induction false} CollapseStep<R, A(!new)>(
      plan: Plan<R, A>, rows: seq<R>, keys: set<string>, byProvider: map<string, A>, k: string, agg: A)
    requires Lawful(plan.add) && Collapsed(plan, rows, keys, byProvider) && k !in keys
    requires var p := Owner(plan, rows, k);
             agg == plan.add.plus(if p in byProvider then byProvider[p] else plan.add.zero,
                                  Total(plan.add, plan.KeyIs(k), rows))
    ensures Collapsed(plan, rows, keys + {k}, byProvider[Owner(plan, rows, k) := agg])
  {
    var p, after := Owner(plan, rows, k), byProvider[Owner(plan, rows, k) := agg];
    forall q ensures q in after <==> Owns(plan, rows, keys + {k}, q) {
      OwnsStep(plan, rows, keys, k, q);
    }
    forall q | q in after ensures SumIs(plan, rows, keys + {k}, q, after[q]) {
      if q == p {
        TotalSplits(plan.add, plan.OwnedBy(rows, keys + {k}, p), plan.OwnedBy(rows, keys, p), plan.KeyIs(k), rows);
        if p in byProvider {
          assert SumIs(plan, rows, keys, p, byProvider[p]);
        } else {
          TotalOfNone(plan.add, plan.OwnedBy(rows, keys, p), rows);
        }
      } else {
        assert SumIs(plan, rows, keys, q, byProvider[q]);
        TotalAgrees(plan.add, plan.OwnedBy(rows, keys + {k}, q), plan.OwnedBy(rows, keys, q), rows);
      }
    }
  }

  // ----- what the two stages amount to -----

  ghost predicate KeysTellProviders<R(!new), A>(plan: Plan<R, A>, rows: seq<R>) {
    forall r, q | r in rows && q in rows && plan.key(r) == plan.key(q) :: plan.provider(r) == plan.provider(q)
  }

  /** Each row is counted for its own provider exactly when no two providers share a key. */
  lemma {:induction false} OwnersAreProviders<R(!new), A>(plan: Plan<R, A>, rows: seq<R>)
    ensures (forall r | r in rows :: Owner(plan, rows, plan.key(r)) == plan.provider(r)) <==>
            KeysTellProviders(plan, rows)
  {
    if KeysTellProviders(plan, rows) {
      forall r | r in rows ensures Owner(plan, rows, plan.key(r)) == plan.provider(r) {
        var q := OwnerOwnsARow(plan, rows, plan.key(r));
      }
    }
  }

  ghost predicate AllKeys<R, A>(plan: Plan<R, A>, rows: seq<R>, keys: set<string>) {
    forall k :: k in keys <==> HasKey(plan, rows, k)
  }

  /** All keys collapsed. */
  ghost predicate FullyCollapsed<R, A>(plan: Plan<R, A>, rows: seq<R>, byProvider: map<string, A>) {
    exists keys: set<string> :: AllKeys(plan, rows, keys) && Collapsed(plan, rows, keys, byProvider)
  }

  /** The grouping by provider alone. */
  ghost predicate GroupedDirectly<R(!new), A>(plan: Plan<R, A>, rows: seq<R>, byProvider: map<string, A>) {
    && (forall p :: p in byProvider <==> exists r | r in rows :: plan.provider(r) == p)
    && forall p | p in byProvider :: byProvider[p] == Total(plan.add, plan.ProviderIs(p), rows)
  }

  lemma {:induction false} CollapsedIsDirect<R(!new), A>(plan: Plan<R, A>, rows: seq<R>, byProvider: map<string, A>)
    requires FullyCollapsed(plan, rows, byProvider) && KeysTellProviders(plan, rows)
    ensures GroupedDirectly(plan, rows, byProvider)
  {
    var keys: set<string> :| AllKeys(plan, rows, keys) && Collapsed(plan, rows, keys, byProvider);
    OwnersAreProviders(plan, rows);
    forall p ensures Owns(plan, rows, keys, p) <==> exists r | r in rows :: plan.provider(r) == p {
      if Owns(plan, rows, keys, p) {
        var k :| k in keys && Owner(plan, rows, k) == p;
        var r := OwnerOwnsARow(plan, rows, k);
      }
      if exists r | r in rows :: plan.provider(r) == p {
        var r :| r in rows && plan.provider(r) == p;
        assert HasKey(plan, rows, plan.key(r)) && Owner(plan, rows, plan.key(r)) == p;
      }
    }
    forall p | p in byProvider ensures byProvider[p] == Total(plan.add, plan.ProviderIs(p), rows) {
      assert SumIs(plan, rows, keys, p, byProvider[p]);
      forall r | r in rows ensures plan.OwnedBy(rows, keys, p)(r) <==> plan.ProviderIs(p)(r) {
        assert HasKey(plan, rows, plan.key(r));
      }
      TotalAgrees(plan.add, plan.OwnedBy(rows, keys, p), plan.ProviderIs(p), rows);
    }
  }

  // ----- conservation -----

  function Everything<R>(): R -> bool { (r: R) => true }

  function Measured<A>(f: A -> int, byProvider: map<string, A>): string -> int {
    (p: string) => if p in byProvider then f(byProvider[p]) else 0
  }

  /** A measure of totals that adds up. */
  ghost predicate Additive<R, A(!new)>(m: Adding<R, A>, f: A -> int) {
    f(m.zero) == 0 && forall x, y :: f(m.plus(x, y)) == f(x) + f(y)
  }

  ghost function OwnedByAny<R, A>(plan: Plan<R, A>, rows: seq<R>, keys: set<string>, ps: set<string>): R -> bool {
    (r: R) => plan.key(r) in keys && Owner(plan, rows, plan.key(r)) in ps
  }

  lemma {:induction false} MeasureOfSome<R, A(!new)>(
      plan: Plan<R, A>, f: A -> int, rows: seq<R>, keys: set<string>, byProvider: map<string, A>, ps: set<string>)
    requires Lawful(plan.add) && Additive(plan.add, f) && Collapsed(plan, rows, keys, byProvider)
    requires ps <= byProvider.Keys
    ensures SumOver(Measured(f, byProvider), ps) == f(Total(plan.add, OwnedByAny(plan, rows, keys, ps), rows))
    decreases |ps|
  {
    if ps == {} {
      TotalOfNone(plan.add, OwnedByAny(plan, rows, keys, ps), rows);
    } else {
      var p :| p in ps;
      SumOverRemove(Measured(f, byProvider), ps, p);
      MeasureOfSome(plan, f, rows, keys, byProvider, ps - {p});
      TotalSplits(plan.add, OwnedByAny(plan, rows, keys, ps), OwnedByAny(plan, rows, keys, ps - {p}),
                  plan.OwnedBy(rows, keys, p), rows);
      assert SumIs(plan, rows, keys, p, byProvider[p]);
    }
  }

  /** Whatever keys providers share, nothing additive is lost or counted twice. */
  lemma {:induction false} MeasureConserved<R, A(!new)>(
      plan: Plan<R, A>, f: A -> int, rows: seq<R>, byProvider: map<string, A>)
    requires Lawful(plan.add) && Additive(plan.add, f) && FullyCollapsed(plan, rows, byProvider)
    ensures SumOver(Measured(f, byProvider), byProvider.Keys) == f(Total(plan.add, Everything(), rows))
  {
    var keys: set<string> :| AllKeys(plan, rows, keys) && Collapsed(plan, rows, keys, byProvider);
    MeasureOfSome(plan, f, rows, keys, byProvider, byProvider.Keys);
    forall r | r in rows ensures OwnedByAny(plan, rows, keys, byProvider.Keys)(r) {
      assert HasKey(plan, rows, plan.key(r));
      assert Owns(plan, rows, keys, Owner(plan, rows, plan.key(r)));
    }
    TotalAgrees(plan.add, OwnedByAny(plan, rows, keys, byProvider.Keys), Everything(), rows);
  }
}
