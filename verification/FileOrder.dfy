/** What the routing file's own fields decide: which entries may serve, in which
    order, and under which model name. */
module FileOrder {
  import opened Wrappers
  import opened Routing

  /** An entry comes first if its number in the file is smaller, a missing
      number standing for 0, or the numbers are equal and it is written first. */
  lemma EarlierReads(es: seq<Entry>, i: nat, j: nat)
    requires i < |es| && j < |es|
    ensures Earlier(es, i, j) <==>
            match (es[i].priority, es[j].priority)
            case (Some(p), Some(q)) => p < q || (p == q && i < j)
            case (Some(p), None) => p < 0 || (p == 0 && i < j)
            case (None, Some(q)) => 0 < q || (0 == q && i < j)
            case (None, None) => i < j
  {
  }

  /** Ranks follow that order. */
  lemma RankFollowsFile(cfgs: map<string, BackendConfig>, es: seq<Entry>, up: map<string, bool>, i: nat, j: nat)
    requires Eligible(cfgs, es, up, i) && Eligible(cfgs, es, up, j) && i != j
    ensures Rank(cfgs, es, up, i) < Rank(cfgs, es, up, j) <==>
            match (es[i].priority, es[j].priority)
            case (Some(p), Some(q)) => p < q || (p == q && i < j)
            case (Some(p), None) => p < 0 || (p == 0 && i < j)
            case (None, Some(q)) => 0 < q || (0 == q && i < j)
            case (None, None) => i < j
  {
    EarlierReads(es, i, j);
    EarlierReads(es, j, i);
    if Earlier(es, i, j) {
      EarlierRanksLower(cfgs, es, up, i, j);
    } else {
      EarlierRanksLower(cfgs, es, up, j, i);
    }
  }

  lemma EarlierRanksLower(cfgs: map<string, BackendConfig>, es: seq<Entry>, up: map<string, bool>, i: nat, j: nat)
    requires Eligible(cfgs, es, up, i) && Eligible(cfgs, es, up, j) && Earlier(es, i, j)
    ensures Rank(cfgs, es, up, i) < Rank(cfgs, es, up, j)
  {
    var a := set k: nat | k < |es| && Eligible(cfgs, es, up, k) && Earlier(es, k, i);
    var b := set k: nat | k < |es| && Eligible(cfgs, es, up, k) && Earlier(es, k, j);
    assert a + {i} <= b && i !in a;
    SmallerSet(a + {i}, b);
  }

  lemma {:induction false} SmallerSet(a: set<nat>, b: set<nat>)
    requires a <= b
    ensures |a| <= |b|
    decreases a
  {
    if a != {} {
      var x :| x in a;
      SmallerSet(a - {x}, b - {x});
    }
  }

  /** An entry may serve if its backend is configured, does not say that it is
      disabled, and is up. */
  lemma EligibleReads(cfgs: map<string, BackendConfig>, es: seq<Entry>, up: map<string, bool>, i: nat)
    ensures Eligible(cfgs, es, up, i) <==>
            i < |es| && es[i].backend in cfgs && cfgs[es[i].backend].enabled != Some(false) &&
            es[i].backend in up && up[es[i].backend]
  {
  }

  /** A routed backend is its entry's, asked for the entry's model name, or for
      the requested model where the entry names none. */
  lemma RoutedReads(cfgs: map<string, BackendConfig>, model: string, es: seq<Entry>, up: map<string, bool>, b: Backend)
    requires Placed(es, 0) && Covers(up, es)
    requires (forall x | x in Enabled(Chain(cfgs, model, es)) :: x.id in up) && b in Routed(cfgs, model, es, up)
    ensures Eligible(cfgs, es, up, b.place) && b.id == es[b.place].backend && b.enabled
    ensures b.targetModel == match es[b.place].modelName case Some(name) => name case None => model
    ensures b.priority == match es[b.place].priority case Some(p) => p case None => 0
  {
    RoutedExact(cfgs, model, es, up);
  }

  // ------------------------------------------------- a missing priority is 0

  /** The same entries, some missing priorities written out as 0. */
  ghost predicate WrittenOut(es: seq<Entry>, full: seq<Entry>) {
    && |es| == |full|
    && forall i | 0 <= i < |es| ::
         full[i] == es[i] || (es[i].priority == None && full[i] == es[i].(priority := Some(0)))
  }

  lemma {:induction false} InsertWrittenOut(e: Entry, f: Entry, es: seq<Entry>, full: seq<Entry>)
    requires WrittenOut([e], [f]) && WrittenOut(es, full)
    ensures WrittenOut(Insert(e, es), Insert(f, full))
    decreases es
  {
    assert [e][0] == e && [f][0] == f;
    if es != [] && !(Priority(e) <= Priority(es[0])) {
      InsertWrittenOut(e, f, es[1..], full[1..]);
    }
  }

  lemma {:induction false} SortWrittenOut(es: seq<Entry>, full: seq<Entry>)
    requires WrittenOut(es, full)
    ensures WrittenOut(StableSort(es), StableSort(full))
    decreases es
  {
    if es != [] {
      SortWrittenOut(es[1..], full[1..]);
      InsertWrittenOut(es[0], full[0], StableSort(es[1..]), StableSort(full[1..]));
    }
  }

  lemma {:induction false} KnownWrittenOut(cfgs: map<string, BackendConfig>, model: string, es: seq<Entry>,
      full: seq<Entry>)
    requires WrittenOut(es, full)
    ensures Known(cfgs, model, es) == Known(cfgs, model, full)
    decreases es
  {
    if es != [] {
      KnownWrittenOut(cfgs, model, es[1..], full[1..]);
    }
  }

  /** Writing 0 for a missing priority changes no chain. */
  lemma MissingPriorityIsZero(cfgs: map<string, BackendConfig>, model: string, es: seq<Entry>, full: seq<Entry>)
    requires WrittenOut(es, full)
    ensures Chain(cfgs, model, es) == Chain(cfgs, model, full)
  {
    SortWrittenOut(es, full);
    KnownWrittenOut(cfgs, model, StableSort(es), StableSort(full));
  }

  /** backends[:limit]: the first `limit`, or all but the last -limit. */
  lemma SliceReads<T>(xs: seq<T>, limit: int)
    ensures Slice(xs, limit) <= xs
    ensures limit >= 0 ==> |Slice(xs, limit)| == if limit < |xs| then limit else |xs|
    ensures limit < 0 ==> |Slice(xs, limit)| == if |xs| + limit > 0 then |xs| + limit else 0
  {
  }
}
