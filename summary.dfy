/** `compute_summary`: per-type counts, per-type-and-state counts and the
    story-point and estimate totals of a set of normalised items. */
module Summary {
  import opened Common
  import opened WorkItems

  /** A counter dict (`defaultdict(int)`), keys in first-insertion order. */
  type Counter = seq<(string, nat)>

  /** The summary record. */
  datatype Summary = Summary(
    totalItems: nat,
    counts: Counter,
    states: seq<(string, Counter)>,
    totalStoryPoints: int,
    totalEstimate: int)

  /** `counter[k] += 1` */
  function Bump<K(==,!new)>(m: seq<(K, nat)>, k: K): seq<(K, nat)> {
    Put(m, k, Lookup(m, k).GetOr(0) + 1)
  }

  /** After `counter[k] += 1` the count of `k` is one more (it was 0 when
      absent) and every other entry is as before. */
  lemma {:induction false} LookupBump<K(!new)>(m: seq<(K, nat)>, k: K, k': K)
    ensures Lookup(Bump(m, k), k') == if k' == k then Some(Lookup(m, k).GetOr(0) + 1) else Lookup(m, k')
  {
    LookupPut(m, k, Lookup(m, k).GetOr(0) + 1, k');
  }

  /** `state_counts[t][s] += 1` */
  function BumpState<K(==,!new), L(==,!new)>(m: seq<(K, seq<(L, nat)>)>, t: K, s: L): seq<(K, seq<(L, nat)>)> {
    Put(m, t, Bump(Lookup(m, t).GetOr([]), s))
  }

  /** After `state_counts[t][s] += 1` the counter of `t` is bumped at `s`
      (it was empty when absent) and every other counter is as before. */
  lemma {:induction false} LookupBumpState<K(!new), L(!new)>(m: seq<(K, seq<(L, nat)>)>, t: K, s: L, t': K)
    ensures Lookup(BumpState(m, t, s), t') == if t' == t then Some(Bump(Lookup(m, t).GetOr([]), s)) else Lookup(m, t')
  {
    LookupPut(m, t, Bump(Lookup(m, t).GetOr([]), s), t');
  }

  /** What a number field adds to a total: its value when truthy, else 0. */
  function Points(n: Option<int>): int {
    if TruthyNum(n) then n.value else 0
  }

  // ---------------------------------------------------------------------
  // The tallies, item by item
  // ---------------------------------------------------------------------

  function CountsOf(items: seq<Item>): Counter {
    if items == [] then []
    else Bump(CountsOf(items[..|items| - 1]), items[|items| - 1].wtype)
  }

  function StatesOf(items: seq<Item>): seq<(string, Counter)> {
    if items == [] then []
    else
      var x := items[|items| - 1];
      BumpState(StatesOf(items[..|items| - 1]), x.wtype, x.state)
  }

  function StoryPointsOf(items: seq<Item>): int {
    if items == [] then 0
    else StoryPointsOf(items[..|items| - 1]) + Points(items[|items| - 1].storyPoints)
  }

  function EstimateOf(items: seq<Item>): int {
    if items == [] then 0
    else EstimateOf(items[..|items| - 1]) + Points(items[|items| - 1].estimate)
  }

  /** `compute_summary(items)`, over the item dict's values in order. */
  method ComputeSummary(items: seq<Item>) returns (r: Summary)
    ensures r.totalItems == |items|
    ensures r.counts == CountsOf(items) && r.states == StatesOf(items)
    ensures r.totalStoryPoints == StoryPointsOf(items)
    ensures r.totalEstimate == EstimateOf(items)
  {
    var counts: Counter := [];
    var states: seq<(string, Counter)> := [];
    var sp := 0;
    var est := 0;
    var i := 0;
    while i < |items|
      invariant 0 <= i <= |items|
      invariant counts == CountsOf(items[..i]) && states == StatesOf(items[..i])
      invariant sp == StoryPointsOf(items[..i]) && est == EstimateOf(items[..i])
    {
      var x := items[i];
      TalliesStep(items, i);
      counts := Bump(counts, x.wtype);
      states := BumpState(states, x.wtype, x.state);
      if x.storyPoints.Some? && x.storyPoints.value != 0 {
        sp := sp + x.storyPoints.value;
      }
      if x.estimate.Some? && x.estimate.value != 0 {
        est := est + x.estimate.value;
      }
      i := i + 1;
    }
    assert items[..|items|] == items;
    r := Summary(|items|, counts, states, sp, est);
  }

  /** One more item: each tally takes it into account. */
  lemma TalliesStep(items: seq<Item>, i: nat)
    requires i < |items|
    ensures CountsOf(items[..i + 1]) == Bump(CountsOf(items[..i]), items[i].wtype)
    ensures StatesOf(items[..i + 1]) == BumpState(StatesOf(items[..i]), items[i].wtype, items[i].state)
    ensures StoryPointsOf(items[..i + 1]) == StoryPointsOf(items[..i]) + Points(items[i].storyPoints)
    ensures EstimateOf(items[..i + 1]) == EstimateOf(items[..i]) + Points(items[i].estimate)
  {
    assert items[..i + 1][..i] == items[..i];
  }

  // ---------------------------------------------------------------------
  // What the tallies mean
  // ---------------------------------------------------------------------

  /** The sum of a counter's values. */
  function Total(m: Counter): nat {
    if m == [] then 0 else m[0].1 + Total(m[1..])
  }

  /** A count present in the counter is part of its total. */
  lemma {:induction false} TotalBump(m: Counter, k: string)
    ensures Total(Bump(m, k)) == Total(m) + 1
  {
    if m != [] && m[0].0 != k {
      TotalBump(m[1..], k);
      assert Bump(m, k) == [m[0]] + Bump(m[1..], k);
    }
  }

  /** The items of type `t`. */
  function OfType(items: seq<Item>, t: string): seq<Item> {
    Filter(items, (x: Item) => x.wtype == t)
  }

  /** The items of type `t` in state `s`. */
  function OfTypeState(items: seq<Item>, t: string, s: string): seq<Item> {
    Filter(items, (x: Item) => x.wtype == t && x.state == s)
  }

  /** A counter entry: absent when nothing was counted, else the number. */
  function Tallied(xs: seq<Item>): Option<nat> {
    if xs == [] then None else Some(|xs|)
  }

  /** The count of a type is the number of items of that type; a type no
      item has is not a key. */
  lemma {:induction false} CountsOfType(items: seq<Item>, t: string)
    ensures Lookup(CountsOf(items), t) == Tallied(OfType(items, t))
  {
    if items != [] {
      var init := items[..|items| - 1];
      var x := items[|items| - 1];
      CountsOfType(init, t);
      LookupBump(CountsOf(init), x.wtype, t);
      if x.wtype == t {
        assert OfType(items, t) == OfType(init, t) + [x];
      } else {
        assert OfType(items, t) == OfType(init, t);
      }
    }
  }

  /** The count of a type and state is the number of items of that type in
      that state; the per-type dict exists exactly for the types counted. */
  lemma {:induction false} StatesOfType(items: seq<Item>, t: string, s: string)
    ensures Lookup(StatesOf(items), t).Some? <==> OfType(items, t) != []
    ensures Lookup(Lookup(StatesOf(items), t).GetOr([]), s) == Tallied(OfTypeState(items, t, s))
  {
    if items != [] {
      var init := items[..|items| - 1];
      var x := items[|items| - 1];
      StatesOfType(init, t, s);
      LookupBumpState(StatesOf(init), x.wtype, x.state, t);
      if x.wtype == t {
        assert OfType(items, t) == OfType(init, t) + [x];
        LookupBump(Lookup(StatesOf(init), t).GetOr([]), x.state, s);
        if x.state == s {
          assert OfTypeState(items, t, s) == OfTypeState(init, t, s) + [x];
        } else {
          assert OfTypeState(items, t, s) == OfTypeState(init, t, s);
        }
      } else {
        assert OfType(items, t) == OfType(init, t);
        assert OfTypeState(items, t, s) == OfTypeState(init, t, s);
      }
    }
  }

  /** The per-type counts add up to the number of items. */
  lemma {:induction false} CountsTotal(items: seq<Item>)
    ensures Total(CountsOf(items)) == |items|
  {
    if items != [] {
      CountsTotal(items[..|items| - 1]);
      TotalBump(CountsOf(items[..|items| - 1]), items[|items| - 1].wtype);
    }
  }

  /** Each type's per-state counts add up to that type's count. */
  lemma {:induction false} StatesTotal(items: seq<Item>, t: string)
    ensures Total(Lookup(StatesOf(items), t).GetOr([])) == Lookup(CountsOf(items), t).GetOr(0)
  {
    if items != [] {
      var init := items[..|items| - 1];
      var x := items[|items| - 1];
      StatesTotal(init, t);
      LookupBumpState(StatesOf(init), x.wtype, x.state, t);
      LookupBump(CountsOf(init), x.wtype, t);
      if x.wtype == t {
        TotalBump(Lookup(StatesOf(init), t).GetOr([]), x.state);
      }
    }
  }

  /** Totals over two runs of items add up. */
  lemma {:induction false} PointsAppend(a: seq<Item>, b: seq<Item>)
    ensures StoryPointsOf(a + b) == StoryPointsOf(a) + StoryPointsOf(b)
    ensures EstimateOf(a + b) == EstimateOf(a) + EstimateOf(b)
  {
    if b == [] {
      assert a + b == a;
    } else {
      PointsAppend(a, b[..|b| - 1]);
      assert (a + b)[..|a + b| - 1] == a + b[..|b| - 1];
    }
  }

  /** Only items whose story points are truthy (present and non-zero) add
      to the story-point total. */
  lemma {:induction false} StoryPointsTruthyOnly(items: seq<Item>)
    ensures StoryPointsOf(items) == StoryPointsOf(Filter(items, (x: Item) => TruthyNum(x.storyPoints)))
  {
    if items != [] {
      var init := items[..|items| - 1];
      StoryPointsTruthyOnly(init);
      var f := Filter(init, (x: Item) => TruthyNum(x.storyPoints));
      if TruthyNum(items[|items| - 1].storyPoints) {
        assert (f + [items[|items| - 1]])[..|f|] == f;
      }
    }
  }

  /** Only items whose estimate is truthy add to the estimate total. */
  lemma {:induction false} EstimateTruthyOnly(items: seq<Item>)
    ensures EstimateOf(items) == EstimateOf(Filter(items, (x: Item) => TruthyNum(x.estimate)))
  {
    if items != [] {
      var init := items[..|items| - 1];
      EstimateTruthyOnly(init);
      var f := Filter(init, (x: Item) => TruthyNum(x.estimate));
      if TruthyNum(items[|items| - 1].estimate) {
        assert (f + [items[|items| - 1]])[..|f|] == f;
      }
    }
  }
}
