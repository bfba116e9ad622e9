/** The layers of the pot (`build_pot_layers` in poker/game.py:1073-1095) and what they add up to. */
module PotLayers {
  import opened Prelude

  /** `amount` chips, put in by `contributors` (player ids in seat order). */
  datatype Layer = Layer(amount: nat, contributors: seq<nat>)

  // ---------------------------------------------------------------- levels

  function InsertLevel(x: nat, s: seq<nat>): (r: seq<nat>)
    requires Ascending(s)
    ensures Ascending(r)
    ensures forall y :: y in r <==> y == x || y in s
  {
    if s == [] || x < s[0] then [x] + s
    else if x == s[0] then s
    else
      var rest := InsertLevel(x, s[1..]);
      assert forall i :: 0 <= i < |rest| ==> rest[i] in rest;
      [s[0]] + rest
  }

  /** The different positive contributions, smallest first. */
  function Levels(contrib: seq<nat>): (r: seq<nat>)
    ensures Ascending(r)
    ensures forall y :: y in r <==> y in contrib && y > 0
  {
    if contrib == [] then []
    else
      var r := Levels(contrib[..|contrib| - 1]);
      var last := contrib[|contrib| - 1];
      assert contrib == contrib[..|contrib| - 1] + [last];
      if last == 0 then r else InsertLevel(last, r)
  }

  /** The level below the t-th one. */
  function Below(levels: seq<nat>, t: nat): nat
    requires t <= |levels|
  {
    if t == 0 then 0 else levels[t - 1]
  }

  // ---------------------------------------------------------------- layers

  /** The ids whose contribution reaches the level, in seat order. */
  function Reaching(contrib: seq<nat>, level: nat): (r: seq<nat>)
    ensures forall i: nat :: i in r <==> i < |contrib| && contrib[i] >= level
    ensures Ascending(r)
  {
    if contrib == [] then []
    else
      var n := |contrib| - 1;
      var r := Reaching(contrib[..n], level);
      assert forall k :: 0 <= k < |r| ==> r[k] in r;
      if contrib[n] >= level then r + [n] else r
  }

  function ContributorSet(l: Layer): set<nat> {
    set i | i in l.contributors
  }

  /** The t-th layer, in closed form. */
  function LayerAt(contrib: seq<nat>, t: nat): Layer
    requires t < |Levels(contrib)|
  {
    var levels := Levels(contrib);
    var width: nat := levels[t] - Below(levels, t);
    var contributors := Reaching(contrib, levels[t]);
    Layer(width * |contributors|, contributors)
  }

  function Layers(contrib: seq<nat>): (r: seq<Layer>)
    ensures |r| == |Levels(contrib)|
    ensures forall t :: 0 <= t < |r| ==> r[t] == LayerAt(contrib, t)
  {
    seq(|Levels(contrib)|, t requires 0 <= t < |Levels(contrib)| => LayerAt(contrib, t))
  }

  /** A zero contribution is in no layer, so the map without zeros gives the same layers. */
  method BuildPotLayers(contrib: seq<nat>) returns (layers: seq<Layer>)
    ensures layers == Layers(contrib)
  {
    hide Levels, Reaching;
    var levels := Levels(contrib);
    layers := [];
    var prev := 0;
    for t := 0 to |levels|
      invariant prev == Below(levels, t)
      invariant |layers| == t && forall k :: 0 <= k < t ==> layers[k] == LayerAt(contrib, k)
    {
      var level := levels[t];
      // The source skips a layer of width 0, which rising levels rule out.
      assert level in levels && level > prev;
      var width := level - prev;
      var contributors := Reaching(contrib, level);
      layers := layers + [Layer(width * |contributors|, contributors)];
      prev := level;
    }
  }

  // ---------------------------------------------------------------- sums of capped contributions

  function Capped(contrib: seq<nat>, cap: nat): (r: seq<int>)
    ensures |r| == |contrib|
    ensures forall i :: 0 <= i < |r| ==> r[i] == Min(contrib[i], cap)
  {
    seq(|contrib|, i requires 0 <= i < |contrib| => Min(contrib[i], cap))
  }

  /** The chips in the pot that lie at or below `cap` in somebody's stack of contributions. */
  function UpTo(contrib: seq<nat>, cap: nat): (s: nat)
  {
    SumIsNonNegative(Capped(contrib, cap));
    Sum(Capped(contrib, cap))
  }

  lemma UpToSplit(contrib: seq<nat>, cap: nat)
    requires contrib != []
    ensures UpTo(contrib, cap) == UpTo(contrib[..|contrib| - 1], cap) + Min(contrib[|contrib| - 1], cap)
  {
    assert Capped(contrib, cap)[..|contrib| - 1] == Capped(contrib[..|contrib| - 1], cap);
  }

  lemma ReachingSplit(contrib: seq<nat>, level: nat)
    requires contrib != []
    ensures |Reaching(contrib, level)|
         == |Reaching(contrib[..|contrib| - 1], level)| + if contrib[|contrib| - 1] >= level then 1 else 0
  {
  }

  /** Between two neighbouring levels the capped sum grows by one layer. */
  lemma {:induction false} LayerIsDifference(contrib: seq<nat>, low: nat, high: nat)
    requires low < high
    requires forall i :: 0 <= i < |contrib| ==> contrib[i] <= low || contrib[i] >= high
    ensures UpTo(contrib, high) == UpTo(contrib, low) + (high - low) * |Reaching(contrib, high)|
  {
    hide UpTo, Reaching;
    if contrib == [] {
      UpToNothing(low);
      UpToNothing(high);
      NobodyReaches(high);
    } else {
      var p := contrib[..|contrib| - 1];
      LayerIsDifference(p, low, high);
      UpToSplit(contrib, low);
      UpToSplit(contrib, high);
      ReachingSplit(contrib, high);
      var k := |Reaching(p, high)|;
      assert (high - low) * (k + 1) == (high - low) * k + (high - low);
    }
  }

  lemma NobodyReaches(level: nat)
    ensures Reaching([], level) == []
  {
  }

  lemma UpToNothing(cap: nat)
    ensures UpTo([], cap) == 0
  {
  }

  lemma {:induction false} UpToIsMonotone(contrib: seq<nat>, a: nat, b: nat)
    requires a <= b
    ensures UpTo(contrib, a) <= UpTo(contrib, b)
  {
    if contrib != [] {
      UpToIsMonotone(contrib[..|contrib| - 1], a, b);
      UpToSplit(contrib, a);
      UpToSplit(contrib, b);
    }
  }

  lemma {:induction false} UpToZero(contrib: seq<nat>)
    ensures UpTo(contrib, 0) == 0
  {
    if contrib != [] {
      UpToZero(contrib[..|contrib| - 1]);
      UpToSplit(contrib, 0);
    }
  }

  /** No contribution lies strictly between neighbouring levels. */
  lemma NothingBetweenLevels(contrib: seq<nat>, t: nat)
    requires t < |Levels(contrib)|
    ensures Below(Levels(contrib), t) < Levels(contrib)[t]
    ensures forall i :: 0 <= i < |contrib| ==>
              contrib[i] <= Below(Levels(contrib), t) || contrib[i] >= Levels(contrib)[t]
  {
    hide Levels;
    var levels := Levels(contrib);
    assert levels[t] in levels;
    forall i | 0 <= i < |contrib| ensures contrib[i] <= Below(levels, t) || contrib[i] >= levels[t] {
      if contrib[i] > 0 {
        assert contrib[i] in levels;
        var k :| 0 <= k < |levels| && levels[k] == contrib[i];
        assert k < t ==> levels[k] <= levels[t - 1];
      }
    }
  }

  lemma SomebodyReaches(contrib: seq<nat>, t: nat)
    requires t < |Levels(contrib)|
    ensures |Reaching(contrib, Levels(contrib)[t])| > 0
  {
    var level := Levels(contrib)[t];
    assert level in Levels(contrib);
    var i :| 0 <= i < |contrib| && contrib[i] == level;
    assert i in Reaching(contrib, level);
  }

  /** What the t-th layer holds: the chips between its two levels. */
  lemma LayerAmount(contrib: seq<nat>, t: nat)
    requires t < |Levels(contrib)|
    ensures LayerAt(contrib, t).amount == UpTo(contrib, Levels(contrib)[t]) - UpTo(contrib, Below(Levels(contrib), t))
    ensures LayerAt(contrib, t).amount > 0 && LayerAt(contrib, t).contributors != []
  {
    hide Levels, Reaching, UpTo;
    var levels := Levels(contrib);
    NothingBetweenLevels(contrib, t);
    LayerIsDifference(contrib, Below(levels, t), levels[t]);
    SomebodyReaches(contrib, t);
    MulAtLeast(levels[t] - Below(levels, t), |Reaching(contrib, levels[t])|);
  }

  // ---------------------------------------------------------------- the layers partition the pot

  /** Total of the first `t` layers. */
  function TotalOf(layers: seq<Layer>): nat {
    if layers == [] then 0 else TotalOf(layers[..|layers| - 1]) + layers[|layers| - 1].amount
  }

  lemma {:induction false} FirstLayersHold(contrib: seq<nat>, t: nat)
    requires t <= |Levels(contrib)|
    ensures TotalOf(Layers(contrib)[..t]) == UpTo(contrib, Below(Levels(contrib), t))
  {
    if t == 0 {
      UpToZero(contrib);
    } else {
      FirstLayersHold(contrib, t - 1);
      LayerAmount(contrib, t - 1);
      assert Layers(contrib)[..t][..t - 1] == Layers(contrib)[..t - 1];
    }
  }

  lemma TopLevel(contrib: seq<nat>)
    ensures forall i :: 0 <= i < |contrib| ==> contrib[i] <= Below(Levels(contrib), |Levels(contrib)|)
  {
    var levels := Levels(contrib);
    forall i | 0 <= i < |contrib| ensures contrib[i] <= Below(levels, |levels|) {
      if contrib[i] > 0 {
        assert contrib[i] in levels;
      }
    }
  }

  lemma UpToEverything(contrib: seq<nat>, cap: nat)
    requires forall i :: 0 <= i < |contrib| ==> contrib[i] <= cap
    ensures UpTo(contrib, cap) == Sum(contrib)
  {
    assert Capped(contrib, cap) == contrib;
  }

  /** Sum of the widths of the layers, among the first `t`, that player `i` has a share in. */
  function WidthsOf(contrib: seq<nat>, i: nat, t: nat): int
    requires t <= |Levels(contrib)|
  {
    if t == 0 then 0
    else if i in LayerAt(contrib, t - 1).contributors
    then WidthsOf(contrib, i, t - 1) + Levels(contrib)[t - 1] - Below(Levels(contrib), t - 1)
    else WidthsOf(contrib, i, t - 1)
  }

  lemma {:induction false} WidthsAddUp(contrib: seq<nat>, i: nat, t: nat)
    requires i < |contrib| && t <= |Levels(contrib)|
    ensures WidthsOf(contrib, i, t) == Min(contrib[i], Below(Levels(contrib), t))
  {
    if t > 0 {
      WidthsAddUp(contrib, i, t - 1);
      NothingBetweenLevels(contrib, t - 1);
    }
  }

  lemma NestedContributors(contrib: seq<nat>, t: nat)
    requires 0 < t < |Layers(contrib)|
    ensures ContributorSet(Layers(contrib)[t]) < ContributorSet(Layers(contrib)[t - 1])
  {
    var levels, layers := Levels(contrib), Layers(contrib);
    assert levels[t - 1] in levels;
    var i :| 0 <= i < |contrib| && contrib[i] == levels[t - 1];
    assert i in ContributorSet(layers[t - 1]) && i !in ContributorSet(layers[t]);
  }

  lemma LayersHoldEverything(contrib: seq<nat>)
    ensures TotalOf(Layers(contrib)) == Sum(contrib)
  {
    var levels, layers := Levels(contrib), Layers(contrib);
    FirstLayersHold(contrib, |levels|);
    assert layers[..|levels|] == layers;
    TopLevel(contrib);
    UpToEverything(contrib, Below(levels, |levels|));
  }

  lemma WidthsAreChips(contrib: seq<nat>, i: nat)
    requires i < |contrib|
    ensures WidthsOf(contrib, i, |Levels(contrib)|) == contrib[i]
  {
    WidthsAddUp(contrib, i, |Levels(contrib)|);
    TopLevel(contrib);
  }

  /**
   * The layers are a partition of the pot: they are never empty, they add up to all contributions, each set of
   * contributors properly contains the next, and the widths of a player's layers add up to the player's chips.
   */
  lemma LayersPartitionThePot(contrib: seq<nat>)
    ensures forall t :: 0 <= t < |Layers(contrib)| ==> Layers(contrib)[t].amount > 0
    ensures TotalOf(Layers(contrib)) == Sum(contrib)
    ensures forall t :: 0 < t < |Layers(contrib)| ==>
              ContributorSet(Layers(contrib)[t]) < ContributorSet(Layers(contrib)[t - 1])
    ensures forall i :: 0 <= i < |contrib| ==> WidthsOf(contrib, i, |Levels(contrib)|) == contrib[i]
  {
    hide Levels, Reaching, TotalOf, WidthsOf, Sum, UpTo, ContributorSet;
    forall t | 0 <= t < |Layers(contrib)| ensures Layers(contrib)[t].amount > 0 { LayerAmount(contrib, t); }
    LayersHoldEverything(contrib);
    forall t | 0 < t < |Layers(contrib)|
      ensures ContributorSet(Layers(contrib)[t]) < ContributorSet(Layers(contrib)[t - 1])
    {
      NestedContributors(contrib, t);
    }
    forall i | 0 <= i < |contrib| ensures WidthsOf(contrib, i, |Levels(contrib)|) == contrib[i] {
      WidthsAreChips(contrib, i);
    }
  }
}
