// Bandwidth-weighted sampling (services/discovery/src/core/registry.rs:248-286).
module WeightedSampling {
  import opened Sequences

  type u64 = n: nat | n < 0x1_0000_0000_0000_0000

  function Sum(weights: seq<nat>): nat {
    if weights == [] then 0 else Sum(Init(weights)) + Last(weights)
  }

  // How many values the one random draw may take: the total weight, or if that is zero the
  // number of candidates.
  function DrawBound(weights: seq<nat>): nat {
    if Sum(weights) == 0 then |weights| else Sum(weights)
  }

  // The candidate in whose stretch of the total weight the draw falls.
  function Selected(weights: seq<nat>, draw: nat): (i: nat)
    requires draw < Sum(weights)
    ensures i < |weights|
    ensures Sum(weights[..i]) <= draw < Sum(weights[..i + 1])
  {
    if draw >= Sum(Init(weights)) then
      assert weights[..|weights|] == weights;
      |weights| - 1
    else
      var i := Selected(Init(weights), draw);
      assert weights[..i] == Init(weights)[..i] && weights[..i + 1] == Init(weights)[..i + 1];
      i
  }

  function Chosen(weights: seq<nat>, draw: nat): (i: nat)
    requires draw < DrawBound(weights)
    ensures i < |weights|
  {
    if Sum(weights) == 0 then draw else Selected(weights, draw)
  }

  lemma {:induction false} SumNext(weights: seq<nat>, i: nat)
    requires i < |weights|
    ensures Sum(weights[..i + 1]) == Sum(weights[..i]) + weights[i]
  {
    assert Init(weights[..i + 1]) == weights[..i];
  }

  lemma {:induction false} SumGrows(weights: seq<nat>, i: nat, j: nat)
    requires i <= j <= |weights|
    ensures Sum(weights[..i]) <= Sum(weights[..j])
    decreases j
  {
    if i < j {
      SumNext(weights, j - 1);
      SumGrows(weights, i, j - 1);
    }
  }

  // A stretch determines its candidate.
  lemma {:induction false} StretchesDisjoint(weights: seq<nat>, draw: nat, i: nat, j: nat)
    requires i < |weights| && j < |weights|
    requires Sum(weights[..i]) <= draw < Sum(weights[..i + 1])
    requires Sum(weights[..j]) <= draw < Sum(weights[..j + 1])
    ensures i == j
  {
    if i < j {
      SumGrows(weights, i + 1, j);
    } else if j < i {
      SumGrows(weights, j + 1, i);
    }
  }

  // Walk the candidates, taking each weight off the draw. The subtraction never goes below zero,
  // and the fallback behind the loop is never reached.
  method SelectWeightedIndex(weights: seq<u64>, draw: nat) returns (index: nat)
    requires weights != [] && Sum(weights) < 0x1_0000_0000_0000_0000
    requires draw < DrawBound(weights)
    ensures index == Chosen(weights, draw)
  {
    var total := TotalOf(weights);
    if total == 0 {
      return draw;
    }
    var randomWeight: u64 := draw;
    index := |weights| - 1;
    assert weights[..0] == [] && weights[..|weights|] == weights;
    for i := 0 to |weights|
      invariant randomWeight + Sum(weights[..i]) == draw
    {
      SumNext(weights, i);
      if randomWeight < weights[i] {
        StretchesDisjoint(weights, draw, i, Selected(weights, draw));
        return i;
      }
      randomWeight := randomWeight - weights[i];
    }
    assert false;
  }

  method TotalOf(weights: seq<u64>) returns (total: u64)
    requires Sum(weights) < 0x1_0000_0000_0000_0000
    ensures total == Sum(weights)
  {
    total := 0;
    assert weights[..0] == [];
    for i := 0 to |weights|
      invariant total == Sum(weights[..i])
    {
      SumNext(weights, i);
      SumGrows(weights, i + 1, |weights|);
      assert weights[..|weights|] == weights;
      total := total + weights[i];
    }
    assert weights[..|weights|] == weights;
  }

  // ----- exact proportionality -----

  ghost function Draws(weights: seq<nat>, i: nat): set<nat> {
    set r: nat | r < Sum(weights) && Selected(weights, r) == i
  }

  // Of all the draws, exactly weights[i] select candidate i; so a candidate of weight zero is
  // never selected.
  lemma {:induction false} ExactlyProportional(weights: seq<nat>, i: nat)
    requires i < |weights|
    ensures |Draws(weights, i)| == weights[i]
  {
    hide Range, Sum, Selected;
    var lo, hi := Sum(weights[..i]), Sum(weights[..i + 1]);
    SumNext(weights, i);
    SumGrows(weights, i + 1, |weights|);
    assert weights[..|weights|] == weights;
    forall r | r in Range(lo, hi)
      ensures r in Draws(weights, i)
    {
      StretchesDisjoint(weights, r, i, Selected(weights, r));
    }
    forall r | r in Draws(weights, i)
      ensures r in Range(lo, hi)
    {
    }
    assert Draws(weights, i) == Range(lo, hi);
  }

  function Range(lo: nat, hi: nat): (r: set<nat>)
    requires lo <= hi
    ensures |r| == hi - lo
    ensures forall x :: x in r <==> lo <= x < hi
    decreases hi
  {
    if lo == hi then {} else Range(lo, hi - 1) + {hi - 1}
  }
}
