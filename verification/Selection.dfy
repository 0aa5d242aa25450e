/** Round-robin choice of an SPE, and its fairness over many choices. */
module Selection {
  import opened Indices

  /** Increments from `current` until `r` is reached, at least one. */
  function Distance(current: nat, r: nat, spes: nat): (d: nat)
    requires current < spes && r < spes
    ensures 1 <= d <= spes
  {
    if r > current then r - current else r + spes - current
  }

  lemma DistanceStep(current: nat, r: nat, spes: nat)
    requires current < spes && r < spes
    ensures var next := Increment(current, spes);
      && (next == r <==> Distance(current, r, spes) == 1)
      && (next != r ==> Distance(next, r, spes) == Distance(current, r, spes) - 1)
      && (next == r ==> Distance(next, r, spes) == spes)
  {
  }

  lemma DistanceOn(start: nat, current: nat, spes: nat)
    requires start < spes && current < spes
    ensures var next := Increment(current, spes);
      && Distance(start, next, spes) == (if current == start then 1 else Distance(start, current, spes) + 1)
      && (current == start ==> Distance(start, current, spes) == spes)
    ensures forall r | 0 <= r < spes && Distance(start, r, spes) == Distance(start, current, spes) :: r == current
  {
  }

  /** `c` is the first free SPE cyclically after `current`: every SPE passed over is full. */
  ghost predicate IsPick(current: nat, free: seq<bool>, c: nat)
    requires current < |free|
  {
    && c < |free| && free[c]
    && forall r | 0 <= r < |free| && free[r] :: Distance(current, c, |free|) <= Distance(current, r, |free|)
  }

  // ----- the spin, while the harvester frees rings

  /** The SPE that probe `i` of one selection reads: every probe steps on by one. */
  function Probe(current: nat, i: nat, spes: nat): (r: nat)
    requires current < spes
    ensures r < spes
    decreases i
  {
    if i == 0 then Increment(current, spes) else Probe(Increment(current, spes), i - 1, spes)
  }

  /** The probe that ends the spin of `selectfifo`, when probe `i` finds the rings as `frees[i]`;
      the number of probes if none of them ends it. */
  function Spin(current: nat, frees: seq<seq<bool>>, spes: nat): (k: nat)
    requires current < spes && forall i | 0 <= i < |frees| :: |frees[i]| == spes
    ensures k <= |frees|
    ensures k < |frees| ==> frees[k][Probe(current, k, spes)]
    ensures forall i | 0 <= i < k :: !frees[i][Probe(current, i, spes)]
    decreases |frees|
  {
    if frees == [] then 0
    else
      var next := Increment(current, spes);
      if frees[0][next] then 0
      else
        var k := 1 + Spin(next, frees[1..], spes);
        assert forall i | 0 < i < |frees| :: frees[i] == frees[1..][i - 1];
        k
  }

  /** The spin ends within one round of any ring being free for good, whatever the other rings do
      meanwhile. */
  lemma {:induction false} SpinEnds(current: nat, frees: seq<seq<bool>>, spes: nat, r: nat, t: nat)
    requires current < spes && r < spes && forall i | 0 <= i < |frees| :: |frees[i]| == spes
    requires forall i | t <= i < |frees| :: frees[i][r]
    requires t + spes <= |frees|
    ensures Spin(current, frees, spes) < t + spes
    decreases t
  {
    var next := Increment(current, spes);
    if t == 0 {
      SpinReaches(current, frees, spes, r);
    } else if !frees[0][next] {
      SpinEnds(next, frees[1..], spes, r, t - 1);
    }
  }

  lemma {:induction false} SpinReaches(current: nat, frees: seq<seq<bool>>, spes: nat, r: nat)
    requires current < spes && r < spes && forall i | 0 <= i < |frees| :: |frees[i]| == spes
    requires forall i | 0 <= i < |frees| :: frees[i][r]
    requires Distance(current, r, spes) <= |frees|
    ensures Spin(current, frees, spes) < Distance(current, r, spes)
    decreases |frees|
  {
    var next := Increment(current, spes);
    DistanceStep(current, r, spes);
    if !frees[0][next] {
      SpinReaches(next, frees[1..], spes, r);
    }
  }

  lemma {:induction false} ProbeDistance(current: nat, i: nat, spes: nat)
    requires current < spes && i < spes
    ensures Distance(current, Probe(current, i, spes), spes) == i + 1
    decreases i
  {
    var next := Increment(current, spes);
    DistanceStep(current, Probe(current, i, spes), spes);
    if i > 0 {
      ProbeDistance(next, i - 1, spes);
    }
  }

  /** On rings that nothing changes meanwhile it ends at the first free SPE. */
  lemma SpinIsPick(current: nat, free: seq<bool>, frees: seq<seq<bool>>)
    requires current < |free| <= |frees| && true in free
    requires forall i | 0 <= i < |frees| :: frees[i] == free
    ensures Spin(current, frees, |free|) < |free|
    ensures IsPick(current, free, Probe(current, Spin(current, frees, |free|), |free|))
  {
    var spes, k := |free|, Spin(current, frees, |free|);
    forall r | 0 <= r < spes && free[r] ensures k < Distance(current, r, spes) {
      SpinReaches(current, frees, spes, r);
    }
    ProbeDistance(current, k, spes);
  }

  // ----- many selections

  /** The SPE that selection `i` starts from. */
  function Previous(start: nat, choices: seq<nat>, i: nat): nat
    requires i <= |choices|
  {
    if i == 0 then start else choices[i - 1]
  }

  /** Selection `i` starts from the choice before it, with the SPEs that are free at that time. */
  ghost predicate Selections(spes: nat, start: nat, frees: seq<seq<bool>>, choices: seq<nat>)
    requires start < spes
  {
    && |frees| == |choices|
    && (forall i | 0 <= i < |frees| :: |frees[i]| == spes && choices[i] < spes && Previous(start, choices, i) < spes)
    && (forall i | 0 <= i < |frees| :: IsPick(Previous(start, choices, i), frees[i], choices[i]))
  }

  lemma SelectionsTail(spes: nat, start: nat, frees: seq<seq<bool>>, choices: seq<nat>)
    requires start < spes && Selections(spes, start, frees, choices) && choices != []
    ensures Selections(spes, choices[0], frees[1..], choices[1..])
  {
    forall i | 0 <= i < |frees[1..]|
      ensures Previous(choices[0], choices[1..], i) < spes
      ensures IsPick(Previous(choices[0], choices[1..], i), frees[1..][i], choices[1..][i])
    {
      assert Previous(choices[0], choices[1..], i) == Previous(start, choices, i + 1);
    }
  }

  /** An SPE that is free at every selection is chosen within its distance from the start, so
      at least once in any `spes` selections in a row, whichever others are full. */
  lemma {:induction false} FreeIsChosen(spes: nat, start: nat, frees: seq<seq<bool>>, choices: seq<nat>, r: nat)
    returns (i: nat)
    requires start < spes && r < spes && Selections(spes, start, frees, choices)
    requires |choices| >= Distance(start, r, spes)
    requires forall k | 0 <= k < |frees| :: frees[k][r]
    ensures i < Distance(start, r, spes) <= spes && choices[i] == r
    decreases |choices|
  {
    var c := choices[0];
    assert Previous(start, choices, 0) == start;
    if c == r {
      i := 0;
    } else {
      SelectionsTail(spes, start, frees, choices);
      i := FreeIsChosen(spes, c, frees[1..], choices[1..], r);
      i := i + 1;
    }
  }

  function Count(choices: seq<nat>, r: nat): nat
  {
    if choices == [] then 0 else (if choices[0] == r then 1 else 0) + Count(choices[1..], r)
  }

  /** How often a ring at distance `d` is reached in `m` single steps around `spes` rings. */
  function Hits(d: nat, m: nat, spes: nat): nat
    requires 1 <= d <= spes
    decreases m
  {
    if m == 0 then 0
    else if d == 1 then 1 + Hits(spes, m - 1, spes)
    else Hits(d - 1, m - 1, spes)
  }

  lemma {:induction false} HitsDiffer(d: nat, e: nat, m: nat, spes: nat)
    requires 1 <= d <= e <= spes
    ensures Hits(e, m, spes) <= Hits(d, m, spes) <= Hits(e, m, spes) + 1
    decreases m
  {
    if m > 0 {
      if d > 1 {
        HitsDiffer(d - 1, e - 1, m - 1, spes);
      } else if e > 1 {
        HitsDiffer(e - 1, spes, m - 1, spes);
      }
    }
  }

  lemma {:induction false} CountIsHits(spes: nat, start: nat, frees: seq<seq<bool>>, choices: seq<nat>, r: nat)
    requires start < spes && r < spes && Selections(spes, start, frees, choices)
    requires forall k, x | 0 <= k < |frees| && 0 <= x < spes :: frees[k][x]
    ensures Count(choices, r) == Hits(Distance(start, r, spes), |choices|, spes)
    decreases |choices|
  {
    if choices != [] {
      var next := Increment(start, spes);
      assert Previous(start, choices, 0) == start && frees[0][next];
      DistanceStep(start, next, spes);
      assert choices[0] == next;
      SelectionsTail(spes, start, frees, choices);
      DistanceStep(start, r, spes);
      CountIsHits(spes, next, frees[1..], choices[1..], r);
    }
  }

  /** While no ring is full, the numbers of times that any two SPEs are chosen differ by at most
      one. */
  lemma CountsAreBalanced(spes: nat, start: nat, frees: seq<seq<bool>>, choices: seq<nat>, r: nat, t: nat)
    requires start < spes && r < spes && t < spes && Selections(spes, start, frees, choices)
    requires forall k, x | 0 <= k < |frees| && 0 <= x < spes :: frees[k][x]
    ensures -1 <= Count(choices, r) - Count(choices, t) <= 1
  {
    CountIsHits(spes, start, frees, choices, r);
    CountIsHits(spes, start, frees, choices, t);
    var d, e := Distance(start, r, spes), Distance(start, t, spes);
    if d <= e { HitsDiffer(d, e, |choices|, spes); } else { HitsDiffer(e, d, |choices|, spes); }
  }
}
