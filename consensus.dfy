/** The consensus estimate of `calculateAverage` (VotingSession.js), also written out
    inline in Room.js: discard `?` and `coffee`, read the rest as numbers, average them,
    and snap the mean to the nearest value of the planning-poker scale. Computed over
    exact reals: the votes are multiples of 1/2, so a tie between two scale values is an
    exact tie and any other comparison is decided far from rounding error. */
module Consensus {
  import opened Nullable
  import opened JsArray
  import opened Cards

  /** One entry of `votingResults`: who voted and the card they held (`null` if none). */
  datatype VoteResult = VoteResult(userName: string, value: Option<Card>)

  /** `fibSequence`, the scale the mean is snapped to. */
  const FibSequence: seq<real> := [0.5, 1.0, 2.0, 3.0, 5.0, 8.0, 13.0, 20.0, 40.0, 100.0]

  /** The first filter: drop `?` and `coffee`. */
  predicate Counted(r: VoteResult) {
    !IsExcluded(r.value)
  }

  /** The map: a vote's number, None standing for `NaN`. */
  function Parsed(r: VoteResult): Option<real> {
    VoteNumber(r.value)
  }

  /** The second filter, `!isNaN`. */
  predicate IsNumber(n: Option<real>) {
    n.Some?
  }

  /** The number a filtered entry holds (every entry passed IsNumber). */
  function NumberOf(n: Option<real>): real {
    if n.Some? then n.value else 0.0
  }

  /** `numericVotes` */
  function NumericVotes(results: seq<VoteResult>): seq<real> {
    var parsed := Map(Parsed, Filter(Counted, results));
    Map(NumberOf, Filter(IsNumber, parsed))
  }

  /** A number is among the numeric votes exactly when some counted result parses to it. */
  lemma NumericVotesMembers(results: seq<VoteResult>, x: real)
    ensures x in NumericVotes(results) <==>
            exists i :: 0 <= i < |results| && !IsExcluded(results[i].value) && VoteNumber(results[i].value) == Some(x)
  {
    var kept := Filter(Counted, results);
    var parsed := Map(Parsed, kept);
    var numbers := Filter(IsNumber, parsed);
    if x in NumericVotes(results) {
      var k :| 0 <= k < |numbers| && NumberOf(numbers[k]) == x;
      assert numbers[k] in parsed;
      var j :| 0 <= j < |parsed| && parsed[j] == numbers[k];
      assert kept[j] in results;
      var i :| 0 <= i < |results| && results[i] == kept[j];
      assert VoteNumber(results[i].value) == Some(x);
    }
    if exists i :: 0 <= i < |results| && !IsExcluded(results[i].value) && VoteNumber(results[i].value) == Some(x) {
      var i :| 0 <= i < |results| && !IsExcluded(results[i].value) && VoteNumber(results[i].value) == Some(x);
      assert results[i] in kept;
      var j :| 0 <= j < |kept| && kept[j] == results[i];
      assert parsed[j] == Some(x);
      assert Some(x) in numbers;
      var k :| 0 <= k < |numbers| && numbers[k] == Some(x);
      assert NumericVotes(results)[k] == x;
    }
  }

  lemma NumericVotesConcat(a: seq<VoteResult>, b: seq<VoteResult>)
    ensures NumericVotes(a + b) == NumericVotes(a) + NumericVotes(b)
  {
    FilterConcat(Counted, a, b);
    MapConcat(Parsed, Filter(Counted, a), Filter(Counted, b));
    FilterConcat(IsNumber, Map(Parsed, Filter(Counted, a)), Map(Parsed, Filter(Counted, b)));
    MapConcat(NumberOf, Filter(IsNumber, Map(Parsed, Filter(Counted, a))), Filter(IsNumber, Map(Parsed, Filter(Counted, b))));
  }

  lemma NumericVotesPermutation(a: seq<VoteResult>, b: seq<VoteResult>)
    requires multiset(a) == multiset(b)
    ensures multiset(NumericVotes(a)) == multiset(NumericVotes(b))
  {
    FilterPermutation(Counted, a, b);
    MapPermutation(Parsed, Filter(Counted, a), Filter(Counted, b));
    FilterPermutation(IsNumber, Map(Parsed, Filter(Counted, a)), Map(Parsed, Filter(Counted, b)));
    MapPermutation(NumberOf, Filter(IsNumber, Map(Parsed, Filter(Counted, a))), Filter(IsNumber, Map(Parsed, Filter(Counted, b))));
  }

  /** The running total of the votes, folded from the left starting at 0. */
  function Sum(xs: seq<real>): real {
    if xs == [] then 0.0 else Sum(xs[..|xs| - 1]) + xs[|xs| - 1]
  }

  lemma {:induction false} SumConcat(a: seq<real>, b: seq<real>)
    ensures Sum(a + b) == Sum(a) + Sum(b)
  {
    if b == [] {
      assert a + b == a;
    } else {
      SumConcat(a, b[..|b| - 1]);
      assert (a + b)[..|a + b| - 1] == a + b[..|b| - 1];
    }
  }

  /** The total does not depend on the order of the votes. */
  lemma {:induction false} SumPermutation(a: seq<real>, b: seq<real>)
    requires multiset(a) == multiset(b)
    ensures Sum(a) == Sum(b)
  {
    if a == [] {
      assert |b| == |multiset(b)| == 0;
    } else {
      var i := PermutationTail(a, b);
      var front, back := b[..i], b[i + 1..];
      SumPermutation(a[1..], front + back);
      assert a == [a[0]] + a[1..];
      SumConcat([a[0]], a[1..]);
      assert b == front + ([b[i]] + back);
      SumConcat(front, [b[i]] + back);
      SumConcat([b[i]], back);
      SumConcat(front, back);
      assert Sum([a[0]]) == Sum([]) + a[0];
    }
  }

  function Mean(xs: seq<real>): real
    requires xs != []
  {
    Sum(xs) / (|xs| as real)
  }

  function Abs(x: real): real {
    if x < 0.0 then -x else x
  }

  /** The scan over the scale, which starts from its first value: prev is the candidate
      kept so far, and a later one replaces it only when it is strictly closer. */
  function NearestFrom(prev: real, rest: seq<real>, target: real): (r: real)
    ensures r == prev || r in rest
    decreases |rest|
  {
    if rest == [] then prev
    else NearestFrom(if Abs(rest[0] - target) < Abs(prev - target) then rest[0] else prev, rest[1..], target)
  }

  function Nearest(candidates: seq<real>, target: real): (r: real)
    requires candidates != []
    ensures r in candidates
  {
    NearestFrom(candidates[0], candidates[1..], target)
  }

  /** k is the first position of candidates whose distance to target is least. */
  ghost predicate IsFirstNearest(candidates: seq<real>, k: int, target: real) {
    && 0 <= k < |candidates|
    && (forall j :: 0 <= j < |candidates| ==> Abs(candidates[k] - target) <= Abs(candidates[j] - target))
    && (forall j :: 0 <= j < k ==> Abs(candidates[k] - target) < Abs(candidates[j] - target))
  }

  /** At most one position is the first nearest one. */
  lemma FirstNearestUnique(candidates: seq<real>, k1: int, k2: int, target: real)
    requires IsFirstNearest(candidates, k1, target) && IsFirstNearest(candidates, k2, target)
    ensures k1 == k2
  {
    assert Abs(candidates[k1] - target) == Abs(candidates[k2] - target);
    if k1 < k2 {
      assert false;
    } else if k2 < k1 {
      assert false;
    }
  }

  /** Folding on from a prefix whose first nearest element is kept yields the first nearest
      element of the whole sequence. */
  lemma {:induction false} NearestFromIsFirstNearest(seen: seq<real>, k: nat, rest: seq<real>, target: real)
    returns (m: nat)
    requires IsFirstNearest(seen, k, target)
    ensures IsFirstNearest(seen + rest, m, target) && NearestFrom(seen[k], rest, target) == (seen + rest)[m]
    decreases |rest|
  {
    if rest == [] {
      assert seen + rest == seen;
      m := k;
    } else {
      var x := rest[0];
      var seen' := seen + [x];
      var k' := if Abs(x - target) < Abs(seen[k] - target) then |seen| else k;
      assert seen'[k'] == if Abs(x - target) < Abs(seen[k] - target) then x else seen[k];
      assert IsFirstNearest(seen', k', target);
      assert seen' + rest[1..] == seen + rest;
      m := NearestFromIsFirstNearest(seen', k', rest[1..], target);
    }
  }

  /** The scan returns the first candidate nearest to the target: no candidate is closer,
      and every earlier candidate is strictly farther, so a tie goes to the earlier one. */
  lemma NearestIsFirstNearest(candidates: seq<real>, target: real) returns (k: nat)
    requires candidates != []
    ensures IsFirstNearest(candidates, k, target) && Nearest(candidates, target) == candidates[k]
  {
    assert IsFirstNearest([candidates[0]], 0, target);
    assert [candidates[0]] + candidates[1..] == candidates;
    k := NearestFromIsFirstNearest([candidates[0]], 0, candidates[1..], target);
  }

  /** `calculateAverage`: 0 when no vote is a number, otherwise a value of the scale. */
  function CalculateAverage(results: seq<VoteResult>): (r: real)
    ensures r == 0.0 <==> NumericVotes(results) == []
    ensures r != 0.0 ==> r in FibSequence
  {
    var votes := NumericVotes(results);
    if |votes| == 0 then 0.0 else Nearest(FibSequence, Mean(votes))
  }

  /** The consensus is the first scale value nearest to the mean of the numeric votes. */
  lemma ConsensusIsNearestToMean(results: seq<VoteResult>) returns (k: nat)
    requires NumericVotes(results) != []
    ensures IsFirstNearest(FibSequence, k, Mean(NumericVotes(results)))
    ensures CalculateAverage(results) == FibSequence[k]
  {
    k := NearestIsFirstNearest(FibSequence, Mean(NumericVotes(results)));
  }

  /** The consensus shown in Room.js while revealed: `'0'` when there are no results,
      else the same computation; both show the value of calculateAverage. */
  function RoomConsensus(results: seq<VoteResult>): (r: real)
    ensures r == CalculateAverage(results)
  {
    if |results| > 0 then CalculateAverage(results) else 0.0
  }

  /** The numeric votes of a single result: its number, if it is counted and parses. */
  lemma NumericVotesOfOne(x: VoteResult)
    ensures NumericVotes([x]) == if !IsExcluded(x.value) && VoteNumber(x.value).Some? then [VoteNumber(x.value).value] else []
  {
    var kept := Filter(Counted, [x]);
    assert kept == if Counted(x) then [x] else [];
    var parsed := Map(Parsed, kept);
    assert Filter(IsNumber, parsed) == if Counted(x) && IsNumber(Parsed(x)) then [Parsed(x)] else [];
  }

  /** When every vote is a number, the numeric votes are those numbers, in order: nothing is dropped. */
  lemma {:induction false} NumericVotesOfNumbers(results: seq<VoteResult>)
    requires forall i :: 0 <= i < |results| ==> !IsExcluded(results[i].value) && VoteNumber(results[i].value).Some?
    ensures |NumericVotes(results)| == |results|
    ensures forall i :: 0 <= i < |results| ==> Some(NumericVotes(results)[i]) == VoteNumber(results[i].value)
  {
    if results != [] {
      var rest := results[1..];
      assert results == [results[0]] + rest;
      NumericVotesOfOne(results[0]);
      NumericVotesOfNumbers(rest);
      NumericVotesConcat([results[0]], rest);
      assert forall i :: 1 <= i < |results| ==> results[i] == rest[i - 1];
    }
  }

  /** A vote that is `?`, `coffee` or unset does not change the consensus, wherever it stands. */
  lemma IgnoresNonNumericVote(a: seq<VoteResult>, x: VoteResult, b: seq<VoteResult>)
    requires IsExcluded(x.value) || VoteNumber(x.value).None?
    ensures CalculateAverage(a + [x] + b) == CalculateAverage(a + b)
  {
    NumericVotesOfOne(x);
    assert NumericVotes(a + [x]) == NumericVotes(a) by {
      NumericVotesConcat(a, [x]);
    }
    NumericVotesConcat(a + [x], b);
    NumericVotesConcat(a, b);
  }

  /** Reordering the votes does not change the consensus. */
  lemma ConsensusPermutation(a: seq<VoteResult>, b: seq<VoteResult>)
    requires multiset(a) == multiset(b)
    ensures CalculateAverage(a) == CalculateAverage(b)
  {
    NumericVotesPermutation(a, b);
    var va, vb := NumericVotes(a), NumericVotes(b);
    assert |va| == |multiset(va)| == |multiset(vb)| == |vb|;
    SumPermutation(va, vb);
  }

  /** A single `1/2` vote counts as 0.5. */
  lemma HalfCountsAsHalf(name: string)
    ensures NumericVotes([VoteResult(name, Some(Half))]) == [0.5]
    ensures CalculateAverage([VoteResult(name, Some(Half))]) == 0.5
  {
    NumericVotesOfOne(VoteResult(name, Some(Half)));
    assert Sum([0.5]) == Sum([]) + 0.5;
    assert Nearest(FibSequence, 0.5) == 0.5;
  }

  /** 1.5 lies halfway between 1 and 2; the scan keeps the earlier 1. */
  lemma NearestToOneAndAHalf()
    ensures Nearest(FibSequence, 1.5) == 1.0
  {
  }

  lemma NearestToSixteenThirds()
    ensures Nearest(FibSequence, 16.0 / 3.0) == 5.0
  {
  }

  /** Votes 1 and 2: the mean 1.5 is as far from 1 as from 2, and the earlier 1 wins. */
  lemma ConsensusOfOneAndTwo(p: string, q: string)
    ensures CalculateAverage([VoteResult(p, Some(One)), VoteResult(q, Some(Two))]) == 1.0
  {
    var a, b := VoteResult(p, Some(One)), VoteResult(q, Some(Two));
    var votes := [1.0, 2.0];
    assert NumericVotes([a, b]) == votes by {
      VoteNumberIsPoints(One);
      VoteNumberIsPoints(Two);
      NumericVotesOfNumbers([a, b]);
    }
    assert Mean(votes) == 1.5 by {
      assert votes[..1] == [1.0];
      assert Sum([1.0]) == 1.0;
    }
    NearestToOneAndAHalf();
  }

  /** Votes 3, 5 and 8: the mean 16/3 is nearest to 5. */
  lemma ConsensusOfThreeFiveEight(p: string, q: string, r: string)
    ensures CalculateAverage([VoteResult(p, Some(Three)), VoteResult(q, Some(Five)), VoteResult(r, Some(Eight))]) == 5.0
  {
    var a, b, c := VoteResult(p, Some(Three)), VoteResult(q, Some(Five)), VoteResult(r, Some(Eight));
    var votes := [3.0, 5.0, 8.0];
    assert NumericVotes([a, b, c]) == votes by {
      VoteNumberIsPoints(Three);
      VoteNumberIsPoints(Five);
      VoteNumberIsPoints(Eight);
      NumericVotesOfNumbers([a, b, c]);
    }
    assert Mean(votes) == 16.0 / 3.0 by {
      assert votes[..2] == [3.0, 5.0];
      assert [3.0, 5.0][..1] == [3.0];
      assert Sum([3.0]) == 3.0;
      assert Sum([3.0, 5.0]) == 8.0;
      assert Sum(votes) == 16.0;
    }
    NearestToSixteenThirds();
  }

  /** Only `?` and `coffee`: no numeric vote, so 0. */
  lemma ConsensusOfNonNumericOnly(p: string, q: string)
    ensures CalculateAverage([VoteResult(p, Some(Unknown)), VoteResult(q, Some(Coffee))]) == 0.0
  {
    var a, b := VoteResult(p, Some(Unknown)), VoteResult(q, Some(Coffee));
    NumericVotesOfOne(a);
    NumericVotesOfOne(b);
    NumericVotesConcat([a], [b]);
    assert [a] + [b] == [a, b];
  }
}
