/**
 * The generator `getDrinksByMostAlc` and the grouping of its output, which backend/service/tipsiness.ts,
 * backend/services.ts and backend/api/services.ts each define with the same text.
 *
 * A drink is its index in the pool, so two drinks are the same exactly when they are the same
 * entry, as with the source's `Map` keyed by drink objects. `vols[i]` is the `alcoholVolume` of
 * drink `i`. `Math.random()` is a stream: `draw(k)` is the value of its `k`-th call.
 */
module DrinkSelection {

  /** The most often a drink may be repeated; the first pass makes `MaxRepetition - 2` attempts. */
  const MaxRepetition: nat := 4
  /** A draw below this skips an attempt. */
  const SkipProbability: real := 0.9

  /** The generator's local state: the volume so far, the drinks yielded, the draws taken. */
  datatype Progress = Progress(sum: real, emitted: seq<nat>, draws: nat)

  function Abs(x: real): real {
    if x < 0.0 then -x else x
  }

  /** The total volume of the drinks in `e`, repetitions included. */
  function Volume(vols: seq<real>, e: seq<nat>): real
    requires forall x :: x in e ==> x < |vols|
    decreases |e|
  {
    if e == [] then 0.0
    else
      PrefixMembers(e, |e| - 1);
      assert e[|e| - 1] in e;
      Volume(vols, e[..|e| - 1]) + vols[e[|e| - 1]]
  }

  lemma PrefixMembers(e: seq<nat>, n: nat)
    requires n <= |e|
    ensures forall x :: x in e[..n] ==> x in e
  {
    forall x | x in e[..n] ensures x in e {
      var k :| 0 <= k < n && e[..n][k] == x;
      assert e[k] == x;
    }
  }

  /** The volume so far is the volume of the drinks yielded so far. */
  ghost predicate Consistent(vols: seq<real>, p: Progress) {
    (forall x :: x in p.emitted ==> x < |vols|) && p.sum == Volume(vols, p.emitted)
  }

  lemma ConsistentAppend(vols: seq<real>, p: Progress, i: nat, draws: nat)
    requires i < |vols|
    ensures Consistent(vols, p) ==> Consistent(vols, Progress(p.sum + vols[i], p.emitted + [i], draws))
  {
    assert (p.emitted + [i])[..|p.emitted|] == p.emitted;
  }

  /**
   * The repetition loop of the first pass for drink `i`, from attempt `amount` on: each attempt
   * takes a draw; a draw below 0.9 skips the attempt; one that would exceed the target abandons
   * the drink's remaining attempts; otherwise the drink is yielded.
   */
  function Attempt(target: real, vols: seq<real>, i: nat, amount: nat, p: Progress, draw: nat -> real): (r: Progress)
    requires i < |vols| && amount <= MaxRepetition - 2
    ensures forall x :: x in r.emitted ==> x in p.emitted || x == i
    ensures r.draws >= p.draws
    decreases MaxRepetition - 2 - amount
  {
    if amount == MaxRepetition - 2 then p
    else if draw(p.draws) < SkipProbability then
      Attempt(target, vols, i, amount + 1, p.(draws := p.draws + 1), draw)
    else if p.sum + vols[i] > target then
      p.(draws := p.draws + 1)
    else
      Attempt(target, vols, i, amount + 1, Progress(p.sum + vols[i], p.emitted + [i], p.draws + 1), draw)
  }

  /** The attempts keep the running volume equal to the volume yielded. */
  lemma {:induction false} AttemptConsistent(target: real, vols: seq<real>, i: nat, amount: nat, p: Progress, draw: nat -> real)
    requires i < |vols| && amount <= MaxRepetition - 2
    requires Consistent(vols, p)
    ensures Consistent(vols, Attempt(target, vols, i, amount, p, draw))
    decreases MaxRepetition - 2 - amount
  {
    if amount < MaxRepetition - 2 {
      if draw(p.draws) < SkipProbability {
        var q := p.(draws := p.draws + 1);
        AttemptConsistent(target, vols, i, amount + 1, q, draw);
      } else if p.sum + vols[i] <= target {
        var q := Progress(p.sum + vols[i], p.emitted + [i], p.draws + 1);
        ConsistentAppend(vols, p, i, p.draws + 1);
        AttemptConsistent(target, vols, i, amount + 1, q, draw);
      } else {
      }
    }
  }

  /** The attempts never take the running volume above the target. */
  lemma {:induction false} AttemptWithinTarget(target: real, vols: seq<real>, i: nat, amount: nat, p: Progress, draw: nat -> real)
    requires i < |vols| && amount <= MaxRepetition - 2
    requires p.sum <= target
    ensures Attempt(target, vols, i, amount, p, draw).sum <= target
    decreases MaxRepetition - 2 - amount
  {
    if amount < MaxRepetition - 2 {
      var r := Attempt(target, vols, i, amount, p, draw);
      if draw(p.draws) < SkipProbability {
        var q := p.(draws := p.draws + 1);
        AttemptWithinTarget(target, vols, i, amount + 1, q, draw);
        assert r == Attempt(target, vols, i, amount + 1, q, draw);
      } else if p.sum + vols[i] <= target {
        var q := Progress(p.sum + vols[i], p.emitted + [i], p.draws + 1);
        AttemptWithinTarget(target, vols, i, amount + 1, q, draw);
        assert r == Attempt(target, vols, i, amount + 1, q, draw);
      } else {
        assert r == p.(draws := p.draws + 1);
      }
    }
  }

  /**
   * The first pass over the first `n` drinks: the repetition loop for each in turn, the state
   * passed from one drink to the next.
   */
  function FirstPass(target: real, vols: seq<real>, n: nat, draw: nat -> real): (r: Progress)
    requires n <= |vols|
    ensures forall x :: x in r.emitted ==> x < n
    decreases n
  {
    if n == 0 then Progress(0.0, [], 0)
    else
      Attempt(target, vols, n - 1, 0, FirstPass(target, vols, n - 1, draw), draw)
  }

  /** The first pass's volume is the volume it yields, and with a non-negative target it stays within the target. */
  lemma {:induction false} FirstPassVolume(target: real, vols: seq<real>, n: nat, draw: nat -> real)
    requires n <= |vols|
    ensures Consistent(vols, FirstPass(target, vols, n, draw))
    ensures 0.0 <= target ==> FirstPass(target, vols, n, draw).sum <= target
    decreases n
  {
    if n > 0 {
      FirstPassVolume(target, vols, n - 1, draw);
      var p := FirstPass(target, vols, n - 1, draw);
      AttemptConsistent(target, vols, n - 1, 0, p, draw);
      if 0.0 <= target {
        AttemptWithinTarget(target, vols, n - 1, 0, p, draw);
      }
    }
  }

  /** One visit of the second pass: drink `i` is yielded when it keeps the volume within the target. */
  function Visit(target: real, vols: seq<real>, i: nat, q: Progress): (r: Progress)
    requires i < |vols|
    ensures r.emitted == q.emitted || r.emitted == q.emitted + [i]
    ensures Consistent(vols, q) ==> Consistent(vols, r)
    ensures q.sum <= target ==> r.sum <= target
    ensures r.draws == q.draws
  {
    if q.sum + vols[i] > target then q
    else
      ConsistentAppend(vols, q, i, q.draws);
      Progress(q.sum + vols[i], q.emitted + [i], q.draws)
  }

  /**
   * The second pass over the first `n` drinks, starting from `p`: each drink is visited once, in
   * order, and yielded when it keeps the volume within the target.
   */
  function SecondPass(target: real, vols: seq<real>, n: nat, p: Progress): (r: Progress)
    requires n <= |vols|
    ensures |p.emitted| <= |r.emitted| && r.emitted[..|p.emitted|] == p.emitted
    ensures forall a, b :: |p.emitted| <= a < b < |r.emitted| ==> r.emitted[a] < r.emitted[b]
    ensures forall k :: |p.emitted| <= k < |r.emitted| ==> r.emitted[k] < n
    ensures Consistent(vols, p) ==> Consistent(vols, r)
    ensures p.sum <= target ==> r.sum <= target
    ensures r.draws == p.draws
    decreases n
  {
    if n == 0 then p
    else
      var q := SecondPass(target, vols, n - 1, p);
      var r := Visit(target, vols, n - 1, q);
      AppendAfterPrefix(p.emitted, q.emitted, n, r.emitted);
      r
  }

  /**
   * `r` is `e`, perhaps with `n - 1` appended, where the elements of `e` after the prefix `pre`
   * are increasing and below `n - 1`.
   */
  lemma AppendAfterPrefix(pre: seq<nat>, e: seq<nat>, n: nat, r: seq<nat>)
    requires n > 0 && |pre| <= |e| && e[..|pre|] == pre && (r == e || r == e + [n - 1])
    requires forall a, b :: |pre| <= a < b < |e| ==> e[a] < e[b]
    requires forall k :: |pre| <= k < |e| ==> e[k] < n - 1
    ensures |pre| <= |r| && r[..|pre|] == pre
    ensures forall a, b :: |pre| <= a < b < |r| ==> r[a] < r[b]
    ensures forall k :: |pre| <= k < |r| ==> r[k] < n
  {
    if r != e {
      assert r[..|pre|] == e[..|pre|];
      assert forall k :: 0 <= k < |e| ==> r[k] == e[k];
    }
  }

  /** The state after the first two passes. */
  function BeforeThirdPass(target: real, vols: seq<real>, draw: nat -> real): Progress {
    SecondPass(target, vols, |vols|, FirstPass(target, vols, |vols|, draw))
  }

  /**
   * The third pass: the last drink of the pool (whatever its volume) is yielded once more when
   * overshooting with it lands nearer the target than the remaining gap.
   */
  predicate ThirdPass(target: real, vols: seq<real>, sum: real) {
    |vols| > 0 && Abs(target - sum - vols[|vols| - 1]) < target - sum
  }

  /** Everything `getDrinksByMostAlc(target, drinks)` yields, in order. */
  function Selection(target: real, vols: seq<real>, draw: nat -> real): (r: seq<nat>)
    ensures forall k :: 0 <= k < |r| ==> r[k] < |vols|
    ensures |vols| == 0 ==> r == []
  {
    FirstPassVolume(target, vols, |vols|, draw);
    var p := BeforeThirdPass(target, vols, draw);
    assert Consistent(vols, p);
    assert forall k :: 0 <= k < |p.emitted| ==> p.emitted[k] in p.emitted;
    if ThirdPass(target, vols, p.sum) then p.emitted + [|vols| - 1] else p.emitted
  }

  /** The generator, run to completion. */
  method GetDrinksByMostAlc(target: real, vols: seq<real>, draw: nat -> real) returns (emitted: seq<nat>)
    ensures emitted == Selection(target, vols, draw)
  {
    var first := RunFirstPass(target, vols, draw);
    var second := RunSecondPass(target, vols, first);
    var sum := second.sum;
    emitted := second.emitted;
    // Third pass.
    if |vols| > 0 && Abs(target - sum - vols[|vols| - 1]) < target - sum {
      emitted := emitted + [|vols| - 1];
    }
  }

  /** The first pass of the generator; leaving the repetition loop early is `continue first_pass`. */
  method RunFirstPass(target: real, vols: seq<real>, draw: nat -> real) returns (p: Progress)
    ensures p == FirstPass(target, vols, |vols|, draw)
  {
    var sum := 0.0;
    var draws: nat := 0;
    var emitted: seq<nat> := [];
    for i := 0 to |vols|
      invariant Progress(sum, emitted, draws) == FirstPass(target, vols, i, draw)
    {
      var next := RunAttempts(target, vols, i, Progress(sum, emitted, draws), draw);
      sum, emitted, draws := next.sum, next.emitted, next.draws;
    }
    p := Progress(sum, emitted, draws);
  }

  /**
   * The repetition loop of the first pass for drink `i`: `continue repetition` skips an attempt,
   * and leaving the loop early is `continue first_pass`.
   */
  method RunAttempts(target: real, vols: seq<real>, i: nat, start: Progress, draw: nat -> real) returns (p: Progress)
    requires i < |vols|
    ensures p == Attempt(target, vols, i, 0, start, draw)
  {
    var sum := start.sum;
    var emitted := start.emitted;
    var draws := start.draws;
    for amount := 0 to MaxRepetition - 2
      invariant Attempt(target, vols, i, amount, Progress(sum, emitted, draws), draw) == Attempt(target, vols, i, 0, start, draw)
    {
      var random := draw(draws);
      draws := draws + 1;
      if random < SkipProbability {
        continue;
      }
      if sum + vols[i] > target {
        break;
      }
      emitted := emitted + [i];
      sum := sum + vols[i];
    }
    p := Progress(sum, emitted, draws);
  }

  /** The second pass of the generator, continuing from the first. */
  method RunSecondPass(target: real, vols: seq<real>, first: Progress) returns (p: Progress)
    ensures p == SecondPass(target, vols, |vols|, first)
  {
    var sum := first.sum;
    var emitted: seq<nat> := first.emitted;
    for i := 0 to |vols|
      invariant Progress(sum, emitted, first.draws) == SecondPass(target, vols, i, first)
    {
      if sum + vols[i] > target {
        continue;
      }
      emitted := emitted + [i];
      sum := sum + vols[i];
    }
    p := Progress(sum, emitted, first.draws);
  }

  /**
   * With a non-negative target the first two passes never exceed it, and the volume they reach
   * is the volume of what they yield.
   */
  lemma BeforeThirdPassWithinTarget(target: real, vols: seq<real>, draw: nat -> real)
    requires 0.0 <= target
    ensures BeforeThirdPass(target, vols, draw).sum <= target
    ensures Consistent(vols, BeforeThirdPass(target, vols, draw))
  {
    FirstPassVolume(target, vols, |vols|, draw);
  }

  /** The attempts for drink `i` yield no other drink. */
  lemma {:induction false} AttemptOthers(target: real, vols: seq<real>, i: nat, amount: nat, p: Progress, draw: nat -> real, j: nat)
    requires i < |vols| && amount <= MaxRepetition - 2 && j != i
    ensures Count(Attempt(target, vols, i, amount, p, draw).emitted, j) == Count(p.emitted, j)
    decreases MaxRepetition - 2 - amount
  {
    if amount < MaxRepetition - 2 {
      var r := Attempt(target, vols, i, amount, p, draw);
      if draw(p.draws) < SkipProbability {
        var q := p.(draws := p.draws + 1);
        AttemptOthers(target, vols, i, amount + 1, q, draw, j);
        assert r == Attempt(target, vols, i, amount + 1, q, draw);
      } else if p.sum + vols[i] <= target {
        var q := Progress(p.sum + vols[i], p.emitted + [i], p.draws + 1);
        CountAppend(p.emitted, i, j);
        AttemptOthers(target, vols, i, amount + 1, q, draw, j);
        assert r == Attempt(target, vols, i, amount + 1, q, draw);
      } else {
        assert r.emitted == p.emitted;
      }
    }
  }

  /** The attempts for drink `i` yield it once per remaining attempt at most. */
  lemma {:induction false} AttemptOwn(target: real, vols: seq<real>, i: nat, amount: nat, p: Progress, draw: nat -> real)
    requires i < |vols| && amount <= MaxRepetition - 2
    ensures Count(Attempt(target, vols, i, amount, p, draw).emitted, i) <= Count(p.emitted, i) + (MaxRepetition - 2 - amount)
    decreases MaxRepetition - 2 - amount, 1
  {
    if amount < MaxRepetition - 2 {
      if draw(p.draws) < SkipProbability {
        AttemptOwnSkip(target, vols, i, amount, p, draw);
      } else if p.sum + vols[i] <= target {
        AttemptOwnYield(target, vols, i, amount, p, draw);
      }
    }
  }

  /** A skipped attempt leaves the count to the remaining attempts. */
  lemma {:induction false} AttemptOwnSkip(target: real, vols: seq<real>, i: nat, amount: nat, p: Progress, draw: nat -> real)
    requires i < |vols| && amount < MaxRepetition - 2 && draw(p.draws) < SkipProbability
    ensures Count(Attempt(target, vols, i, amount, p, draw).emitted, i) <= Count(p.emitted, i) + (MaxRepetition - 2 - amount)
    decreases MaxRepetition - 2 - amount, 0
  {
    AttemptOwn(target, vols, i, amount + 1, p.(draws := p.draws + 1), draw);
  }

  /** A yielding attempt adds one to the count and leaves the rest to the remaining attempts. */
  lemma {:induction false} AttemptOwnYield(target: real, vols: seq<real>, i: nat, amount: nat, p: Progress, draw: nat -> real)
    requires i < |vols| && amount < MaxRepetition - 2
    requires SkipProbability <= draw(p.draws) && p.sum + vols[i] <= target
    ensures Count(Attempt(target, vols, i, amount, p, draw).emitted, i) <= Count(p.emitted, i) + (MaxRepetition - 2 - amount)
    decreases MaxRepetition - 2 - amount, 0
  {
    var q := Progress(p.sum + vols[i], p.emitted + [i], p.draws + 1);
    CountAppend(p.emitted, i, i);
    AttemptOwn(target, vols, i, amount + 1, q, draw);
  }

  /** One drink's attempts add at most two yields of that drink, and none of any other. */
  lemma AttemptAtMostTwice(target: real, vols: seq<real>, i: nat, p: Progress, draw: nat -> real, j: nat)
    requires i < |vols|
    requires j == i ==> j !in p.emitted
    requires Count(p.emitted, j) <= MaxRepetition - 2
    ensures Count(Attempt(target, vols, i, 0, p, draw).emitted, j) <= MaxRepetition - 2
  {
    if j == i {
      AttemptOwn(target, vols, i, 0, p, draw);
    } else {
      AttemptOthers(target, vols, i, 0, p, draw, j);
    }
  }

  /** No drink is yielded more than twice by the first pass. */
  lemma {:induction false} FirstPassAtMostTwice(target: real, vols: seq<real>, n: nat, draw: nat -> real, j: nat)
    requires n <= |vols|
    ensures Count(FirstPass(target, vols, n, draw).emitted, j) <= MaxRepetition - 2
    decreases n, 1
  {
    if n > 0 {
      FirstPassStepAtMostTwice(target, vols, n, draw, j);
    }
  }

  /** The attempts for drink `n - 1` keep every count of the first `n - 1` drinks' pass within the bound. */
  lemma {:induction false} FirstPassStepAtMostTwice(target: real, vols: seq<real>, n: nat, draw: nat -> real, j: nat)
    requires 0 < n <= |vols|
    ensures Count(FirstPass(target, vols, n, draw).emitted, j) <= MaxRepetition - 2
    decreases n, 0
  {
    var p := FirstPass(target, vols, n - 1, draw);
    FirstPassAtMostTwice(target, vols, n - 1, draw, j);
    assert n - 1 !in p.emitted;
    AttemptAtMostTwice(target, vols, n - 1, p, draw, j);
  }

  /** The second pass yields each drink at most once, in pool order. */
  lemma SecondPassInOrder(target: real, vols: seq<real>, draw: nat -> real)
    ensures var first := FirstPass(target, vols, |vols|, draw);
      var all := BeforeThirdPass(target, vols, draw).emitted;
      && all[..|first.emitted|] == first.emitted
      && forall a, b :: |first.emitted| <= a < b < |all| ==> all[a] < all[b]
  {
  }

  /**
   * The third pass yields the last drink exactly when overshooting with it is nearer the target
   * than the gap; the final volume is then strictly nearer the target and at most the target
   * plus that drink's volume, and the drink's volume lies strictly between 0 and twice the gap.
   */
  lemma ThirdPassCloser(target: real, vols: seq<real>, draw: nat -> real)
    requires 0.0 <= target
    ensures var p := BeforeThirdPass(target, vols, draw);
      var r := Selection(target, vols, draw);
      && (ThirdPass(target, vols, p.sum) ==>
            && r == p.emitted + [|vols| - 1]
            && Volume(vols, r) == p.sum + vols[|vols| - 1]
            && Abs(target - Volume(vols, r)) < Abs(target - p.sum)
            && Volume(vols, r) <= target + vols[|vols| - 1]
            && 0.0 < vols[|vols| - 1] < 2.0 * (target - p.sum))
      && (!ThirdPass(target, vols, p.sum) ==> r == p.emitted && Volume(vols, r) <= target)
  {
    var p := BeforeThirdPass(target, vols, draw);
    BeforeThirdPassWithinTarget(target, vols, draw);
    if ThirdPass(target, vols, p.sum) {
      var r := p.emitted + [|vols| - 1];
      assert r[..|r| - 1] == p.emitted;
      assert Volume(vols, r) == p.sum + vols[|vols| - 1];
      Overshoot(target, p.sum, vols[|vols| - 1]);
    }
  }

  lemma Overshoot(target: real, sum: real, v: real)
    requires sum <= target && Abs(target - sum - v) < target - sum
    ensures Abs(target - (sum + v)) < Abs(target - sum)
    ensures sum + v <= target + v
    ensures 0.0 < v < 2.0 * (target - sum)
  {
  }

  /** An empty pool yields nothing. */
  lemma EmptyPoolYieldsNothing(target: real, draw: nat -> real)
    ensures Selection(target, [], draw) == []
  {
  }

  // ---------------------------------------------------------------------------------------
  // Grouping: `drinkAmount.set(drink, (drinkAmount.get(drink) ?? 0) + 1)`, then the map's entries.

  /** How often `d` occurs in `e`. */
  function Count(e: seq<nat>, d: nat): (c: nat)
  {
    multiset(e)[d]
  }

  lemma CountAppend(e: seq<nat>, x: nat, d: nat)
    ensures Count(e + [x], d) == Count(e, d) + (if x == d then 1 else 0)
  {
    assert multiset(e + [x]) == multiset(e) + multiset{x};
  }

  /** The distinct elements of `e` in the order of their first occurrence (the `Map`'s key order). */
  function FirstOccurrences(e: seq<nat>): (r: seq<nat>)
    ensures forall x :: x in r <==> x in e
    decreases |e|
  {
    if e == [] then []
    else
      var prefix := FirstOccurrences(e[..|e| - 1]);
      assert e == e[..|e| - 1] + [e[|e| - 1]];
      if e[|e| - 1] in e[..|e| - 1] then prefix else prefix + [e[|e| - 1]]
  }

  predicate Distinct(s: seq<nat>) {
    forall a, b :: 0 <= a < b < |s| ==> s[a] != s[b]
  }

  /** One entry of the grouped result: a drink and how often it was yielded. */
  datatype Entry = Entry(drink: nat, amount: nat)

  /** The grouped result: one entry per distinct drink, in first-yield order, with its count. */
  function Grouped(e: seq<nat>): seq<Entry> {
    var keys := FirstOccurrences(e);
    seq(|keys|, k requires 0 <= k < |keys| => Entry(keys[k], Count(e, keys[k])))
  }

  /** After the first `i` yields, `order` holds their drinks in first-yield order and `amounts` their counts. */
  ghost predicate GroupedSoFar(e: seq<nat>, i: nat, amounts: map<nat, nat>, order: seq<nat>)
    requires i <= |e|
  {
    && order == FirstOccurrences(e[..i])
    && (forall d :: d in amounts <==> d in e[..i])
    && (forall d :: d in amounts ==> amounts[d] == Count(e[..i], d))
  }

  /** One step of the grouping loop keeps `GroupedSoFar`. */
  lemma GroupStep(e: seq<nat>, i: nat, amounts: map<nat, nat>, order: seq<nat>)
    requires i < |e| && GroupedSoFar(e, i, amounts, order)
    ensures var previous := if e[i] in amounts then amounts[e[i]] else 0;
      GroupedSoFar(e, i + 1, amounts[e[i] := previous + 1], if e[i] in amounts then order else order + [e[i]])
  {
    assert e[..i + 1] == e[..i] + [e[i]];
    forall d ensures Count(e[..i + 1], d) == Count(e[..i], d) + (if e[i] == d then 1 else 0) {
      CountAppend(e[..i], e[i], d);
    }
  }

  method GroupByDrink(e: seq<nat>) returns (entries: seq<Entry>)
    ensures entries == Grouped(e)
  {
    var amounts: map<nat, nat> := map[];
    var order: seq<nat> := [];
    for i := 0 to |e|
      invariant GroupedSoFar(e, i, amounts, order)
    {
      GroupStep(e, i, amounts, order);
      var drink := e[i];
      var previous := if drink in amounts then amounts[drink] else 0;
      if drink !in amounts {
        order := order + [drink];
      }
      amounts := amounts[drink := previous + 1];
    }
    assert e[..|e|] == e;
    entries := seq(|order|, k requires 0 <= k < |order| => Entry(order[k], amounts[order[k]]));
  }

  lemma {:induction false} FirstOccurrencesDistinct(e: seq<nat>)
    ensures Distinct(FirstOccurrences(e))
    decreases |e|
  {
    if e != [] {
      FirstOccurrencesDistinct(e[..|e| - 1]);
    }
  }

  /** `Σ_k Count(e, ds[k])`. */
  function SumCounts(ds: seq<nat>, e: seq<nat>): nat
    decreases |ds|
  {
    if ds == [] then 0 else SumCounts(ds[..|ds| - 1], e) + Count(e, ds[|ds| - 1])
  }

  lemma {:induction false} SumCountsStep(ds: seq<nat>, e: seq<nat>, x: nat)
    requires Distinct(ds)
    ensures SumCounts(ds, e + [x]) == SumCounts(ds, e) + (if x in ds then 1 else 0)
    decreases |ds|
  {
    assert (e + [x])[..|e|] == e;
    if ds != [] {
      var prefix := ds[..|ds| - 1];
      assert ds == prefix + [ds[|ds| - 1]];
      assert ds[|ds| - 1] !in prefix;
      SumCountsStep(prefix, e, x);
    }
  }

  lemma {:induction false} SumCountsAppend(ds: seq<nat>, d: nat, e: seq<nat>)
    ensures SumCounts(ds + [d], e) == SumCounts(ds, e) + Count(e, d)
  {
    assert (ds + [d])[..|ds|] == ds;
  }

  /** The counts of the grouped result add up to the number of drinks yielded. */
  lemma {:induction false} GroupedTotal(e: seq<nat>)
    ensures SumCounts(FirstOccurrences(e), e) == |e|
    decreases |e|
  {
    if e != [] {
      var prefix := e[..|e| - 1];
      var x := e[|e| - 1];
      assert e == prefix + [x];
      GroupedTotal(prefix);
      FirstOccurrencesDistinct(prefix);
      SumCountsStep(FirstOccurrences(prefix), prefix, x);
      if x !in prefix {
        SumCountsAppend(FirstOccurrences(prefix), x, e);
        assert Count(e, x) == Count(prefix, x) + 1;
      }
    }
  }

  /**
   * The grouped result has one entry per distinct drink yielded, whose amount is the number of
   * times it was yielded; the amounts add up to the number of drinks yielded.
   */
  lemma GroupedEntries(e: seq<nat>)
    ensures forall a, b :: 0 <= a < b < |Grouped(e)| ==> Grouped(e)[a].drink != Grouped(e)[b].drink
    ensures forall d :: d in e <==> d in FirstOccurrences(e)
    ensures forall k :: 0 <= k < |Grouped(e)| ==> Grouped(e)[k].amount == Count(e, Grouped(e)[k].drink) > 0
    ensures SumCounts(FirstOccurrences(e), e) == |e|
  {
    FirstOccurrencesDistinct(e);
    GroupedTotal(e);
    var keys := FirstOccurrences(e);
    forall k | 0 <= k < |Grouped(e)| ensures Grouped(e)[k].amount > 0 {
      assert keys[k] in keys;
    }
  }
}
