/**
  The instant of a local midnight, found by correcting a guess. Times are whole seconds;
  `offset(t)` is how far the zone's wall clock is ahead of universal time at instant t, and the
  target is the wanted wall time read as if it were universal time.
*/
module ZonedMidnight {

  type Offset = int -> int

  // The wall clock at an instant, read as if it were universal time.
  function Local(offset: Offset, t: int): int {
    t + offset(t)
  }

  // The guess after n corrections.
  function Guess(offset: Offset, target: int, n: nat): int {
    if n == 0 then target else target - offset(Guess(offset, target, n - 1))
  }

  const ITERATIONS: nat := 3

  lemma {:induction false} GuessSettles(offset: Offset, target: int, n: nat, m: nat)
    requires n <= m && Local(offset, Guess(offset, target, n)) == target
    ensures Guess(offset, target, m) == Guess(offset, target, n)
  {
    if n < m {
      GuessSettles(offset, target, n, m - 1);
    }
  }

  method Find(offset: Offset, target: int) returns (guess: int)
    ensures guess == Guess(offset, target, ITERATIONS)
  {
    guess := target;
    for iteration := 0 to ITERATIONS
      invariant guess == Guess(offset, target, iteration)
    {
      var represented := guess + offset(guess);
      var correction := target - represented;
      guess := guess + correction;
      if correction == 0 {
        GuessSettles(offset, target, iteration, ITERATIONS);
        break;
      }
    }
  }

  // Within a stretch of time the offset is `before` until the change and `after` from then on.
  ghost predicate Changes(offset: Offset, from: int, to: int, change: int, before: int, after: int) {
    forall t :: from <= t <= to ==> offset(t) == if t < change then before else after
  }

  // No offset exceeds the reach.
  ghost predicate Bounded(offset: Offset, reach: int) {
    forall t :: 0 - reach <= offset(t) <= reach
  }

  ghost predicate Exists(offset: Offset, target: int) {
    exists t :: Local(offset, t) == target
  }

  // Either candidate is the answer if it lies on its own side of the change.
  lemma OnlyTwoCandidates(offset: Offset, target: int, reach: int, change: int, before: int, after: int)
    requires Bounded(offset, reach) && Changes(offset, target - reach, target + reach, change, before, after)
    ensures Exists(offset, target) <==> target - before < change || change <= target - after
  {
    assert offset(target) == if target < change then before else after;
    if Exists(offset, target) {
      var t :| Local(offset, t) == target;
      assert 0 - reach <= offset(t) <= reach;
      assert offset(t) == if t < change then before else after;
    }
    if target - before < change || change <= target - after {
      CandidateHolds(offset, target, reach, change, before, after);
    }
  }

  // A candidate may lie outside the stretch only if its offset does not occur within it.
  lemma CandidateHolds(offset: Offset, target: int, reach: int, change: int, before: int, after: int)
    requires Bounded(offset, reach) && Changes(offset, target - reach, target + reach, change, before, after)
    requires target - before < change || change <= target - after
    ensures Exists(offset, target)
  {
    var first := target - offset(target);
    assert 0 - reach <= offset(target) <= reach;
    assert offset(first) == if first < change then before else after;
    var second := target - offset(first);
    assert 0 - reach <= offset(first) <= reach;
    assert offset(second) == if second < change then before else after;
    assert Local(offset, first) == target || Local(offset, second) == target;
  }

  /** With at most one change of offset within reach of the target, the three corrections end on
      an instant whose wall time is the target exactly when there is such an instant. When the
      change skips the target, they end as far from it as the clock jumped. */
  lemma MidnightIsFound(offset: Offset, target: int, reach: int, change: int, before: int, after: int)
    requires Bounded(offset, reach) && Changes(offset, target - reach, target + reach, change, before, after)
    ensures Local(offset, Guess(offset, target, ITERATIONS)) == target <==> Exists(offset, target)
    ensures !Exists(offset, target) ==>
            Local(offset, Guess(offset, target, ITERATIONS)) - target ==
                if target < change then after - before else before - after
  {
    var g0, g1, g2, g3 := target, Guess(offset, target, 1), Guess(offset, target, 2), Guess(offset, target, 3);
    OnlyTwoCandidates(offset, target, reach, change, before, after);
    assert Guess(offset, target, 0) == target;
    assert g1 == target - offset(g0) && 0 - reach <= offset(g0) <= reach;
    assert g2 == target - offset(g1) && 0 - reach <= offset(g1) <= reach;
    assert g3 == target - offset(g2) && 0 - reach <= offset(g2) <= reach;
    assert offset(g3) == if g3 < change then before else after;
  }

  // Within a stretch of time the offset changes at most twice.
  ghost predicate ChangesTwice(offset: Offset, from: int, to: int, first: int, second: int,
                               before: int, between: int, after: int)
  {
    first <= second &&
    forall t :: from <= t <= to ==> offset(t) == if t < first then before else if t < second then between else after
  }

  // The first correction overshoots a change, and the second takes it back.
  predicate Oscillates(offset: Offset, target: int) {
    var x0 := offset(target);
    var x1 := offset(target - x0);
    x1 != x0 && offset(target - x1) == x0
  }

  /** With at most two changes of offset within reach of the target, the three corrections end
      on an instant whose wall time is the target if and only if there is one and the first two
      corrections do not undo each other. */
  lemma TwoChangesMissExactlyWhen(offset: Offset, target: int, reach: int, first: int, second: int,
                                  before: int, between: int, after: int)
    requires Bounded(offset, reach)
    requires ChangesTwice(offset, target - reach, target + reach, first, second, before, between, after)
    ensures Local(offset, Guess(offset, target, ITERATIONS)) == target <==>
            Exists(offset, target) && !Oscillates(offset, target)
  {
    var x0 := offset(target);
    var x1 := offset(target - x0);
    var x2 := offset(target - x1);
    ThirdGuess(offset, target);
    assert Oscillates(offset, target) <==> x1 != x0 && x2 == x0;
    hide Guess, Bounded, ChangesTwice, Oscillates;
    OneOfThree(offset, target, reach, first, second, before, between, after, target);
    OneOfThree(offset, target, reach, first, second, before, between, after, target - x0);
    OneOfThree(offset, target, reach, first, second, before, between, after, target - x1);
    if t :| Local(offset, t) == target {
      // A wall time that exists is a fixed point of the corrections.
      OneOfThree(offset, target, reach, first, second, before, between, after, t);
      FourCorrections(x0, x1, x2, offset(target - x2), offset(t), before, between, after);
    }
  }

  lemma ThirdGuess(offset: Offset, target: int)
    ensures var x1 := offset(target - offset(target));
            var x2 := offset(target - x1);
            Local(offset, Guess(offset, target, 3)) == target <==> offset(target - x2) == x2
  {
    assert Guess(offset, target, 0) == target && Guess(offset, target, 1) == target - offset(target);
    assert Guess(offset, target, 2) == target - offset(target - offset(target));
  }

  predicate OneOf(x: int, before: int, between: int, after: int) {
    x == before || x == between || x == after
  }

  // Three corrections among three values, one of which corrects itself.
  lemma FourCorrections(x0: int, x1: int, x2: int, x3: int, x: int, before: int, between: int, after: int)
    requires OneOf(x0, before, between, after) && OneOf(x1, before, between, after)
    requires OneOf(x2, before, between, after) && OneOf(x, before, between, after)
    requires (x0 == x1 ==> x1 == x2) && (x1 == x2 ==> x2 == x3) && (x0 == x2 ==> x1 == x3)
    requires (x == x0 ==> x1 == x) && (x == x1 ==> x2 == x) && (x == x2 ==> x3 == x)
    ensures x3 == x2 <==> !(x1 != x0 && x2 == x0)
  {
  }

  // Within reach of the target, and in particular at a correction of it, there are three offsets.
  lemma OneOfThree(offset: Offset, target: int, reach: int, first: int, second: int,
                   before: int, between: int, after: int, t: int)
    requires Bounded(offset, reach)
    requires ChangesTwice(offset, target - reach, target + reach, first, second, before, between, after)
    requires t == target || exists x: int :: t == target - offset(x)
    ensures OneOf(offset(t), before, between, after)
  {
    assert 0 - reach <= offset(target) <= reach;
    if t != target {
      var x: int :| t == target - offset(x);
      assert 0 - reach <= offset(x) <= reach;
    }
    assert target - reach <= t <= target + reach;
  }

  /** It happens: a zone with two changes whose midnight exists and is missed. */
  lemma TwoChangesCanMiss() returns (offset: Offset)
    ensures Bounded(offset, 10) && ChangesTwice(offset, -10, 10, -5, 0, 10, 0, 1)
    ensures Exists(offset, 0) && Oscillates(offset, 0)
    ensures Local(offset, Guess(offset, 0, ITERATIONS)) != 0
  {
    offset := (t: int) => if t < -5 then 10 else if t < 0 then 0 else 1;
    assert Local(offset, -10) == 0;
    TwoChangesMissExactlyWhen(offset, 0, 10, -5, 0, 10, 0, 1);
  }
}
