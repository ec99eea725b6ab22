/**
 * The goal and move-budget progression. Before each line of a move the
 * engine looks at the highest tile on the board: reaching a milestone raises
 * the goal to the next one, and the first time a milestone is reached the
 * engine's move budget `rm` is set to that milestone's bonus.
 */
module Progression {
  import opened Adjacency

  /** The goal shown to the player, the engine's move budget and the milestone whose bonus is still to come. */
  datatype Progress = Progress(goal: int, rm: int, nextGoal: int)

  /** The milestones, in the order they are reached; the last is only ever a goal. */
  const Milestones: seq<int> := [89, 144, 233, 377, 610, 987]

  /** The move budget granted on first reaching each milestone but the last. */
  const Bonuses: seq<int> := [61, 1001, 101, 201, 351]

  /** The state a new engine starts in. */
  const Initial := Progress(89, 130, 89)

  /** The state reset() returns to; the budget differs from the initial one. */
  const AfterReset := Progress(89, 131, 89)

  /** The milestone switch of a move, run with the highest tile value on the board. */
  function Milestone(reached: int, p: Progress): (r: Progress) {
    match reached
    case 89 => Progress(144, if p.nextGoal == 89 then 61 else p.rm, if p.nextGoal == 89 then 144 else p.nextGoal)
    case 144 => Progress(233, if p.nextGoal == 144 then 1001 else p.rm, if p.nextGoal == 144 then 233 else p.nextGoal)
    case 233 => Progress(377, if p.nextGoal == 233 then 101 else p.rm, if p.nextGoal == 233 then 377 else p.nextGoal)
    case 377 => Progress(610, if p.nextGoal == 377 then 201 else p.rm, if p.nextGoal == 377 then 610 else p.nextGoal)
    case 610 => Progress(987, if p.nextGoal == 610 then 351 else p.rm, if p.nextGoal == 610 then 987 else p.nextGoal)
    case _ => Progress(89, p.rm, p.nextGoal)
  }

  /** The values the progression's fields take. */
  predicate ValidProgress(p: Progress) {
    && p.goal in Milestones
    && p.nextGoal in Milestones
    && (p.rm in {130, 131} || p.rm in Bonuses)
  }

  /** The milestones are Fibonacci numbers: consecutive table entries, and the last is the sum of the two before it. */
  lemma MilestonesAreFibonacci()
    ensures forall k :: 0 <= k < 5 ==> Milestones[k] == FibTable[10 + k]
    ensures Milestones[5] == Milestones[3] + Milestones[4]
  {
  }

  /**
   * Reaching milestone k sets the goal to milestone k + 1, and grants bonus k
   * exactly when milestone k is the one still to come, which then moves on to
   * milestone k + 1; any other highest tile sets the goal back to 89 and
   * leaves the rest alone.
   */
  lemma MilestoneSpec(reached: int, p: Progress)
    ensures forall k :: 0 <= k < 5 && reached == Milestones[k] ==>
      && Milestone(reached, p).goal == Milestones[k + 1]
      && (p.nextGoal == reached ==> Milestone(reached, p) == Progress(Milestones[k + 1], Bonuses[k], Milestones[k + 1]))
      && (p.nextGoal != reached ==> Milestone(reached, p) == p.(goal := Milestones[k + 1]))
    ensures reached !in Milestones[..5] ==> Milestone(reached, p) == p.(goal := 89)
  {
    assert Milestones[..5] == [89, 144, 233, 377, 610];
  }

  /** The switch keeps the fields within their values. */
  lemma MilestoneValid(reached: int, p: Progress)
    requires ValidProgress(p)
    ensures ValidProgress(Milestone(reached, p))
  {
    assert 144 == Milestones[1] && 233 == Milestones[2] && 377 == Milestones[3];
    assert 610 == Milestones[4] && 987 == Milestones[5] && 89 == Milestones[0];
    if reached == 89 {
      assert 61 == Bonuses[0];
    } else if reached == 144 {
      assert 1001 == Bonuses[1];
    } else if reached == 233 {
      assert 101 == Bonuses[2];
    } else if reached == 377 {
      assert 201 == Bonuses[3];
    } else if reached == 610 {
      assert 351 == Bonuses[4];
    }
  }

  /** The milestone still to come never goes back, and the budget changes only when it moves on. */
  lemma MilestoneAdvances(reached: int, p: Progress)
    ensures Milestone(reached, p).nextGoal >= p.nextGoal
    ensures Milestone(reached, p).nextGoal != p.nextGoal <==> reached == p.nextGoal && reached in Milestones[..5]
    ensures Milestone(reached, p).rm != p.rm ==> Milestone(reached, p).nextGoal != p.nextGoal
  {
    assert Milestones[..5] == [89, 144, 233, 377, 610];
  }

  /** Running the switch twice with the same highest tile does what running it once does. */
  lemma MilestoneIdempotent(reached: int, p: Progress)
    ensures Milestone(reached, Milestone(reached, p)) == Milestone(reached, p)
  {
  }

  /** The goal is not monotone: once the highest tile passes 610, the goal falls back to 89. */
  lemma GoalFallsBack(p: Progress)
    ensures Milestone(610, p).goal == 987
    ensures Milestone(987, Milestone(610, p)).goal == 89
  {
  }

  /** How many runs of the sequence grant the bonus of milestone `g`. */
  function BonusesGranted(p: Progress, reached: seq<int>, g: int): (r: nat)
    decreases |reached|
  {
    if reached == [] then 0
    else
      (if p.nextGoal == g && Milestone(reached[0], p).nextGoal != g then 1 else 0)
      + BonusesGranted(Milestone(reached[0], p), reached[1..], g)
  }

  /** Once past milestone `g`, a run never grants its bonus. */
  lemma {:induction false} NoBonusOncePast(p: Progress, reached: seq<int>, g: int)
    requires p.nextGoal > g
    ensures BonusesGranted(p, reached, g) == 0
    decreases |reached|
  {
    if reached != [] {
      MilestoneAdvances(reached[0], p);
      NoBonusOncePast(Milestone(reached[0], p), reached[1..], g);
    }
  }

  /** Each milestone's bonus is granted at most once, however the highest tile evolves. */
  lemma {:induction false} BonusAtMostOnce(p: Progress, reached: seq<int>, g: int)
    ensures BonusesGranted(p, reached, g) <= 1
    decreases |reached|
  {
    if reached != [] {
      var next := Milestone(reached[0], p);
      MilestoneAdvances(reached[0], p);
      if p.nextGoal == g && next.nextGoal != g {
        NoBonusOncePast(next, reached[1..], g);
      } else {
        BonusAtMostOnce(next, reached[1..], g);
      }
    }
  }
}
