/**
 Fuel. A run that ends is the same run at every larger fuel, and a run ends whenever schema
 applications descend in some rank: for compiled schemas, whenever the edges that stay on the
 same datum form no cycle, however recursive `$ref` is through items and properties.
 */
module Termination {
  import opened Machine

  // ---------------------------------------------------------------------------------------
  // More fuel changes nothing
  // ---------------------------------------------------------------------------------------

  lemma {:induction false} ExecStable(prog: Program, fuel: nat, more: nat, steps: seq<Step>, st: State)
    requires fuel <= more && !Exec(prog, fuel, steps, st).outcome.OutOfFuel?
    ensures Exec(prog, more, steps, st) == Exec(prog, fuel, steps, st)
    decreases fuel, 3, |steps|
  {
    if steps != [] {
      StepStable(prog, fuel, more, steps[0], st);
      var r := ExecStep(prog, fuel, steps[0], st);
      if r.outcome.Finished? { ExecStable(prog, fuel, more, steps[1..], r.state); }
    }
  }

  lemma {:induction false} StepStable(prog: Program, fuel: nat, more: nat, step: Step, st: State)
    requires fuel <= more && !ExecStep(prog, fuel, step, st).outcome.OutOfFuel?
    ensures ExecStep(prog, more, step, st) == ExecStep(prog, fuel, step, st)
    decreases fuel, 2, 0
  {
    match step
    case Call(goal) => ExecStable(prog, fuel - 1, more - 1, prog.body(goal), st);
    case Probe(goals, limit, combiner) =>
      CountStable(prog, fuel, more, goals, limit, 0, st);
      var c := Count(prog, fuel, goals, limit, 0, st);
      if c.outcome.Finished? {
        match Next(combiner, c.count)
        case Reports(_) =>
        case Then(goal, _) => IsValidStable(prog, fuel, more, goal, c.state);
      }
    case _ =>
  }

  lemma {:induction false} CountStable(
    prog: Program, fuel: nat, more: nat, goals: seq<Goal>, limit: nat, count: nat, st: State)
    requires fuel <= more && !Count(prog, fuel, goals, limit, count, st).outcome.OutOfFuel?
    ensures Count(prog, more, goals, limit, count, st) == Count(prog, fuel, goals, limit, count, st)
    decreases fuel, 1, |goals|
  {
    if goals != [] && count != limit {
      IsValidStable(prog, fuel, more, goals[0], st);
      var p := IsValid(prog, fuel, goals[0], st);
      if p.outcome.Finished? {
        CountStable(prog, fuel, more, goals[1..], limit, if p.valid then count + 1 else count, p.state);
      }
    }
  }

  lemma {:induction false} IsValidStable(prog: Program, fuel: nat, more: nat, goal: Goal, st: State)
    requires fuel <= more && !IsValid(prog, fuel, goal, st).outcome.OutOfFuel?
    ensures IsValid(prog, more, goal, st) == IsValid(prog, fuel, goal, st)
    decreases fuel, 0, 0
  {
    ExecStable(prog, fuel - 1, more - 1, prog.body(goal), st.(quiet := true));
  }

  // ---------------------------------------------------------------------------------------
  // Descending programs end
  // ---------------------------------------------------------------------------------------

  /** The goals a step may start. */
  ghost predicate Starts(step: Step, goal: Goal) {
    match step
    case Call(g) => goal == g
    case Probe(goals, _, combiner) => goal in goals || exists n: nat :: NextStarts(combiner, n, goal)
    case _ => false
  }

  predicate NextStarts(combiner: Combiner, count: nat, goal: Goal) {
    var f := Next(combiner, count);
    f.Then? && f.goal == goal
  }

  ghost predicate StartsBelow(step: Step, rank: Goal -> nat, bound: nat) {
    forall goal :: Starts(step, goal) ==> rank(goal) < bound
  }

  ghost predicate AllStartBelow(steps: seq<Step>, rank: Goal -> nat, bound: nat) {
    forall s :: s in steps ==> StartsBelow(s, rank, bound)
  }

  /** Every goal only starts goals of smaller rank. */
  ghost predicate Descends(prog: Program, rank: Goal -> nat) {
    forall goal :: AllStartBelow(prog.body(goal), rank, rank(goal))
  }

  lemma {:induction false} EmitFuel(problems: seq<Problem>, st: State)
    ensures !EmitAll(problems, st).outcome.OutOfFuel?
    decreases |problems|
  {
    if problems != [] {
      var r := Emit(problems[0], st);
      if r.outcome.Finished? { EmitFuel(problems[1..], r.state); }
    }
  }

  lemma {:induction false} ExecEnds(prog: Program, rank: Goal -> nat, fuel: nat, steps: seq<Step>, st: State)
    requires Descends(prog, rank) && AllStartBelow(steps, rank, fuel)
    ensures !Exec(prog, fuel, steps, st).outcome.OutOfFuel?
    decreases fuel, 3, |steps|
  {
    if steps != [] {
      assert steps[0] in steps;
      StepEnds(prog, rank, fuel, steps[0], st);
      var r := ExecStep(prog, fuel, steps[0], st);
      if r.outcome.Finished? { ExecEnds(prog, rank, fuel, steps[1..], r.state); }
    }
  }

  lemma {:induction false} StepEnds(prog: Program, rank: Goal -> nat, fuel: nat, step: Step, st: State)
    requires Descends(prog, rank) && StartsBelow(step, rank, fuel)
    ensures !ExecStep(prog, fuel, step, st).outcome.OutOfFuel?
    decreases fuel, 2, 0
  {
    match step
    case Report(problem) => EmitFuel([problem], st);
    case Call(goal) => GoalEnds(prog, rank, fuel, goal, st);
    case Probe(goals, limit, combiner) =>
      assert forall g :: g in goals ==> Starts(step, g);
      CountEnds(prog, rank, fuel, goals, limit, 0, st);
      var c := Count(prog, fuel, goals, limit, 0, st);
      if c.outcome.Finished? {
        match Next(combiner, c.count)
        case Reports(problems) => EmitFuel(problems, c.state);
        case Then(goal, problem) =>
          assert NextStarts(combiner, c.count, goal) && Starts(step, goal);
          IsValidEnds(prog, rank, fuel, goal, c.state);
          var p := IsValid(prog, fuel, goal, c.state);
          if p.outcome.Finished? { EmitFuel(if p.valid then [] else [problem], p.state); }
      }
    case _ =>
  }

  lemma {:induction false} GoalEnds(prog: Program, rank: Goal -> nat, fuel: nat, goal: Goal, st: State)
    requires Descends(prog, rank) && rank(goal) < fuel
    ensures !Exec(prog, fuel - 1, prog.body(goal), st).outcome.OutOfFuel?
    decreases fuel, 0, 0
  {
    assert AllStartBelow(prog.body(goal), rank, rank(goal));
    assert AllStartBelow(prog.body(goal), rank, fuel - 1) by {
      forall s | s in prog.body(goal) ensures StartsBelow(s, rank, fuel - 1) {
        assert StartsBelow(s, rank, rank(goal));
      }
    }
    ExecEnds(prog, rank, fuel - 1, prog.body(goal), st);
  }

  lemma {:induction false} CountEnds(
    prog: Program, rank: Goal -> nat, fuel: nat, goals: seq<Goal>, limit: nat, count: nat, st: State)
    requires Descends(prog, rank) && forall g :: g in goals ==> rank(g) < fuel
    ensures !Count(prog, fuel, goals, limit, count, st).outcome.OutOfFuel?
    decreases fuel, 1, |goals|
  {
    if goals != [] && count != limit {
      IsValidEnds(prog, rank, fuel, goals[0], st);
      var p := IsValid(prog, fuel, goals[0], st);
      if p.outcome.Finished? {
        CountEnds(prog, rank, fuel, goals[1..], limit, if p.valid then count + 1 else count, p.state);
      }
    }
  }

  lemma {:induction false} IsValidEnds(prog: Program, rank: Goal -> nat, fuel: nat, goal: Goal, st: State)
    requires Descends(prog, rank) && rank(goal) < fuel
    ensures !IsValid(prog, fuel, goal, st).outcome.OutOfFuel?
    decreases fuel, 0, 1
  {
    GoalEnds(prog, rank, fuel, goal, st.(quiet := true));
  }
}
