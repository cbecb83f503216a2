/** What steps mean, and that a short-circuiting run decides it. */
module Meaning {
  import opened Values
  import opened Machine
  import opened Laws
  import opened Counting

  /** A step under which a run neither throws nor reports, given which goals are met. */
  ghost predicate StepHolds(met: Goal -> bool, step: Step) {
    match step
    case Report(_) => false
    case Crash(_) => false
    case Call(goal) => met(goal)
    case Probe(goals, limit, combiner) =>
      (match Next(combiner, Least(limit, Tally(met, goals)))
       case Reports(problems) => problems == []
       case Then(goal, _) => met(goal))
    case _ => true
  }

  ghost predicate AllHold(met: Goal -> bool, steps: seq<Step>) {
    forall s :: s in steps ==> StepHolds(met, s)
  }

  /** Which goals are met, by how deep schema applications may still nest. */
  type Family = nat -> (Goal -> bool)

  /** Nothing is met at depth zero; a goal is met when its steps hold one level further in. */
  ghost predicate Explains(meets: Family, prog: Program) {
    forall fuel: nat, goal ::
      meets(fuel)(goal) <==> fuel > 0 && AllHold(meets(fuel - 1), prog.body(goal))
  }

  predicate Ended(outcome: Outcome) { outcome.Finished? || outcome.Thrown? }

  lemma EmitQuiet(problems: seq<Problem>, st: State)
    requires st.quiet
    ensures EmitAll(problems, st) == Result(if problems == [] then Finished else Thrown, st)
  {
  }

  lemma {:induction false} ExecMeans(prog: Program, meets: Family, fuel: nat, steps: seq<Step>, st: State)
    requires Explains(meets, prog)
    requires st.quiet && Ended(Exec(prog, fuel, steps, st).outcome)
    ensures Exec(prog, fuel, steps, st).outcome.Finished? <==> AllHold(meets(fuel), steps)
    decreases fuel, 3, |steps|
  {
    if steps != [] {
      StepMeans(prog, meets, fuel, steps[0], st);
      StepDisciplined(prog, fuel, steps[0], st);
      var r := ExecStep(prog, fuel, steps[0], st);
      if r.outcome.Finished? {
        ExecMeans(prog, meets, fuel, steps[1..], r.state);
        assert forall s :: s in steps <==> s == steps[0] || s in steps[1..];
      }
    }
  }

  lemma {:induction false} StepMeans(prog: Program, meets: Family, fuel: nat, step: Step, st: State)
    requires Explains(meets, prog)
    requires st.quiet && Ended(ExecStep(prog, fuel, step, st).outcome)
    ensures ExecStep(prog, fuel, step, st).outcome.Finished? <==> StepHolds(meets(fuel), step)
    decreases fuel, 2, 0
  {
    match step
    case Call(goal) => ExecMeans(prog, meets, fuel - 1, prog.body(goal), st);
    case Probe(goals, limit, combiner) =>
      CountDisciplined(prog, fuel, goals, limit, 0, st);
      CountMeans(prog, meets, fuel, goals, limit, 0, st);
      var c := Count(prog, fuel, goals, limit, 0, st);
      match Next(combiner, c.count) {
        case Reports(problems) => EmitQuiet(problems, c.state);
        case Then(goal, problem) =>
          IsValidDisciplined(prog, fuel, goal, c.state);
          IsValidMeans(prog, meets, fuel, goal, c.state);
          var p := IsValid(prog, fuel, goal, c.state);
          EmitQuiet(if p.valid then [] else [problem], p.state);
      }
    case _ =>
  }

  lemma {:induction false} CountMeans(
    prog: Program, meets: Family, fuel: nat, goals: seq<Goal>, limit: nat, count: nat, st: State)
    requires Explains(meets, prog)
    requires count <= limit && Count(prog, fuel, goals, limit, count, st).outcome.Finished?
    ensures Count(prog, fuel, goals, limit, count, st).count
         == Least(limit, count + Tally(meets(fuel), goals))
    decreases fuel, 1, |goals|
  {
    var met := meets(fuel);
    if goals == [] {
      TallyMeans(met, goals);
    } else if count != limit {
      IsValidMeans(prog, meets, fuel, goals[0], st);
      TallyHead(met, goals);
      var p := IsValid(prog, fuel, goals[0], st);
      CountMeans(prog, meets, fuel, goals[1..], limit, if p.valid then count + 1 else count, p.state);
    }
  }

  lemma {:induction false} IsValidMeans(prog: Program, meets: Family, fuel: nat, goal: Goal, st: State)
    requires Explains(meets, prog)
    requires IsValid(prog, fuel, goal, st).outcome.Finished?
    ensures IsValid(prog, fuel, goal, st).valid <==> meets(fuel)(goal)
    decreases fuel, 0, 0
  {
    ExecMeans(prog, meets, fuel - 1, prog.body(goal), st.(quiet := true));
  }
}
