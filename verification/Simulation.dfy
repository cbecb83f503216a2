/** The short-circuiting run is the collecting run cut at its first error. */
module Simulation {
  import opened Values
  import opened Machine
  import opened Laws
  import opened Depth

  function Quiet(st: State): State { st.(quiet := true) }

  /** `run`, started at `st`, stopped where it first spoke to the block. */
  function Cut(st: State, run: Result): Result
    requires st.events <= run.state.events
  {
    if |run.state.events| == |st.events| then Result(run.outcome, Quiet(run.state))
    else
      var first := run.state.events[|st.events|];
      Result(Thrown, State(first.context, true, st.events, first.leaked))
  }

  lemma {:induction false} EmitCut(problems: seq<Problem>, st: State)
    requires !st.quiet && Sound(st, Here)
    ensures st.events <= EmitAll(problems, st).state.events
    ensures EmitAll(problems, Quiet(st)) == Cut(st, EmitAll(problems, st))
    decreases |problems|
  {
    EmitDisciplined(problems, st);
    if problems != [] {
      var r := Emit(problems[0], st);
      EmitDisciplined(problems[1..], r.state);
      assert EmitAll(problems, st).state.events[|st.events|] == r.state.events[|st.events|];
    }
  }

  lemma {:induction false} ExecCut(
    prog: Program, fuel: nat, steps: seq<Step>, data: Data, from: Position, to: Position, st: State)
    requires InPlace(prog)
    requires !st.quiet && Walks(prog, steps, data, from, to) && Sound(st, from) && 0 <= st.leaked
    ensures st.events <= Exec(prog, fuel, steps, st).state.events
    ensures Exec(prog, fuel, steps, Quiet(st)) == Cut(st, Exec(prog, fuel, steps, st))
    decreases fuel, 3, |steps|
  {
    ExecDisciplined(prog, fuel, steps, st);
    if steps != [] {
      var next := Move(prog, steps[0], data, from).value;
      StepDisciplined(prog, fuel, steps[0], st);
      StepCut(prog, fuel, steps[0], data, from, st);
      StepKept(prog, fuel, steps[0], data, from, st);
      var r := ExecStep(prog, fuel, steps[0], st);
      if r.outcome.Finished? {
        ExecDisciplined(prog, fuel, steps[1..], r.state);
        ExecCut(prog, fuel, steps[1..], data, next, to, r.state);
        var s := Exec(prog, fuel, steps[1..], r.state);
        if |r.state.events| > |st.events| {
          assert s.state.events[|st.events|] == r.state.events[|st.events|];
        }
      }
    }
  }

  lemma {:induction false} StepCut(prog: Program, fuel: nat, step: Step, data: Data, from: Position, st: State)
    requires InPlace(prog)
    requires !st.quiet && Move(prog, step, data, from).Some? && Sound(st, from) && 0 <= st.leaked
    ensures st.events <= ExecStep(prog, fuel, step, st).state.events
    ensures ExecStep(prog, fuel, step, Quiet(st)) == Cut(st, ExecStep(prog, fuel, step, st))
    decreases fuel, 2, 0
  {
    StepDisciplined(prog, fuel, step, st);
    match step
    case Report(problem) => EmitCut([problem], st);
    case Call(goal) =>
      if fuel > 0 {
        assert Sound(st, Here);
        ExecCut(prog, fuel - 1, prog.body(goal), goal.1, Here, Here, st);
      }
    case Probe(goals, limit, combiner) => ProbeCut(prog, fuel, goals, limit, combiner, st);
    case _ =>
  }

  lemma {:induction false} ProbeCut(
    prog: Program, fuel: nat, goals: seq<Goal>, limit: nat, combiner: Combiner, st: State)
    requires InPlace(prog)
    requires !st.quiet && Sound(st, Here) && 0 <= st.leaked
    ensures st.events <= ExecStep(prog, fuel, Probe(goals, limit, combiner), st).state.events
    ensures ExecStep(prog, fuel, Probe(goals, limit, combiner), Quiet(st))
         == Cut(st, ExecStep(prog, fuel, Probe(goals, limit, combiner), st))
  {
    StepDisciplined(prog, fuel, Probe(goals, limit, combiner), st);
    CountSilent(prog, fuel, goals, limit, 0, st);
    CountDisciplined(prog, fuel, goals, limit, 0, st);
    CountKept(prog, fuel, goals, limit, 0, st);
    var c := Count(prog, fuel, goals, limit, 0, st);
    if c.outcome.Finished? {
      match Next(combiner, c.count)
      case Reports(problems) => EmitCut(problems, c.state);
      case Then(goal, problem) =>
        IsValidDisciplined(prog, fuel, goal, c.state);
        IsValidKept(prog, fuel, goal, c.state);
        var p := IsValid(prog, fuel, goal, c.state);
        if p.outcome.Finished? { EmitCut(if p.valid then [] else [problem], p.state); }
    }
  }

  /** Probes do not notice the flag. */
  lemma {:induction false} CountSilent(prog: Program, fuel: nat, goals: seq<Goal>, limit: nat, count: nat, st: State)
    ensures var c := Count(prog, fuel, goals, limit, count, st);
            Count(prog, fuel, goals, limit, count, Quiet(st)) == c.(state := Quiet(c.state))
    decreases |goals|
  {
    if goals != [] && count != limit {
      var p := IsValid(prog, fuel, goals[0], st);
      if p.outcome.Finished? {
        CountSilent(prog, fuel, goals[1..], limit, if p.valid then count + 1 else count, p.state);
      }
    }
  }

  lemma FreshSound()
    ensures Sound(Fresh(), Here)
  {
    var path := Fresh().context.path;
    assert path[..1] == [NameSlot("#")];
  }

  /** The run inside an `is_valid` frame is the collecting run cut at its first error. */
  lemma AskIsRunCut(prog: Program, fuel: nat, goal: Goal)
    requires InPlace(prog)
    ensures [] <= Run(prog, fuel, goal).state.events
    ensures Exec(prog, fuel, prog.body(goal), Quiet(Fresh())) == Cut(Fresh(), Run(prog, fuel, goal))
  {
    FreshSound();
    ExecCut(prog, fuel, prog.body(goal), goal.1, Here, Here, Fresh());
  }

  /**
   The answer is false exactly when the collecting run reports something, true exactly when it
   completes without reporting, and otherwise the frame ends the way the collecting run does.
   */
  lemma AskAgrees(prog: Program, fuel: nat, goal: Goal)
    requires InPlace(prog)
    ensures var loud, quiet := Run(prog, fuel, goal), Ask(prog, fuel, goal);
            && (loud.state.events != [] <==> quiet.outcome.Finished? && !quiet.valid)
            && (loud.state.events == [] && loud.outcome.Finished? <==> quiet.outcome.Finished? && quiet.valid)
            && (loud.state.events == [] && !loud.outcome.Finished? ==> quiet.outcome == loud.outcome)
            && !loud.outcome.Thrown?
  {
    AskIsRunCut(prog, fuel, goal);
    ExecDisciplined(prog, fuel, prog.body(goal), Fresh());
  }

  /** The context in which the frame stops is the one the first error is reported from. */
  lemma AskStopsAtFirstError(prog: Program, fuel: nat, goal: Goal)
    requires InPlace(prog)
    ensures var loud, quiet := Run(prog, fuel, goal), Ask(prog, fuel, goal);
            && quiet.state.quiet == false && quiet.state.events == []
            && quiet.state.context ==
               (if loud.state.events == [] then loud.state.context else loud.state.events[0].context)
  {
    AskIsRunCut(prog, fuel, goal);
    ExecDisciplined(prog, fuel, prog.body(goal), Fresh());
    IsValidDisciplined(prog, fuel + 1, goal, Fresh());
  }

  /**
   A completed probe stops in the context in which the collecting run of its goal first reports, or else
   ends. So it gives back the depth exactly when that run gives it back silently, or first reports at the
   depth it started from.
   */
  lemma FrameContext(prog: Program, fuel: nat, goal: Goal, st: State)
    requires InPlace(prog) && Sound(st, Here) && 0 <= st.leaked
    requires fuel > 0 && IsValid(prog, fuel, goal, st).outcome.Finished?
    ensures var loud := Exec(prog, fuel - 1, prog.body(goal), st.(quiet := false)).state;
      && st.events <= loud.events
      && IsValid(prog, fuel, goal, st).state.context ==
         (if |loud.events| == |st.events| then loud.context else loud.events[|st.events|].context)
  {
    var st' := st.(quiet := false);
    ExecCut(prog, fuel - 1, prog.body(goal), goal.1, Here, Here, st');
    assert Quiet(st') == st.(quiet := true);
  }
}
