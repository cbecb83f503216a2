/** What a schema says about a datum does not depend on where in a document, or how deep, it is asked. */
module Independence {
  import opened Machine
  import opened Laws
  import opened Meaning

  /** What the block hears between two states. */
  ghost function Heard(before: State, after: State): seq<Problem>
    requires |before.events| <= |after.events|
  {
    seq(|after.events| - |before.events|,
        i requires 0 <= i < |after.events| - |before.events| => after.events[|before.events| + i].problem)
  }

  /** Two stretches with the same effect: reports, depth gained, depth leaked. */
  ghost predicate SameEffect(a: State, a': State, b: State, b': State) {
    && a.events <= a'.events && b.events <= b'.events
    && a'.quiet == a.quiet && b'.quiet == b.quiet
    && Heard(a, a') == Heard(b, b')
    && a'.context.depth - a.context.depth == b'.context.depth - b.context.depth
    && a'.leaked - a.leaked == b'.leaked - b.leaked
  }

  lemma HeardChain(a: State, b: State, c: State)
    requires a.events <= b.events <= c.events
    ensures Heard(a, c) == Heard(a, b) + Heard(b, c)
  {
  }

  lemma EffectChain(a: State, a': State, a'': State, b: State, b': State, b'': State)
    requires SameEffect(a, a', b, b') && SameEffect(a', a'', b', b'')
    ensures SameEffect(a, a'', b, b'')
  {
    HeardChain(a, a', a'');
    HeardChain(b, b', b'');
  }

  lemma {:induction false} EmitIndependent(problems: seq<Problem>, a: State, b: State)
    requires a.quiet == b.quiet
    requires Ended(EmitAll(problems, a).outcome) && Ended(EmitAll(problems, b).outcome)
    ensures EmitAll(problems, a).outcome == EmitAll(problems, b).outcome
    ensures SameEffect(a, EmitAll(problems, a).state, b, EmitAll(problems, b).state)
    decreases |problems|
  {
    if problems != [] {
      var p, q := Emit(problems[0], a), Emit(problems[0], b);
      assert SameEffect(a, p.state, b, q.state);
      if p.outcome.Finished? {
        EmitIndependent(problems[1..], p.state, q.state);
        EffectChain(a, p.state, EmitAll(problems, a).state, b, q.state, EmitAll(problems, b).state);
      }
    }
  }

  lemma {:induction false} ExecIndependent(prog: Program, fuel: nat, steps: seq<Step>, a: State, b: State)
    requires a.quiet == b.quiet
    requires Ended(Exec(prog, fuel, steps, a).outcome) && Ended(Exec(prog, fuel, steps, b).outcome)
    ensures Exec(prog, fuel, steps, a).outcome == Exec(prog, fuel, steps, b).outcome
    ensures SameEffect(a, Exec(prog, fuel, steps, a).state, b, Exec(prog, fuel, steps, b).state)
    decreases fuel, 3, |steps|
  {
    if steps != [] {
      var p, q := ExecStep(prog, fuel, steps[0], a), ExecStep(prog, fuel, steps[0], b);
      StepIndependent(prog, fuel, steps[0], a, b);
      if p.outcome.Finished? {
        ExecIndependent(prog, fuel, steps[1..], p.state, q.state);
        EffectChain(a, p.state, Exec(prog, fuel, steps, a).state, b, q.state, Exec(prog, fuel, steps, b).state);
      }
    }
  }

  lemma {:induction false} StepIndependent(prog: Program, fuel: nat, step: Step, a: State, b: State)
    requires a.quiet == b.quiet
    requires Ended(ExecStep(prog, fuel, step, a).outcome) && Ended(ExecStep(prog, fuel, step, b).outcome)
    ensures ExecStep(prog, fuel, step, a).outcome == ExecStep(prog, fuel, step, b).outcome
    ensures SameEffect(a, ExecStep(prog, fuel, step, a).state, b, ExecStep(prog, fuel, step, b).state)
    decreases fuel, 2, 0
  {
    match step
    case Report(problem) => EmitIndependent([problem], a, b);
    case Call(goal) => ExecIndependent(prog, fuel - 1, prog.body(goal), a, b);
    case Probe(goals, limit, combiner) => ProbeIndependent(prog, fuel, goals, limit, combiner, a, b);
    case _ =>
  }

  lemma {:induction false} ProbeIndependent(
    prog: Program, fuel: nat, goals: seq<Goal>, limit: nat, combiner: Combiner, a: State, b: State)
    requires a.quiet == b.quiet
    requires var step := Probe(goals, limit, combiner);
             Ended(ExecStep(prog, fuel, step, a).outcome) && Ended(ExecStep(prog, fuel, step, b).outcome)
    ensures var step := Probe(goals, limit, combiner);
            var p, q := ExecStep(prog, fuel, step, a), ExecStep(prog, fuel, step, b);
            p.outcome == q.outcome && SameEffect(a, p.state, b, q.state)
    decreases fuel, 1, |goals| + 1
  {
    var step := Probe(goals, limit, combiner);
    var p, q := ExecStep(prog, fuel, step, a), ExecStep(prog, fuel, step, b);
    CountDisciplined(prog, fuel, goals, limit, 0, a);
    CountDisciplined(prog, fuel, goals, limit, 0, b);
    CountIndependent(prog, fuel, goals, limit, 0, a, b);
    var c, d := Count(prog, fuel, goals, limit, 0, a), Count(prog, fuel, goals, limit, 0, b);
    match Next(combiner, c.count)
    case Reports(problems) =>
      EmitIndependent(problems, c.state, d.state);
      EffectChain(a, c.state, p.state, b, d.state, q.state);
    case Then(goal, problem) =>
      IsValidDisciplined(prog, fuel, goal, c.state);
      IsValidDisciplined(prog, fuel, goal, d.state);
      IsValidIndependent(prog, fuel, goal, c.state, d.state);
      var x, y := IsValid(prog, fuel, goal, c.state), IsValid(prog, fuel, goal, d.state);
      EmitIndependent(if x.valid then [] else [problem], x.state, y.state);
      EffectChain(a, c.state, x.state, b, d.state, y.state);
      EffectChain(a, x.state, p.state, b, y.state, q.state);
  }

  lemma {:induction false} CountIndependent(
    prog: Program, fuel: nat, goals: seq<Goal>, limit: nat, count: nat, a: State, b: State)
    requires a.quiet == b.quiet
    requires Count(prog, fuel, goals, limit, count, a).outcome.Finished?
    requires Count(prog, fuel, goals, limit, count, b).outcome.Finished?
    ensures Count(prog, fuel, goals, limit, count, a).count == Count(prog, fuel, goals, limit, count, b).count
    ensures SameEffect(a, Count(prog, fuel, goals, limit, count, a).state,
                       b, Count(prog, fuel, goals, limit, count, b).state)
    decreases fuel, 1, |goals|
  {
    if goals != [] && count != limit {
      IsValidIndependent(prog, fuel, goals[0], a, b);
      var x, y := IsValid(prog, fuel, goals[0], a), IsValid(prog, fuel, goals[0], b);
      var more := if x.valid then count + 1 else count;
      CountIndependent(prog, fuel, goals[1..], limit, more, x.state, y.state);
      EffectChain(a, x.state, Count(prog, fuel, goals[1..], limit, more, x.state).state,
                  b, y.state, Count(prog, fuel, goals[1..], limit, more, y.state).state);
    }
  }

  lemma {:induction false} IsValidIndependent(prog: Program, fuel: nat, goal: Goal, a: State, b: State)
    requires a.quiet == b.quiet
    requires IsValid(prog, fuel, goal, a).outcome.Finished? && IsValid(prog, fuel, goal, b).outcome.Finished?
    ensures IsValid(prog, fuel, goal, a).valid == IsValid(prog, fuel, goal, b).valid
    ensures SameEffect(a, IsValid(prog, fuel, goal, a).state, b, IsValid(prog, fuel, goal, b).state)
    decreases fuel, 0, 0
  {
    IsValidDisciplined(prog, fuel, goal, a);
    IsValidDisciplined(prog, fuel, goal, b);
    ExecIndependent(prog, fuel - 1, prog.body(goal), a.(quiet := true), b.(quiet := true));
  }
}
