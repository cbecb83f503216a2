/** What a list of steps reports, and that a completed run reports exactly that. */
module Reporting {
  import opened Values
  import opened Machine
  import opened Laws
  import opened Counting
  import opened Meaning

  /** How problems are told, which goals are met, and what is told of a goal. */
  datatype Voice<!C> = Voice(say: Problem -> C, met: Goal -> bool, log: Goal -> seq<C>)

  function Told<C>(say: Problem -> C, problems: seq<Problem>): seq<C> {
    if problems == [] then [] else [say(problems[0])] + Told(say, problems[1..])
  }

  ghost function StepSays<C(!new)>(v: Voice<C>, step: Step): seq<C> {
    match step
    case Report(problem) => [v.say(problem)]
    case Call(goal) => v.log(goal)
    case Probe(goals, limit, combiner) =>
      (match Next(combiner, Least(limit, Tally(v.met, goals)))
       case Reports(problems) => Told(v.say, problems)
       case Then(goal, problem) => if v.met(goal) then [] else [v.say(problem)])
    case _ => []
  }

  ghost function StepsSay<C(!new)>(v: Voice<C>, steps: seq<Step>): seq<C>
    decreases |steps|
  {
    if steps == [] then [] else StepSays(v, steps[0]) + StepsSay(v, steps[1..])
  }

  lemma {:induction false} SayConcat<C(!new)>(v: Voice<C>, a: seq<Step>, b: seq<Step>)
    ensures StepsSay(v, a + b) == StepsSay(v, a) + StepsSay(v, b)
    decreases |a|
  {
    if a == [] {
      assert a + b == b;
    } else {
      assert (a + b)[0] == a[0] && (a + b)[1..] == a[1..] + b;
      SayConcat(v, a[1..], b);
    }
  }

  lemma SayOne<C(!new)>(v: Voice<C>, step: Step)
    ensures StepsSay(v, [step]) == StepSays(v, step)
  {
    assert [step][1..] == [];
  }

  // ---------------------------------------------------------------------------------------
  // Runs
  // ---------------------------------------------------------------------------------------

  /** What is told of every goal, by how deep schema applications may nest. */
  ghost function Logs<C(!new)>(prog: Program, meets: Family, say: Problem -> C, fuel: nat): Goal -> seq<C> {
    if fuel == 0 then goal => []
    else goal => StepsSay(Voice(say, meets(fuel - 1), Logs(prog, meets, say, fuel - 1)), prog.body(goal))
  }

  ghost function VoiceAt<C(!new)>(prog: Program, meets: Family, say: Problem -> C, fuel: nat): Voice<C> {
    Voice(say, meets(fuel), Logs(prog, meets, say, fuel))
  }

  function ToldEvents<C>(say: Problem -> C, events: seq<Event>): seq<C> {
    seq(|events|, i requires 0 <= i < |events| => say(events[i].problem))
  }

  /** A completed run that is heard reports the steps' reports. */
  ghost predicate Adds<C>(say: Problem -> C, before: State, after: State, told: seq<C>) {
    ToldEvents(say, after.events) == ToldEvents(say, before.events) + told
  }

  lemma AddsBoth<C>(say: Problem -> C, a: State, b: State, c: State, x: seq<C>, y: seq<C>)
    requires Adds(say, a, b, x) && Adds(say, b, c, y)
    ensures Adds(say, a, c, x + y)
  {
  }

  lemma {:induction false} EmitSays<C>(say: Problem -> C, problems: seq<Problem>, st: State)
    requires !st.quiet && EmitAll(problems, st).outcome.Finished?
    ensures Adds(say, st, EmitAll(problems, st).state, Told(say, problems))
    decreases |problems|
  {
    if problems != [] {
      var r := Emit(problems[0], st);
      EmitSays(say, problems[1..], r.state);
      assert Adds(say, st, r.state, [say(problems[0])]);
      AddsBoth(say, st, r.state, EmitAll(problems, st).state, [say(problems[0])], Told(say, problems[1..]));
    }
  }

  lemma {:induction false} ExecSays<C(!new)>(
    prog: Program, meets: Family, say: Problem -> C, fuel: nat, steps: seq<Step>, st: State)
    requires Explains(meets, prog) && !st.quiet && Exec(prog, fuel, steps, st).outcome.Finished?
    ensures Adds(say, st, Exec(prog, fuel, steps, st).state, StepsSay(VoiceAt(prog, meets, say, fuel), steps))
    decreases fuel, 3, |steps|
  {
    if steps != [] {
      var r := ExecStep(prog, fuel, steps[0], st);
      StepSaid(prog, meets, say, fuel, steps[0], st);
      StepDisciplined(prog, fuel, steps[0], st);
      ExecSays(prog, meets, say, fuel, steps[1..], r.state);
      var v := VoiceAt(prog, meets, say, fuel);
      AddsBoth(say, st, r.state, Exec(prog, fuel, steps, st).state, StepSays(v, steps[0]), StepsSay(v, steps[1..]));
    }
  }

  lemma {:induction false} StepSaid<C(!new)>(
    prog: Program, meets: Family, say: Problem -> C, fuel: nat, step: Step, st: State)
    requires Explains(meets, prog) && !st.quiet && ExecStep(prog, fuel, step, st).outcome.Finished?
    ensures Adds(say, st, ExecStep(prog, fuel, step, st).state, StepSays(VoiceAt(prog, meets, say, fuel), step))
    decreases fuel, 2, 0
  {
    match step
    case Report(problem) => EmitSays(say, [problem], st);
    case Call(goal) => ExecSays(prog, meets, say, fuel - 1, prog.body(goal), st);
    case Probe(goals, limit, combiner) => ProbeSaid(prog, meets, say, fuel, goals, limit, combiner, st);
    case _ =>
  }

  lemma ProbeSaid<C(!new)>(
    prog: Program, meets: Family, say: Problem -> C, fuel: nat, goals: seq<Goal>, limit: nat, combiner: Combiner,
    st: State)
    requires Explains(meets, prog) && !st.quiet
    requires ExecStep(prog, fuel, Probe(goals, limit, combiner), st).outcome.Finished?
    ensures Adds(say, st, ExecStep(prog, fuel, Probe(goals, limit, combiner), st).state,
                 StepSays(VoiceAt(prog, meets, say, fuel), Probe(goals, limit, combiner)))
  {
    CountDisciplined(prog, fuel, goals, limit, 0, st);
    CountMeans(prog, meets, fuel, goals, limit, 0, st);
    var c := Count(prog, fuel, goals, limit, 0, st);
    match Next(combiner, c.count)
    case Reports(problems) => EmitSays(say, problems, c.state);
    case Then(goal, problem) =>
      IsValidDisciplined(prog, fuel, goal, c.state);
      IsValidMeans(prog, meets, fuel, goal, c.state);
      var p := IsValid(prog, fuel, goal, c.state);
      var problems := if p.valid then [] else [problem];
      EmitSays(say, problems, p.state);
      assert [problem][1..] == [];
  }
}
