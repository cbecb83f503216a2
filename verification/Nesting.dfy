/**
 How far a reported path is off. Each error is about a datum inside the document, and its path has
 exactly as many slots more than the way to that datum as abandoned frames have leaked.
 */
module Nesting {
  import opened Values
  import opened Schema
  import opened Machine
  import opened Keywords
  import opened Laws
  import opened Addressing
  import opened Depth
  import opened Simulation

  /** A way from the datum of a run to what an error reports, `level` being the level of the former. */
  ghost predicate IsWay(e: Event, level: int, data: Data, way: seq<Slot>) {
    Leads(data, way, e.problem.data) && |way| == e.context.depth - e.leaked - level
  }

  ghost predicate HasWay(e: Event, level: int, data: Data) { exists way :: IsWay(e, level, data, way) }

  ghost predicate AllHaveWays(events: seq<Event>, first: nat, level: int, data: Data) {
    forall k :: first <= k < |events| ==> HasWay(events[k], level, data)
  }

  /** The level of the datum of a run; calls and probes at the same datum do not change it. */
  ghost function Level(st: State, pos: Position): int { Base(st, pos) - st.leaked }

  lemma {:induction false} EmitNested(problems: seq<Problem>, st: State, data: Data)
    requires forall p :: p in problems ==> p.data == data
    ensures |st.events| <= |EmitAll(problems, st).state.events|
    ensures AllHaveWays(EmitAll(problems, st).state.events, |st.events|, Level(st, Here), data)
    decreases |problems|
  {
    if problems != [] {
      var r := Emit(problems[0], st);
      if r.outcome.Finished? {
        EmitNested(problems[1..], r.state, data);
        EmitDisciplined(problems[1..], r.state);
        var events := EmitAll(problems[1..], r.state).state.events;
        assert events[|st.events|] == r.state.events[|st.events|];
        assert IsWay(events[|st.events|], Level(st, Here), data, []);
      }
    }
  }

  lemma {:induction false} ExecNested(
    prog: Program, fuel: nat, steps: seq<Step>, data: Data, from: Position, to: Position, st: State)
    requires InPlace(prog)
    requires Walks(prog, steps, data, from, to) && Sound(st, from) && 0 <= st.leaked
    ensures AllHaveWays(Exec(prog, fuel, steps, st).state.events, |st.events|, Level(st, from), data)
    decreases fuel, 3, |steps|
  {
    if steps != [] {
      var next := Move(prog, steps[0], data, from).value;
      StepNested(prog, fuel, steps[0], data, from, st);
      StepKept(prog, fuel, steps[0], data, from, st);
      StepDisciplined(prog, fuel, steps[0], st);
      var r := ExecStep(prog, fuel, steps[0], st);
      if r.outcome.Finished? {
        ExecNested(prog, fuel, steps[1..], data, next, to, r.state);
        ExecDisciplined(prog, fuel, steps[1..], r.state);
        WaysJoin(r.state.events, Exec(prog, fuel, steps[1..], r.state).state.events, |st.events|, Level(st, from),
          data);
      }
    }
  }

  lemma WaysJoin(mid: seq<Event>, events: seq<Event>, first: nat, level: int, data: Data)
    requires mid <= events && AllHaveWays(mid, first, level, data) && AllHaveWays(events, |mid|, level, data)
    ensures AllHaveWays(events, first, level, data)
  {
    forall k | first <= k < |events| ensures HasWay(events[k], level, data) {
      if k < |mid| { assert events[k] == mid[k]; }
    }
  }

  lemma {:induction false} StepNested(prog: Program, fuel: nat, step: Step, data: Data, from: Position, st: State)
    requires InPlace(prog)
    requires Move(prog, step, data, from).Some? && Sound(st, from) && 0 <= st.leaked
    ensures AllHaveWays(ExecStep(prog, fuel, step, st).state.events, |st.events|, Level(st, from), data)
    decreases fuel, 2, 0
  {
    match step
    case Report(problem) => EmitNested([problem], st, data);
    case Call(goal) => if fuel > 0 { CallNested(prog, fuel, goal, data, from, st); }
    case Probe(goals, limit, combiner) => ProbeNested(prog, fuel, goals, limit, combiner, st);
    case _ =>
  }

  lemma {:induction false} CallNested(prog: Program, fuel: nat, goal: Goal, data: Data, from: Position, st: State)
    requires InPlace(prog)
    requires fuel > 0 && Sound(st, from) && 0 <= st.leaked
    requires (from.Here? && goal.1 == data) || (from.At? && Edge(data, from.slot, goal.1))
    ensures AllHaveWays(Exec(prog, fuel - 1, prog.body(goal), st).state.events, |st.events|, Level(st, from), data)
    decreases fuel, 1, 0
  {
    assert Sound(st, Here);
    ExecNested(prog, fuel - 1, prog.body(goal), goal.1, Here, Here, st);
    if from.At? {
      var events := Exec(prog, fuel - 1, prog.body(goal), st).state.events;
      forall k | |st.events| <= k < |events| ensures HasWay(events[k], Level(st, from), data) {
        assert HasWay(events[k], Level(st, Here), goal.1);
        var way :| IsWay(events[k], Level(st, Here), goal.1, way);
        assert ([from.slot] + way)[1..] == way;
        assert IsWay(events[k], Level(st, from), data, [from.slot] + way);
      }
    }
  }

  /** The second probe of a condition, and its report. */
  lemma ThenNested(
    prog: Program, fuel: nat, goal: Goal, problem: Problem, st: State, mid: State, data: Data)
    requires InPlace(prog) && Sound(mid, Here) && 0 <= mid.leaked && problem.data == data
    requires mid.events == st.events && Level(mid, Here) == Level(st, Here)
    ensures var p := IsValid(prog, fuel, goal, mid);
      && p.state.events == st.events
      && (p.outcome.Finished? ==>
            AllHaveWays(EmitAll(if p.valid then [] else [problem], p.state).state.events, |st.events|,
              Level(st, Here), data))
  {
    IsValidDisciplined(prog, fuel, goal, mid);
    IsValidKept(prog, fuel, goal, mid);
    var p := IsValid(prog, fuel, goal, mid);
    if p.outcome.Finished? { EmitNested(if p.valid then [] else [problem], p.state, data); }
  }

  lemma ProbeNested(prog: Program, fuel: nat, goals: seq<Goal>, limit: nat, combiner: Combiner, st: State)
    requires InPlace(prog)
    requires Sound(st, Here) && 0 <= st.leaked
    ensures AllHaveWays(
              ExecStep(prog, fuel, Probe(goals, limit, combiner), st).state.events, |st.events|, Level(st, Here),
              combiner.data)
  {
    CountDisciplined(prog, fuel, goals, limit, 0, st);
    CountKept(prog, fuel, goals, limit, 0, st);
    var c := Count(prog, fuel, goals, limit, 0, st);
    if c.outcome.Finished? {
      match Next(combiner, c.count)
      case Reports(problems) => EmitNested(problems, c.state, combiner.data);
      case Then(goal, problem) =>
        ThenNested(prog, fuel, goal, problem, st, c.state, combiner.data);
    }
  }

  /**
   Each error of `validate` is about a datum in the document, and the path it is given is longer than a
   way to that datum by exactly the depth leaked so far.
   */
  lemma PathSurplus(w: World, fuel: nat, root: Address, data: Data, k: nat)
    requires k < |Validate(w, fuel, root, data).state.events|
    ensures var e := Validate(w, fuel, root, data).state.events[k];
            exists way :: Leads(data, way, e.problem.data) && |way| + e.leaked == e.context.depth
  {
    KeywordsInPlace(w);
    RunNested(ProgramOf(w), fuel, (root, data), k);
  }

  lemma {:induction false} RunNested(prog: Program, fuel: nat, goal: Goal, k: nat)
    requires InPlace(prog) && k < |Run(prog, fuel, goal).state.events|
    ensures var e := Run(prog, fuel, goal).state.events[k];
            exists way :: Leads(goal.1, way, e.problem.data) && |way| + e.leaked == e.context.depth
  {
    FreshSound();
    BodyNested(prog, fuel, goal, Fresh(), k);
  }

  lemma {:induction false} BodyNested(prog: Program, fuel: nat, goal: Goal, st: State, k: nat)
    requires InPlace(prog) && Sound(st, Here) && st.context.depth == 0 && st.leaked == 0 && st.events == []
    requires k < |Exec(prog, fuel, prog.body(goal), st).state.events|
    ensures var e := Exec(prog, fuel, prog.body(goal), st).state.events[k];
            exists way :: Leads(goal.1, way, e.problem.data) && |way| + e.leaked == e.context.depth
  {
    assert Stays(prog, prog.body(goal), goal.1);
    ExecNested(prog, fuel, prog.body(goal), goal.1, Here, Here, st);
    WayFound(Exec(prog, fuel, prog.body(goal), st).state.events, k, goal.1);
  }

  lemma {:induction false} WayFound(events: seq<Event>, k: nat, data: Data)
    requires k < |events| && AllHaveWays(events, 0, 0, data)
    ensures exists way ::
              Leads(data, way, events[k].problem.data) && |way| + events[k].leaked == events[k].context.depth
  {
    assert HasWay(events[k], 0, data);
    var way :| IsWay(events[k], 0, data, way);
  }
}
