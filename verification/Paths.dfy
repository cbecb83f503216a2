/**
 The data path of an error. Rendering a path never fails, and as long as no abandoned frame has
 leaked depth, the slots of an error lead from the root datum to the datum it reports.
 */
module Paths {
  import opened Values
  import opened Machine
  import opened Laws
  import opened Depth

  /** An event raised at or below depth `base`, in a run over `data` that found `path` there. */
  ghost predicate Located(e: Event, path: seq<Slot>, base: int, data: Data)
    requires 0 <= base < |path|
  {
    var here := e.context;
    && InSlots(here) && Renderable(here) && base <= here.depth
    && here.path[..base + 1] == path[..base + 1]
    && 0 <= e.leaked
    && (e.leaked == 0 ==> Leads(data, here.path[base + 1..here.depth + 1], e.problem.data))
  }

  ghost predicate AllLocated(events: seq<Event>, first: nat, path: seq<Slot>, base: int, data: Data)
    requires 0 <= base < |path|
  {
    forall k :: first <= k < |events| ==> Located(events[k], path, base, data)
  }

  lemma {:induction false} EmitLocated(problems: seq<Problem>, st: State, data: Data)
    requires Sound(st, Here) && 0 <= st.leaked
    requires forall p :: p in problems ==> p.data == data
    ensures AllLocated(EmitAll(problems, st).state.events, |st.events|, st.context.path, st.context.depth, data)
    decreases |problems|
  {
    if problems != [] {
      var r := Emit(problems[0], st);
      if r.outcome.Finished? {
        EmitLocated(problems[1..], r.state, data);
        EmitDisciplined(problems[1..], r.state);
        var d := st.context.depth;
        assert st.context.path[d + 1..d + 1] == [];
        assert r.state.events[|st.events|] == EmitAll(problems, st).state.events[|st.events|];
      }
    }
  }

  /** Events of a later stretch that started deeper or level, seen from the earlier one. */
  lemma Relocate(
    events: seq<Event>, from: nat, path: seq<Slot>, base: int, mid: seq<Slot>, midBase: int, data: Data, leaked: int)
    requires 0 <= base <= midBase < |mid| && base < |path|
    requires AllLocated(events, from, mid, midBase, data)
    requires mid[..base + 1] == path[..base + 1]
    requires midBase == base + leaked && 0 <= leaked
    requires forall k :: from <= k < |events| ==> leaked <= events[k].leaked
    ensures AllLocated(events, from, path, base, data)
  {
    forall k | from <= k < |events| ensures Located(events[k], path, base, data) {
      var here := events[k].context;
      assert Located(events[k], mid, midBase, data);
      assert here.path[..base + 1] == here.path[..midBase + 1][..base + 1] == mid[..midBase + 1][..base + 1];
    }
  }

  lemma {:induction false} ExecLocated(
    prog: Program, fuel: nat, steps: seq<Step>, data: Data, from: Position, to: Position, st: State)
    requires InPlace(prog)
    requires Walks(prog, steps, data, from, to) && Sound(st, from) && 0 <= st.leaked
    ensures var r := Exec(prog, fuel, steps, st);
            && AllLocated(r.state.events, |st.events|, st.context.path, Base(st, from), data)
            && forall k :: |st.events| <= k < |r.state.events| ==> st.leaked <= r.state.events[k].leaked
    decreases fuel, 3, |steps|
  {
    if steps != [] {
      var next := Move(prog, steps[0], data, from).value;
      StepLocated(prog, fuel, steps[0], data, from, st);
      StepKept(prog, fuel, steps[0], data, from, st);
      StepDisciplined(prog, fuel, steps[0], st);
      var r := ExecStep(prog, fuel, steps[0], st);
      if r.outcome.Finished? {
        ExecLocated(prog, fuel, steps[1..], data, next, to, r.state);
        ExecDisciplined(prog, fuel, steps[1..], r.state);
        var s := Exec(prog, fuel, steps[1..], r.state);
        Later(s.state.events, |r.state.events|, st, Base(st, from), r.state, Base(r.state, next), data);
        assert forall k :: |st.events| <= k < |r.state.events| ==> s.state.events[k] == r.state.events[k];
      }
    }
  }

  /** `Relocate`, from the facts a finished stretch provides. */
  lemma Later(events: seq<Event>, from: nat, first: State, base: int, mid: State, midBase: int, data: Data)
    requires 0 <= base < |first.context.path| == |mid.context.path|
    requires base <= midBase < |mid.context.path|
    requires mid.context.path[..base + 1] == first.context.path[..base + 1]
    requires midBase - base == mid.leaked - first.leaked && 0 <= first.leaked
    requires AllLocated(events, from, mid.context.path, midBase, data)
    requires forall k :: from <= k < |events| ==> mid.leaked <= events[k].leaked
    ensures AllLocated(events, from, first.context.path, base, data)
  {
    Relocate(events, from, first.context.path, base, mid.context.path, midBase, data, mid.leaked - first.leaked);
  }

  lemma {:induction false} StepLocated(prog: Program, fuel: nat, step: Step, data: Data, from: Position, st: State)
    requires InPlace(prog)
    requires Move(prog, step, data, from).Some? && Sound(st, from) && 0 <= st.leaked
    ensures var r := ExecStep(prog, fuel, step, st);
            && AllLocated(r.state.events, |st.events|, st.context.path, Base(st, from), data)
            && forall k :: |st.events| <= k < |r.state.events| ==> st.leaked <= r.state.events[k].leaked
    decreases fuel, 2, 0
  {
    match step
    case Report(problem) => EmitLocated([problem], st, data);
    case Call(goal) => if fuel > 0 { CallLocated(prog, fuel, goal, data, from, st); }
    case Probe(goals, limit, combiner) => ProbeLocated(prog, fuel, goals, limit, combiner, st);
    case _ =>
  }

  lemma {:induction false} CallLocated(prog: Program, fuel: nat, goal: Goal, data: Data, from: Position, st: State)
    requires InPlace(prog)
    requires fuel > 0 && Sound(st, from) && 0 <= st.leaked
    requires (from.Here? && goal.1 == data) || (from.At? && Edge(data, from.slot, goal.1))
    ensures var r := Exec(prog, fuel - 1, prog.body(goal), st);
            && AllLocated(r.state.events, |st.events|, st.context.path, Base(st, from), data)
            && forall k :: |st.events| <= k < |r.state.events| ==> st.leaked <= r.state.events[k].leaked
    decreases fuel, 1, 0
  {
    assert Sound(st, Here);
    ExecLocated(prog, fuel - 1, prog.body(goal), goal.1, Here, Here, st);
    if from.At? {
      var r := Exec(prog, fuel - 1, prog.body(goal), st);
      var d := st.context.depth;
      forall k | |st.events| <= k < |r.state.events|
        ensures Located(r.state.events[k], st.context.path, d - 1, data)
      {
        var e := r.state.events[k];
        var here := e.context;
        assert Located(e, st.context.path, d, goal.1);
        assert here.path[..d] == here.path[..d + 1][..d] == st.context.path[..d + 1][..d];
        assert here.path[d] == here.path[..d + 1][d] == st.context.path[d];
        var slots := here.path[d..here.depth + 1];
        assert slots[1..] == here.path[d + 1..here.depth + 1];
        if e.leaked == 0 {
          assert Edge(data, slots[0], goal.1) && Leads(goal.1, slots[1..], e.problem.data);
        }
      }
    }
  }

  /** The second probe of a condition, and its report. */
  lemma ThenLocated(
    prog: Program, fuel: nat, goal: Goal, problem: Problem, st: State, st1: State, data: Data)
    requires InPlace(prog) && Sound(st, Here) && 0 <= st.leaked && problem.data == data
    requires Sound(st1, Here) && Kept(prog, st, st.context.depth, Finished, st1) && Balanced(st, Here, st1, Here)
    requires st1.events == st.events && st1.quiet == st.quiet
    ensures var p := IsValid(prog, fuel, goal, st1);
      && p.state.events == st.events
      && (p.outcome.Finished? ==>
            var r := EmitAll(if p.valid then [] else [problem], p.state);
            && AllLocated(r.state.events, |st.events|, st.context.path, st.context.depth, data)
            && forall k :: |st.events| <= k < |r.state.events| ==> st.leaked <= r.state.events[k].leaked)
  {
    IsValidDisciplined(prog, fuel, goal, st1);
    IsValidKept(prog, fuel, goal, st1);
    var p := IsValid(prog, fuel, goal, st1);
    if p.outcome.Finished? {
      KeptChain(prog, st, st1, st.context.depth, st1.context.depth, p.outcome, p.state);
      ReportsLocated(if p.valid then [] else [problem], st, p.state, data);
    }
  }

  lemma {:induction false} ProbeLocated(
    prog: Program, fuel: nat, goals: seq<Goal>, limit: nat, combiner: Combiner, st: State)
    requires InPlace(prog)
    requires Sound(st, Here) && 0 <= st.leaked
    ensures var r := ExecStep(prog, fuel, Probe(goals, limit, combiner), st);
            && AllLocated(r.state.events, |st.events|, st.context.path, st.context.depth, combiner.data)
            && forall k :: |st.events| <= k < |r.state.events| ==> st.leaked <= r.state.events[k].leaked
  {
    CountDisciplined(prog, fuel, goals, limit, 0, st);
    CountKept(prog, fuel, goals, limit, 0, st);
    var c := Count(prog, fuel, goals, limit, 0, st);
    if c.outcome.Finished? {
      var r := ExecStep(prog, fuel, Probe(goals, limit, combiner), st);
      match Next(combiner, c.count)
      case Reports(problems) =>
        ReportsLocated(problems, st, c.state, combiner.data);
      case Then(goal, problem) =>
        ThenLocated(prog, fuel, goal, problem, st, c.state, combiner.data);
    }
  }

  lemma {:induction false} ReportsLocated(problems: seq<Problem>, st: State, mid: State, data: Data)
    requires Sound(st, Here) && Sound(mid, Here) && 0 <= st.leaked <= mid.leaked
    requires mid.events == st.events && Balanced(st, Here, mid, Here)
    requires mid.context.path[..st.context.depth + 1] == st.context.path[..st.context.depth + 1]
    requires forall p :: p in problems ==> p.data == data
    ensures var r := EmitAll(problems, mid);
            && AllLocated(r.state.events, |st.events|, st.context.path, st.context.depth, data)
            && forall k :: |st.events| <= k < |r.state.events| ==> st.leaked <= r.state.events[k].leaked
  {
    EmitLocated(problems, mid, data);
    EmitLeaks(problems, mid);
    Later(EmitAll(problems, mid).state.events, |st.events|, st, st.context.depth, mid, mid.context.depth, data);
  }

  lemma {:induction false} EmitLeaks(problems: seq<Problem>, st: State)
    ensures var events := EmitAll(problems, st).state.events;
            |st.events| <= |events| &&
            forall k :: |st.events| <= k < |events| ==> events[k].leaked == st.leaked
    decreases |problems|
  {
    if problems != [] {
      var r := Emit(problems[0], st);
      if r.outcome.Finished? {
        EmitLeaks(problems[1..], r.state);
        EmitDisciplined(problems[1..], r.state);
        assert r.state.events[|st.events|] == EmitAll(problems, st).state.events[|st.events|];
      }
    }
  }
}
