/**
 Depth and path slots over whole runs.

 `is_valid` does not give back the depth of a frame that a throw abandoned, so the depth after a
 call is the depth before plus what such frames leaked. Slots at or above the entry depth's slot
 are never overwritten, slots up to the current depth always hold a string or an integer, and the
 "too deep" guard never fires: an access past the slots always comes first.
 */
module Depth {
  import opened Values
  import opened Machine
  import opened Laws

  function Offset(pos: Position): int { if pos.Here? then 0 else 1 }

  /** The depth of the datum a step list is about. */
  function Base(st: State, pos: Position): int { st.context.depth - Offset(pos) }

  /** Slots up to the depth are usable (up to the parent's, when the current one is stale). */
  ghost predicate Sound(st: State, pos: Position) {
    && |st.context.path| == MAX_CONTEXT_DEPTH
    && 0 <= Base(st, pos) < MAX_CONTEXT_DEPTH
    && (!pos.Open? ==> st.context.depth < MAX_CONTEXT_DEPTH)
    && (pos.At? ==> st.context.path[st.context.depth] == pos.slot || st.leaked > 0)
    && Unset !in st.context.path[..if pos.Open? then st.context.depth else st.context.depth + 1]
  }

  ghost predicate Kept(prog: Program, before: State, base: int, outcome: Outcome, after: State)
    requires |before.context.path| == MAX_CONTEXT_DEPTH && 0 <= base < MAX_CONTEXT_DEPTH
  {
    && |after.context.path| == MAX_CONTEXT_DEPTH
    && after.context.path[..base + 1] == before.context.path[..base + 1]
    && before.leaked <= after.leaked
    && (outcome.Raised? ==> prog.crashes(outcome.message))
    && (outcome.Thrown? ==> Sound(after, Here) && base + (after.leaked - before.leaked) <= after.context.depth)
  }

  /** Depth gained apart from moving between positions is exactly what was leaked. */
  ghost predicate Balanced(before: State, from: Position, after: State, to: Position) {
    Base(after, to) - Base(before, from) == after.leaked - before.leaked
  }

  lemma {:induction false} EmitKept(prog: Program, problems: seq<Problem>, st: State)
    requires Sound(st, Here)
    ensures var r := EmitAll(problems, st);
            && (r.outcome.Finished? || (r.outcome.Thrown? && st.quiet))
            && r.state.context == st.context && r.state.leaked == st.leaked
    decreases |problems|
  {
    if problems != [] {
      var r := Emit(problems[0], st);
      if r.outcome.Finished? { EmitKept(prog, problems[1..], r.state); }
    }
  }

  lemma {:induction false} ExecKept(
    prog: Program, fuel: nat, steps: seq<Step>, data: Data, from: Position, to: Position, st: State)
    requires InPlace(prog)
    requires Walks(prog, steps, data, from, to) && Sound(st, from) && 0 <= st.leaked
    ensures var r := Exec(prog, fuel, steps, st);
            && Kept(prog, st, Base(st, from), r.outcome, r.state)
            && (r.outcome.Finished? ==> Sound(r.state, to) && Balanced(st, from, r.state, to))
    decreases fuel, 3, |steps|
  {
    if steps != [] {
      var next := Move(prog, steps[0], data, from).value;
      StepKept(prog, fuel, steps[0], data, from, st);
      var r := ExecStep(prog, fuel, steps[0], st);
      if r.outcome.Finished? {
        ExecKept(prog, fuel, steps[1..], data, next, to, r.state);
        var s := Exec(prog, fuel, steps[1..], r.state);
        StepDisciplined(prog, fuel, steps[0], st);
        KeptChain(prog, st, r.state, Base(st, from), Base(r.state, next), s.outcome, s.state);
      }
    }
  }

  lemma {:induction false} StepKept(prog: Program, fuel: nat, step: Step, data: Data, from: Position, st: State)
    requires InPlace(prog)
    requires Move(prog, step, data, from).Some? && Sound(st, from) && 0 <= st.leaked
    ensures var r := ExecStep(prog, fuel, step, st);
            var to := Move(prog, step, data, from).value;
            && Kept(prog, st, Base(st, from), r.outcome, r.state)
            && (r.outcome.Finished? ==> Sound(r.state, to) && Balanced(st, from, r.state, to))
    decreases fuel, 2, 0
  {
    match step
    case Report(problem) => EmitKept(prog, [problem], st);
    case Crash(_) =>
    case Call(goal) => CallKept(prog, fuel, goal, from, st);
    case Descend =>
    case Ascend =>
      if from.At? {
        var path, depth := st.context.path, st.context.depth;
        assert path[..depth] == path[..depth + 1][..depth];
      }
    case Place(slot) => PlaceKept(prog, fuel, slot, from, st);
    case Probe(goals, limit, combiner) => ProbeKept(prog, fuel, goals, limit, combiner, st);
  }

  lemma {:induction false} CallKept(prog: Program, fuel: nat, goal: Goal, from: Position, st: State)
    requires InPlace(prog)
    requires !from.Open? && Sound(st, from) && 0 <= st.leaked
    ensures var r := ExecStep(prog, fuel, Call(goal), st);
            && Kept(prog, st, Base(st, from), r.outcome, r.state)
            && (r.outcome.Finished? ==> Sound(r.state, from) && Balanced(st, from, r.state, from))
    decreases fuel, 1, 0
  {
    if fuel > 0 {
      assert Sound(st, Here);
      ExecKept(prog, fuel - 1, prog.body(goal), goal.1, Here, Here, st);
      var r := Exec(prog, fuel - 1, prog.body(goal), st);
      var d, b := st.context.depth, Base(st, from);
      var before, after := st.context.path, r.state.context.path;
      assert after[..d + 1] == before[..d + 1];
      assert after[..b + 1] == after[..d + 1][..b + 1] == before[..d + 1][..b + 1] == before[..b + 1];
      assert after[d] == after[..d + 1][d] == before[..d + 1][d] == before[d];
    }
  }

  lemma PlaceKept(prog: Program, fuel: nat, slot: Slot, from: Position, st: State)
    requires InPlace(prog)
    requires !from.Here? && Sound(st, from) && !slot.Unset?
    ensures var r := ExecStep(prog, fuel, Place(slot), st);
            && Kept(prog, st, Base(st, from), r.outcome, r.state)
            && (r.outcome.Finished? ==> Sound(r.state, At(slot)) && Balanced(st, from, r.state, At(slot)))
  {
    var d := st.context.depth;
    if InSlots(st.context) {
      var p := st.context.path[d := slot];
      assert p[..d + 1] == p[..d] + [slot];
      assert p[..d] == st.context.path[..d];
      if from.At? { assert st.context.path[..d] == st.context.path[..d + 1][..d]; }
    }
  }

  lemma {:induction false} ProbeKept(
    prog: Program, fuel: nat, goals: seq<Goal>, limit: nat, combiner: Combiner, st: State)
    requires InPlace(prog)
    requires Sound(st, Here) && 0 <= st.leaked
    ensures var r := ExecStep(prog, fuel, Probe(goals, limit, combiner), st);
            && Kept(prog, st, st.context.depth, r.outcome, r.state)
            && (r.outcome.Finished? ==> Sound(r.state, Here) && Balanced(st, Here, r.state, Here))
    decreases fuel, 1, |goals| + 1
  {
    CountDisciplined(prog, fuel, goals, limit, 0, st);
    CountKept(prog, fuel, goals, limit, 0, st);
    var c := Count(prog, fuel, goals, limit, 0, st);
    if c.outcome.Finished? {
      match Next(combiner, c.count)
      case Reports(problems) => EmitKept(prog, problems, c.state);
      case Then(goal, problem) =>
        IsValidDisciplined(prog, fuel, goal, c.state);
        IsValidKept(prog, fuel, goal, c.state);
        var p := IsValid(prog, fuel, goal, c.state);
        KeptChain(prog, st, c.state, st.context.depth, c.state.context.depth, p.outcome, p.state);
        if p.outcome.Finished? { EmitKept(prog, if p.valid then [] else [problem], p.state); }
    }
  }

  /** Two stretches of a run, the second starting no lower than the first. */
  lemma KeptChain(prog: Program, first: State, mid: State, base: int, midBase: int, outcome: Outcome, last: State)
    requires |first.context.path| == |mid.context.path| == MAX_CONTEXT_DEPTH
    requires 0 <= base <= midBase < MAX_CONTEXT_DEPTH
    requires Kept(prog, first, base, Finished, mid) && Kept(prog, mid, midBase, outcome, last)
    requires first.quiet == mid.quiet
    requires midBase - base == mid.leaked - first.leaked
    ensures Kept(prog, first, base, outcome, last)
  {
    var a, b, c := first.context.path, mid.context.path, last.context.path;
    assert c[..base + 1] == c[..midBase + 1][..base + 1];
    assert b[..base + 1] == b[..midBase + 1][..base + 1];
  }

  lemma {:induction false} CountKept(prog: Program, fuel: nat, goals: seq<Goal>, limit: nat, count: nat, st: State)
    requires InPlace(prog)
    requires Sound(st, Here) && 0 <= st.leaked
    ensures var c := Count(prog, fuel, goals, limit, count, st);
            && !c.outcome.Thrown? && Kept(prog, st, st.context.depth, c.outcome, c.state)
            && (c.outcome.Finished? ==> Sound(c.state, Here) && Balanced(st, Here, c.state, Here))
    decreases fuel, 1, |goals|
  {
    if goals != [] && count != limit {
      IsValidKept(prog, fuel, goals[0], st);
      var p := IsValid(prog, fuel, goals[0], st);
      if p.outcome.Finished? {
        var more := if p.valid then count + 1 else count;
        CountKept(prog, fuel, goals[1..], limit, more, p.state);
        var c := Count(prog, fuel, goals[1..], limit, more, p.state);
        IsValidDisciplined(prog, fuel, goals[0], st);
        KeptChain(prog, st, p.state, st.context.depth, p.state.context.depth, c.outcome, c.state);
      }
    }
  }

  lemma {:induction false} IsValidKept(prog: Program, fuel: nat, goal: Goal, st: State)
    requires InPlace(prog)
    requires Sound(st, Here) && 0 <= st.leaked
    ensures var p := IsValid(prog, fuel, goal, st);
            && !p.outcome.Thrown? && Kept(prog, st, st.context.depth, p.outcome, p.state)
            && (p.outcome.Finished? ==> Sound(p.state, Here) && Balanced(st, Here, p.state, Here))
    decreases fuel, 0, 0
  {
    if fuel > 0 {
      ExecDisciplined(prog, fuel - 1, prog.body(goal), st.(quiet := true));
      ExecKept(prog, fuel - 1, prog.body(goal), goal.1, Here, Here, st.(quiet := true));
    }
  }
}
