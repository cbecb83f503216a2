/**
 Laws of single runs: the discipline of the short-circuit flag, and what happens to depth and
 path slots, including what frames abandoned by a throw leave behind.
 */
module Laws {
  import opened Values
  import opened Machine

  // ---------------------------------------------------------------------------------------
  // Sequencing
  // ---------------------------------------------------------------------------------------

  /** Runs `second` only if the first part finished. */
  function AndThen(prog: Program, fuel: nat, first: Result, second: seq<Step>): Result {
    if first.outcome.Finished? then Exec(prog, fuel, second, first.state) else first
  }

  /** The steps of a list are those of its entries, one after the other. */
  ghost predicate Extends<T(!new)>(steps: seq<T> -> seq<Step>, each: T -> seq<Step>, init: seq<T>, last: T) {
    steps(init + [last]) == steps(init) + each(last)
  }

  lemma {:induction false} ExecConcat(prog: Program, fuel: nat, a: seq<Step>, b: seq<Step>, st: State)
    ensures Exec(prog, fuel, a + b, st) == AndThen(prog, fuel, Exec(prog, fuel, a, st), b)
    decreases |a|
  {
    if a == [] {
      assert a + b == b;
    } else {
      assert (a + b)[0] == a[0] && (a + b)[1..] == a[1..] + b;
      var r := ExecStep(prog, fuel, a[0], st);
      if r.outcome.Finished? { ExecConcat(prog, fuel, a[1..], b, r.state); }
    }
  }

  // ---------------------------------------------------------------------------------------
  // The flag
  // ---------------------------------------------------------------------------------------

  /**
   What every call keeps: the flag is back at its entry value however the call ends, a throw only
   happens under the flag, the block hears nothing under the flag, and it is never told less.
   */
  ghost predicate Disciplined(before: State, outcome: Outcome, after: State) {
    && after.quiet == before.quiet
    && (outcome.Thrown? ==> before.quiet)
    && (before.quiet ==> after.events == before.events)
    && before.events <= after.events
    && |after.context.path| == |before.context.path|
  }

  lemma {:induction false} EmitDisciplined(problems: seq<Problem>, st: State)
    ensures var r := EmitAll(problems, st); Disciplined(st, r.outcome, r.state)
    decreases |problems|
  {
    if problems != [] {
      var r := Emit(problems[0], st);
      if r.outcome.Finished? { EmitDisciplined(problems[1..], r.state); }
    }
  }

  lemma {:induction false} ExecDisciplined(prog: Program, fuel: nat, steps: seq<Step>, st: State)
    ensures var r := Exec(prog, fuel, steps, st); Disciplined(st, r.outcome, r.state)
    decreases fuel, 3, |steps|
  {
    if steps != [] {
      StepDisciplined(prog, fuel, steps[0], st);
      var r := ExecStep(prog, fuel, steps[0], st);
      if r.outcome.Finished? { ExecDisciplined(prog, fuel, steps[1..], r.state); }
    }
  }

  lemma {:induction false} StepDisciplined(prog: Program, fuel: nat, step: Step, st: State)
    ensures var r := ExecStep(prog, fuel, step, st); Disciplined(st, r.outcome, r.state)
    decreases fuel, 2, 0
  {
    match step
    case Call(goal) => if fuel > 0 { ExecDisciplined(prog, fuel - 1, prog.body(goal), st); }
    case Probe(goals, limit, combiner) =>
      CountDisciplined(prog, fuel, goals, limit, 0, st);
      var c := Count(prog, fuel, goals, limit, 0, st);
      if c.outcome.Finished? {
        match Next(combiner, c.count)
        case Reports(problems) => EmitDisciplined(problems, c.state);
        case Then(goal, problem) =>
          IsValidDisciplined(prog, fuel, goal, c.state);
          var p := IsValid(prog, fuel, goal, c.state);
          EmitDisciplined(if p.valid then [] else [problem], p.state);
      }
    case _ =>
  }

  lemma {:induction false} CountDisciplined(
    prog: Program, fuel: nat, goals: seq<Goal>, limit: nat, count: nat, st: State)
    ensures var c := Count(prog, fuel, goals, limit, count, st);
            Disciplined(st, c.outcome, c.state) && c.state.events == st.events && !c.outcome.Thrown?
    decreases fuel, 1, |goals|
  {
    if goals != [] && count != limit {
      IsValidDisciplined(prog, fuel, goals[0], st);
      var p := IsValid(prog, fuel, goals[0], st);
      if p.outcome.Finished? {
        CountDisciplined(prog, fuel, goals[1..], limit, if p.valid then count + 1 else count, p.state);
      }
    }
  }

  /** No throw escapes an `is_valid` frame, and nothing reaches the block from inside one. */
  lemma {:induction false} IsValidDisciplined(prog: Program, fuel: nat, goal: Goal, st: State)
    ensures var p := IsValid(prog, fuel, goal, st);
            Disciplined(st, p.outcome, p.state) && p.state.events == st.events && !p.outcome.Thrown?
    decreases fuel, 0, 0
  {
    if fuel > 0 { ExecDisciplined(prog, fuel - 1, prog.body(goal), st.(quiet := true)); }
  }

  // ---------------------------------------------------------------------------------------
  // Where a step list stands relative to its datum
  // ---------------------------------------------------------------------------------------

  /** At the datum itself, one level down with a stale slot, or one level down at a slot. */
  datatype Position = Here | Open | At(slot: Slot)

  /** `child` is what `slot` selects in `parent`; a name slot also selects the name itself. */
  ghost predicate Edge(parent: Data, slot: Slot, child: Data) {
    match slot
    case Unset => false
    case IndexSlot(i) => parent.Array? && i < |parent.items| && parent.items[i] == child
    case NameSlot(k) =>
      parent.Object? &&
      exists i :: 0 <= i < |parent.members| && parent.members[i].0 == Name(k) &&
                  (parent.members[i].1 == child || child == Text(k))
  }

  /** The slots lead from one datum to another. */
  ghost predicate Leads(from: Data, slots: seq<Slot>, to: Data)
    decreases |slots|
  {
    if slots == [] then from == to
    else exists next :: Edge(from, slots[0], next) && Leads(next, slots[1..], to)
  }

  /** The position after a step, if the step is in place at this position over this datum. */
  ghost function Move(prog: Program, step: Step, data: Data, pos: Position): Option<Position> {
    match step
    case Report(problem) => if pos.Here? && problem.data == data then Some(Here) else None
    case Crash(message) => if pos.Here? && prog.crashes(message) then Some(Here) else None
    case Probe(_, _, combiner) => if pos.Here? && combiner.data == data then Some(Here) else None
    case Call(goal) =>
      if (pos.Here? && goal.1 == data) || (pos.At? && Edge(data, pos.slot, goal.1)) then Some(pos) else None
    case Descend => if pos.Here? then Some(Open) else None
    case Place(slot) => if !pos.Here? && !slot.Unset? then Some(At(slot)) else None
    case Ascend => if !pos.Here? then Some(Here) else None
  }

  ghost predicate Walks(prog: Program, steps: seq<Step>, data: Data, from: Position, to: Position)
    decreases |steps|
  {
    if steps == [] then from == to
    else
      var next := Move(prog, steps[0], data, from);
      next.Some? && Walks(prog, steps[1..], data, next.value, to)
  }

  lemma {:induction false} WalksConcat(
    prog: Program, a: seq<Step>, b: seq<Step>, data: Data, from: Position, mid: Position, to: Position)
    requires Walks(prog, a, data, from, mid) && Walks(prog, b, data, mid, to)
    ensures Walks(prog, a + b, data, from, to)
    decreases |a|
  {
    if a == [] {
      assert a + b == b;
    } else {
      assert (a + b)[0] == a[0] && (a + b)[1..] == a[1..] + b;
      WalksConcat(prog, a[1..], b, data, Move(prog, a[0], data, from).value, mid, to);
    }
  }

  /** Every body is in place over its goal's datum. */
  ghost predicate InPlace(prog: Program) {
    forall goal :: Stays(prog, prog.body(goal), goal.1)
  }

  ghost predicate Stays(prog: Program, steps: seq<Step>, data: Data) {
    Walks(prog, steps, data, Here, Here)
  }
}
