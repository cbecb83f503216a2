/**
 The machine behind validation: steps run against the shared context.

 A program gives the steps of a schema applied to a datum; Keywords.dfy builds them from a
 compiled schema. The imperative engine in Validator.dfy is proved equal to this machine.
 */
module Machine {
  import opened Values
  import opened Schema

  const MAX_CONTEXT_DEPTH := 1000
  const TOO_DEEP := "Document is too deep"
  const BAD_SLOT := "Unexpected value while generating the path!"

  datatype Slot = Unset | NameSlot(name: string) | IndexSlot(index: nat)

  /** `Context` without its flag. */
  datatype Context = Context(depth: int, path: seq<Slot>)

  /** The arguments of `yield_error` besides the context. */
  datatype Problem = Problem(schema: Address, data: Data, code: string)

  /** An error handed to the block, with the context (and history) it was built from. */
  datatype Event = Event(problem: Problem, context: Context, leaked: int)

  /**
   The state of a run. `quiet` is `short_circuit_on_error`, `events` is what the block received.
   `leaked` is history only: the depth that frames ended by a throw failed to give back.
   */
  datatype State = State(context: Context, quiet: bool, events: seq<Event>, leaked: int)

  /**
   How a call ends. `Thrown` unwinds to the nearest `is_valid` frame, `Raised` is a Ruby exception.
   `OutOfSlots` marks an access past the path array (the C program is undefined from there on),
   `OutOfFuel` marks a call stack deeper than the fuel.
   */
  datatype Outcome = Finished | Thrown | Raised(message: string) | OutOfSlots | OutOfFuel

  datatype Result = Result(outcome: Outcome, state: State)
  datatype Probed = Probed(outcome: Outcome, valid: bool, state: State)
  datatype Counted = Counted(outcome: Outcome, count: nat, state: State)

  /** A sub-schema applied to a datum. */
  type Goal = (Address, Data)

  /** What to do with the number of valid probes. */
  datatype Combiner =
    | Any(owner: Address, data: Data)
    | One(owner: Address, data: Data)
    | All(owner: Address, data: Data, total: nat)
    | Negation(negated: Address, data: Data)
    | Condition(data: Data, consequent: Option<Address>, alternative: Option<Address>)
    | Occurrences(owner: Address, contained: Address, data: Data, most: Option<Limit>, least: Option<Limit>)

  datatype Step =
    | Report(problem: Problem)
    | Crash(message: string)
    | Call(goal: Goal)
    | Descend
    | Ascend
    | Place(slot: Slot)
    | Probe(goals: seq<Goal>, limit: nat, combiner: Combiner)

  /** The steps of every goal, and the messages of exceptions that its checks may let escape. */
  datatype Program = Program(body: Goal -> seq<Step>, crashes: string -> bool)

  /** What follows a probe: reports, or one more probe and a report if that one is invalid. */
  datatype Follow = Reports(problems: seq<Problem>) | Then(goal: Goal, problem: Problem)

  function Next(c: Combiner, count: nat): Follow {
    match c
    case Any(owner, data) => Reports(if count == 0 then [Problem(owner, data, "anyOf")] else [])
    case One(owner, data) => Reports(if count != 1 then [Problem(owner, data, "oneOf")] else [])
    case All(owner, data, total) => Reports(if count != total then [Problem(owner, data, "allOf")] else [])
    case Negation(negated, data) => Reports(if count == 1 then [Problem(negated, data, "not")] else [])
    case Condition(data, consequent, alternative) =>
      if count == 1 && consequent.Some? then
        Then((consequent.value, data), Problem(consequent.value, data, "if/then"))
      else if count != 1 && alternative.Some? then
        Then((alternative.value, data), Problem(alternative.value, data, "if/else"))
      else Reports([])
    case Occurrences(owner, contained, data, most, least) =>
      Reports(
        (if most.Some? && most.value.Whole? && count > most.value.n
         then [Problem(owner, data, "maxContains")] else []) +
        (if least.Some? && least.value.Whole? then
           if count < least.value.n then [Problem(owner, data, "minContains")] else []
         else if count == 0 then [Problem(contained, data, "contains")] else []))
  }

  // ---------------------------------------------------------------------------------------
  // Running steps
  // ---------------------------------------------------------------------------------------

  predicate InSlots(c: Context) {
    0 <= c.depth < |c.path|
  }

  /** The slots that rendering the data path reads; none if the depth were negative. */
  function RenderedSlots(c: Context): seq<Slot> {
    if c.depth < 0 then [] else if c.depth < |c.path| then c.path[..c.depth + 1] else c.path
  }

  predicate Renderable(c: Context) {
    Unset !in RenderedSlots(c)
  }

  /** `yield_error`. */
  function Emit(problem: Problem, st: State): Result {
    if st.quiet then Result(Thrown, st)
    else if !Renderable(st.context) then Result(Raised(BAD_SLOT), st)
    else if st.context.depth >= |st.context.path| then Result(OutOfSlots, st)
    else Result(Finished, st.(events := st.events + [Event(problem, st.context, st.leaked)]))
  }

  function EmitAll(problems: seq<Problem>, st: State): Result {
    if problems == [] then Result(Finished, st)
    else
      var r := Emit(problems[0], st);
      if r.outcome.Finished? then EmitAll(problems[1..], r.state) else r
  }

  function Exec(prog: Program, fuel: nat, steps: seq<Step>, st: State): Result
    decreases fuel, 3, |steps|
  {
    if steps == [] then Result(Finished, st)
    else
      var r := ExecStep(prog, fuel, steps[0], st);
      if r.outcome.Finished? then Exec(prog, fuel, steps[1..], r.state) else r
  }

  function ExecStep(prog: Program, fuel: nat, step: Step, st: State): Result
    decreases fuel, 2, 0
  {
    match step
    case Report(problem) => Emit(problem, st)
    case Crash(message) => Result(Raised(message), st)
    case Call(goal) => if fuel == 0 then Result(OutOfFuel, st) else Exec(prog, fuel - 1, prog.body(goal), st)
    case Descend =>
      var deeper := st.(context := st.context.(depth := st.context.depth + 1));
      Result(if deeper.context.depth > MAX_CONTEXT_DEPTH then Raised(TOO_DEEP) else Finished, deeper)
    case Ascend => Result(Finished, st.(context := st.context.(depth := st.context.depth - 1)))
    case Place(slot) =>
      if !InSlots(st.context) then Result(OutOfSlots, st)
      else Result(Finished, st.(context := st.context.(path := st.context.path[st.context.depth := slot])))
    case Probe(goals, limit, combiner) =>
      var c := Count(prog, fuel, goals, limit, 0, st);
      if !c.outcome.Finished? then Result(c.outcome, c.state)
      else
        match Next(combiner, c.count)
        case Reports(problems) => EmitAll(problems, c.state)
        case Then(goal, problem) =>
          var p := IsValid(prog, fuel, goal, c.state);
          if !p.outcome.Finished? then Result(p.outcome, p.state)
          else EmitAll(if p.valid then [] else [problem], p.state)
  }

  /** Probes goals from left to right and stops as soon as `limit` of them are valid. */
  function Count(prog: Program, fuel: nat, goals: seq<Goal>, limit: nat, count: nat, st: State): Counted
    decreases fuel, 1, |goals|
  {
    if goals == [] || count == limit then Counted(Finished, count, st)
    else
      var p := IsValid(prog, fuel, goals[0], st);
      if !p.outcome.Finished? then Counted(p.outcome, count, p.state)
      else Count(prog, fuel, goals[1..], limit, if p.valid then count + 1 else count, p.state)
  }

  /** `is_valid`: sets the flag, catches a throw, restores the flag however the body ends. */
  function IsValid(prog: Program, fuel: nat, goal: Goal, st: State): Probed
    decreases fuel, 0, 0
  {
    if fuel == 0 then Probed(OutOfFuel, false, st)
    else
      var r := Exec(prog, fuel - 1, prog.body(goal), st.(quiet := true));
      var back := r.state.(quiet := st.quiet);
      match r.outcome
      case Finished => Probed(Finished, true, back)
      case Thrown =>
        Probed(Finished, false, back.(leaked := st.leaked + back.context.depth - st.context.depth))
      case _ => Probed(r.outcome, false, back)
  }

  /** `create_context`. */
  function Fresh(): State {
    State(Context(0, [NameSlot("#")] + seq(MAX_CONTEXT_DEPTH - 1, _ => Unset)), false, [], 0)
  }

  /** A run from the top whose errors go to the block. */
  function Run(prog: Program, fuel: nat, goal: Goal): Result {
    Exec(prog, fuel, prog.body(goal), Fresh())
  }

  /** A run from the top inside an `is_valid` frame, which costs one more level of fuel. */
  function Ask(prog: Program, fuel: nat, goal: Goal): Probed {
    IsValid(prog, fuel + 1, goal, Fresh())
  }
}
