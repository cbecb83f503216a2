/** The validation context as the engine mutates it, and the reporting of errors. */
module ContextObject {
  import opened Values
  import opened Schema
  import opened Machine
  import opened Bytes

  /** What the block receives. */
  datatype Error = Error(schema: Address, data: Data, path: string, code: string)

  function SlotText(slot: Slot): string {
    match slot
    case Unset => ""
    case NameSlot(name) => name
    case IndexSlot(i) => Decimal(i)
  }

  /** Every slot followed by a slash. */
  function Render(slots: seq<Slot>): string {
    if slots == [] then ""
    else Render(slots[..|slots| - 1]) + SlotText(slots[|slots| - 1]) + "/"
  }

  ghost function Rendered(e: Event): Error {
    Error(e.problem.schema, e.problem.data, Render(RenderedSlots(e.context)), e.problem.code)
  }

  class Context {
    const path: array<Slot>
    var depth: int
    var shortCircuitOnError: bool
    /** The errors the block has been called with. */
    var errors: seq<Error>
    /** History: the same errors with the contexts they were built from, and the depth leaked. */
    ghost var events: seq<Event>
    ghost var leaked: int

    ghost predicate Valid()
      reads this, path
    {
      && path.Length == MAX_CONTEXT_DEPTH
      && |errors| == |events|
      && forall i :: 0 <= i < |errors| ==> errors[i] == Rendered(events[i])
    }

    ghost function Now(): State
      reads this, path
    {
      Machine.State.State(Machine.Context.Context(depth, path[..]), shortCircuitOnError, events, leaked)
    }

    constructor ()
      ensures Valid() && fresh(path) && Now() == Fresh()
    {
      path := new Slot[MAX_CONTEXT_DEPTH];
      depth, shortCircuitOnError, errors, events, leaked := 0, false, [], [], 0;
      new;
      for i := 0 to MAX_CONTEXT_DEPTH
        invariant forall k :: 0 <= k < i ==> path[k] == Unset
        modifies path
      {
        path[i] := Unset;
      }
      path[0] := NameSlot("#");
      assert path[..] == [NameSlot("#")] + seq(MAX_CONTEXT_DEPTH - 1, _ => Unset);
    }

    /** `INCR_CONTEXT`: the depth has moved even when the guard raises. */
    method Incr() returns (o: Outcome)
      requires Valid()
      modifies this`depth
      ensures Valid() && Now() == old(Now()).(context := old(Now()).context.(depth := old(depth) + 1))
      ensures o == if old(depth) >= MAX_CONTEXT_DEPTH then Raised(TOO_DEEP) else Finished
    {
      depth := depth + 1;
      o := if depth > MAX_CONTEXT_DEPTH then Raised(TOO_DEEP) else Finished;
    }

    /** `DECR_CONTEXT`. */
    method Decr()
      requires Valid()
      modifies this`depth
      ensures Valid() && Now() == old(Now()).(context := old(Now()).context.(depth := old(depth) - 1))
    {
      depth := depth - 1;
    }

    /** `ADD_TO_CONTEXT`; a write outside the array is not carried out but reported. */
    method Add(slot: Slot) returns (o: Outcome)
      requires Valid()
      modifies path
      ensures Valid()
      ensures o == if 0 <= old(depth) < MAX_CONTEXT_DEPTH then Finished else OutOfSlots
      ensures Now() == old(Now()).(context := Machine.Context.Context(old(depth),
                if o.Finished? then old(path[..])[old(depth) := slot] else old(path[..])))
    {
      if !(0 <= depth < path.Length) { return OutOfSlots; }
      path[depth] := slot;
      return Finished;
    }

    /** `to_path`: stops at the first slot that holds neither a string nor an integer. */
    method ToPath() returns (o: Outcome, text: string)
      requires Valid()
      ensures var c := Now().context;
        && (o.Finished? <==> Renderable(c) && c.depth < |c.path|)
        && (o.Finished? ==> text == Render(RenderedSlots(c)))
        && (!o.Finished? ==> o == if Renderable(c) then OutOfSlots else Raised(BAD_SLOT))
    {
      text := "";
      var i := 0;
      while i <= depth
        invariant 0 <= i <= MAX_CONTEXT_DEPTH && (0 <= depth ==> i <= depth + 1) && (depth < 0 ==> i == 0)
        invariant Unset !in path[..i]
        invariant text == Render(path[..i])
        decreases depth + 1 - i
      {
        if i == path.Length {
          assert RenderedSlots(Now().context) == path[..i];
          return OutOfSlots, text;
        }
        if path[i].Unset? {
          assert RenderedSlots(Now().context)[i] == Unset;
          return Raised(BAD_SLOT), text;
        }
        assert path[..i + 1] == path[..i] + [path[i]];
        assert path[..i + 1][..i] == path[..i];
        text := text + SlotText(path[i]) + "/";
        i := i + 1;
      }
      assert RenderedSlots(Now().context) == path[..i];
      return Finished, text;
    }

    /** `yield_error`. */
    method YieldError(schema: Address, data: Data, code: string) returns (o: Outcome)
      requires Valid()
      modifies this`errors, this`events
      ensures Valid() && Result(o, Now()) == Emit(Problem(schema, data, code), old(Now()))
    {
      if shortCircuitOnError { return Thrown; }
      var text;
      o, text := ToPath();
      if o.Finished? {
        errors := errors + [Error(schema, data, text, code)];
        events := events + [Event(Problem(schema, data, code), Now().context, leaked)];
      }
    }
  }
}
