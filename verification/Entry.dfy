/** The laws of the engine at its two entry points, for compiled schemas. */
module Entry {
  import opened Values
  import opened Schema
  import opened Machine
  import opened Keywords
  import opened Laws
  import opened Addressing
  import opened Depth
  import opened Paths
  import opened Simulation

  /**
   `valid?` is true exactly when `validate` completes with no error, false exactly when `validate`
   reports one, and otherwise ends the way `validate` does.
   */
  lemma EntryPointsAgree(w: World, fuel: nat, root: Address, data: Data)
    ensures var loud, quiet := Validate(w, fuel, root, data), Valid(w, fuel, root, data);
            && (quiet.outcome.Finished? && quiet.valid <==> loud.outcome.Finished? && loud.state.events == [])
            && (quiet.outcome.Finished? && !quiet.valid <==> loud.state.events != [])
            && (loud.state.events == [] && !loud.outcome.Finished? ==> quiet.outcome == loud.outcome)
            && quiet.state.context ==
               (if loud.state.events == [] then loud.state.context else loud.state.events[0].context)
  {
    KeywordsInPlace(w);
    AskAgrees(ProgramOf(w), fuel, (root, data));
    AskStopsAtFirstError(ProgramOf(w), fuel, (root, data));
  }

  /** However a call ends, no throw has escaped, the flag is clear again, and `valid?` reported nothing. */
  lemma FlagRestored(w: World, fuel: nat, root: Address, data: Data)
    ensures var loud, quiet := Validate(w, fuel, root, data), Valid(w, fuel, root, data);
            && !loud.outcome.Thrown? && !quiet.outcome.Thrown?
            && !loud.state.quiet && !quiet.state.quiet && quiet.state.events == []
  {
    ExecDisciplined(ProgramOf(w), fuel, Body(w, (root, data)), Fresh());
    IsValidDisciplined(ProgramOf(w), fuel + 1, (root, data), Fresh());
  }

  /**
   The only exceptions are those a leaf check lets escape: `to_path` never finds an unset slot, and
   the depth guard never fires, because a document that reaches it has already left the slot array.
   */
  lemma OnlyLeavesRaise(w: World, fuel: nat, root: Address, data: Data)
    ensures var loud := Validate(w, fuel, root, data);
            loud.outcome.Raised? ==> LeafRaises(w, loud.outcome.message)
    ensures var quiet := Valid(w, fuel, root, data);
            quiet.outcome.Raised? ==> LeafRaises(w, quiet.outcome.message)
  {
    FreshSound();
    KeywordsInPlace(w);
    BodyStays(w, (root, data));
    ExecKept(ProgramOf(w), fuel, Body(w, (root, data)), data, Here, Here, Fresh());
    IsValidKept(ProgramOf(w), fuel + 1, (root, data), Fresh());
  }

  /**
   Every error carries a renderable path that starts at the root, and until some abandoned frame
   has leaked depth the slots after the root lead from the document to the reported datum.
   */
  lemma ErrorPathsLead(w: World, fuel: nat, root: Address, data: Data, k: nat)
    requires k < |Validate(w, fuel, root, data).state.events|
    ensures var e := Validate(w, fuel, root, data).state.events[k];
            && InSlots(e.context) && Renderable(e.context) && e.context.path[0] == NameSlot("#")
            && (e.leaked == 0 ==> Leads(data, e.context.path[1..e.context.depth + 1], e.problem.data))
  {
    FreshSound();
    KeywordsInPlace(w);
    BodyStays(w, (root, data));
    ExecLocated(ProgramOf(w), fuel, Body(w, (root, data)), data, Here, Here, Fresh());
    var r := Validate(w, fuel, root, data);
    assert Located(r.state.events[k], Fresh().context.path, 0, data);
    var here := r.state.events[k].context;
    assert here.path[0] == here.path[..1][0] == Fresh().context.path[..1][0];
  }

  /** A run that completes ends at depth zero plus what abandoned frames leaked. */
  lemma DepthIsLeak(w: World, fuel: nat, root: Address, data: Data)
    ensures var loud := Validate(w, fuel, root, data);
            loud.outcome.Finished? ==> loud.state.context.depth == loud.state.leaked >= 0
    ensures var quiet := Valid(w, fuel, root, data);
            quiet.outcome.Finished? ==> quiet.state.context.depth == quiet.state.leaked >= 0
  {
    FreshSound();
    KeywordsInPlace(w);
    BodyStays(w, (root, data));
    ExecKept(ProgramOf(w), fuel, Body(w, (root, data)), data, Here, Here, Fresh());
    IsValidKept(ProgramOf(w), fuel + 1, (root, data), Fresh());
  }
}
