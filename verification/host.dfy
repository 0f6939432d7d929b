/** The control as its host drives it: one input is a pointer or wheel event
    or a call of a public property setter or stepper, and a run is a
    sequence of inputs. An exception escaping a setter reaches the host,
    which carries on with the widget as the call left it. Notifications are
    an output trace: subscribers are taken not to call back into the
    control. */
module Host {
  import opened Widgets
  import ValueModel
  import Appearance
  import Interaction

  datatype Input =
    | Move(at: Point, rects: ThumbRects, proj: Interaction.Projection)
    | Down(at: Point, rects: ThumbRects)
    | Up
    | Wheel(delta: int)
    | Leave(at: Point, rects: ThumbRects)
    | IncLeft
    | IncRight
    | DecLeft
    | DecRight
    | AssignLeft(v: int)
    | AssignRight(v: int)
    | AssignMinimum(v: int)
    | AssignMaximum(v: int)
    | AssignSmallChange(v: int)
    | AssignTickStyle(ts: TickStyle)
    | AssignOrientation(o: Orientation)
    | AssignLeftDirection(d: Direction)
    | AssignRightDirection(d: Direction)

  /** Pointer, wheel and stepper inputs: those the user drives. */
  predicate Interactive(i: Input) {
    i.Move? || i.Down? || i.Up? || i.Wheel? || i.Leave? || i.IncLeft? || i.IncRight? || i.DecLeft? || i.DecRight?
  }

  /** One input, with the move handler that drops an unconvertible drag.
      Interactive inputs never throw; a valid widget stays valid and every
      input raises whole notification pairs only. */
  function Handle(w: Widget, i: Input): (r: Outcome)
    ensures Interactive(i) ==> r.Ok?
    ensures Valid(w) ==> Valid(r.w)
    ensures WellPaired(r.events)
  {
    match i
    case Move(p, rects, proj) => Interaction.MouseMove(w, p, rects, proj)
    case Down(p, rects) => Interaction.MouseDown(w, p, rects)
    case Up => Ok(Interaction.MouseUp(w), [])
    case Wheel(delta) => Interaction.MouseWheel(w, delta)
    case Leave(p, rects) => Ok(Interaction.MouseLeave(w, p, rects), [])
    case IncLeft => ValueModel.IncrementLeft(w)
    case IncRight => ValueModel.IncrementRight(w)
    case DecLeft => ValueModel.DecrementLeft(w)
    case DecRight => ValueModel.DecrementRight(w)
    case AssignLeft(v) => ValueModel.SetValueLeft(w, v)
    case AssignRight(v) => ValueModel.SetValueRight(w, v)
    case AssignMinimum(v) => ValueModel.SetMinimum(w, v)
    case AssignMaximum(v) => ValueModel.SetMaximum(w, v)
    case AssignSmallChange(v) => ValueModel.SetSmallChange(w, v)
    case AssignTickStyle(ts) => Ok(Appearance.SetTickStyle(w, ts), [])
    case AssignOrientation(o) => Ok(Appearance.SetOrientation(w, o), [])
    case AssignLeftDirection(d) => Ok(Appearance.SetLeftDirection(w, d), [])
    case AssignRightDirection(d) => Ok(Appearance.SetRightDirection(w, d), [])
  }

  /** A run: the final widget and every notification raised, in order. */
  function Run(w: Widget, inputs: seq<Input>): (Widget, seq<Change>)
    decreases |inputs|
  {
    if inputs == [] then (w, [])
    else
      var first := Handle(w, inputs[0]);
      var rest := Run(first.w, inputs[1..]);
      (rest.0, first.events + rest.1)
  }

  /** Every run from a valid widget ends valid, and its notifications come
      in pairs, each `ValueChanged` directly followed by `LeftValueChanged`
      or `RightValueChanged`. The bound setters in a run are the checked
      ones, which reject before storing anything. */
  lemma {:induction false} RunKeepsValid(w: Widget, inputs: seq<Input>)
    requires Valid(w)
    ensures Valid(Run(w, inputs).0)
    ensures WellPaired(Run(w, inputs).1)
    decreases |inputs|
  {
    if inputs != [] {
      var first := Handle(w, inputs[0]);
      RunKeepsValid(first.w, inputs[1..]);
      WellPairedConcat(first.events, Run(first.w, inputs[1..]).1);
    }
  }

  /** A run of interactive inputs never throws at any step. */
  predicate NeverThrows(w: Widget, inputs: seq<Input>)
    decreases |inputs|
  {
    inputs == [] || (Handle(w, inputs[0]).Ok? && NeverThrows(Handle(w, inputs[0]).w, inputs[1..]))
  }

  lemma {:induction false} InteractiveRunNeverThrows(w: Widget, inputs: seq<Input>)
    requires forall k :: 0 <= k < |inputs| ==> Interactive(inputs[k])
    ensures NeverThrows(w, inputs)
    decreases |inputs|
  {
    if inputs != [] {
      InteractiveRunNeverThrows(Handle(w, inputs[0]).w, inputs[1..]);
    }
  }
}
