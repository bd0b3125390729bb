/**
 * The behaviour of a button square as transitions on its local state: the pressed flag and the
 * outgoing charge that linked squares read. The imperative hooks of Squares.Square are proved
 * to perform exactly these transitions.
 */
module ButtonSquare {

  /** `chargeUpdates` counts the calls of UpdateOutgoingCharge, one per write of IsPressed. */
  datatype ButtonState = ButtonState(pressed: bool, charge: bool, chargeUpdates: nat)

  /** A freshly instantiated button: not pressed, no charge, no update yet. */
  const Initial: ButtonState := ButtonState(false, false, 0)

  /** The charge a button publishes is a function of its pressed flag alone. */
  function RecalculateCharge(b: ButtonState): bool {
    b.pressed
  }

  function UpdateOutgoingCharge(b: ButtonState): ButtonState {
    b.(charge := RecalculateCharge(b), chargeUpdates := b.chargeUpdates + 1)
  }

  predicate ChargeConsistent(b: ButtonState) {
    b.charge == b.pressed
  }

  /** The IsPressed setter: stores the flag, then recomputes and publishes the charge. */
  function SetPressed(b: ButtonState, value: bool): (r: ButtonState)
    ensures r.pressed == value && ChargeConsistent(r)
    ensures r.chargeUpdates == b.chargeUpdates + 1
  {
    UpdateOutgoingCharge(b.(pressed := value))
  }

  function OnPlayerLand(b: ButtonState): (r: ButtonState)
    ensures r.pressed && r.charge
  {
    SetPressed(b, true)
  }

  function OnPlayerLeave(b: ButtonState): (r: ButtonState)
    ensures !r.pressed && !r.charge
  {
    SetPressed(b, false)
  }

  /** A button is always passable; its passability setter only warns. */
  const IsPassable: bool := true

  /** Landing twice leaves the button as pressed as landing once. */
  lemma LandIdempotent(b: ButtonState)
    ensures OnPlayerLand(OnPlayerLand(b)).pressed == OnPlayerLand(b).pressed
    ensures OnPlayerLand(OnPlayerLand(b)).charge == OnPlayerLand(b).charge
  {
  }

  /** Land then leave returns to the not-pressed, uncharged state of a fresh button. */
  lemma LandThenLeave(b: ButtonState)
    ensures OnPlayerLeave(OnPlayerLand(b)).pressed == Initial.pressed
    ensures OnPlayerLeave(OnPlayerLand(b)).charge == Initial.charge
  {
  }
}
