/** The edge-triggered keyboard latch. For each of the two steering keys
    (KeyA steers left, KeyD steers right) it keeps a "held" flag, which
    follows the key, and a "pressed" flag, which is armed when the key goes
    down while it was not held and is cleared when the frame loop reads it.
    Registering the listeners with the document and suppressing the
    browser's default action are not modelled. */
module Input {

  /** The `code` of any key other than the two steering keys. */
  type OtherCode = c: string | c != "KeyA" && c != "KeyD" witness "Space"

  /** The `code` of a keyboard event: a steering key, or any other key
      (whose code is then neither "KeyA" nor "KeyD"). */
  datatype KeyCode = KeyA | KeyD | OtherKey(code: OtherCode)

  /** A left/right pair of flags: the shape of `keys`, of `keyPressed` and
      of the snapshot handed to the game every frame. */
  datatype Flags = Flags(left: bool, right: bool)

  const NoFlags := Flags(false, false)

  /** The handler's whole state: held keys and armed presses. */
  datatype Latches = Latches(keys: Flags, keyPressed: Flags)

  const InitialLatches := Latches(NoFlags, NoFlags)

  /** A keydown event. A press is armed only when the key was not already
      held, so the keyboard's auto-repeat while the key stays down arms
      nothing. */
  function KeyDown(s: Latches, code: KeyCode): (r: Latches)
    ensures code.OtherKey? ==> r == s
    ensures code == KeyA ==> r.keys.left && r.keys.right == s.keys.right
    ensures code == KeyA ==> r.keyPressed.right == s.keyPressed.right
    ensures code == KeyA ==> (r.keyPressed.left <==> s.keyPressed.left || !s.keys.left)
    ensures code == KeyD ==> r.keys.right && r.keys.left == s.keys.left
    ensures code == KeyD ==> r.keyPressed.left == s.keyPressed.left
    ensures code == KeyD ==> (r.keyPressed.right <==> s.keyPressed.right || !s.keys.right)
  {
    match code
    case KeyA =>
      var pressed := if !s.keys.left then s.keyPressed.(left := true) else s.keyPressed;
      Latches(s.keys.(left := true), pressed)
    case KeyD =>
      var pressed := if !s.keys.right then s.keyPressed.(right := true) else s.keyPressed;
      Latches(s.keys.(right := true), pressed)
    case OtherKey(_) => s
  }

  /** A keyup event: it releases the held flag of its key and leaves every
      armed press alone, so the next keydown of that key arms again. */
  function KeyUp(s: Latches, code: KeyCode): (r: Latches)
    ensures r.keyPressed == s.keyPressed
    ensures code.OtherKey? ==> r == s
    ensures code == KeyA ==> !r.keys.left && r.keys.right == s.keys.right
    ensures code == KeyD ==> !r.keys.right && r.keys.left == s.keys.left
  {
    match code
    case KeyA => s.(keys := s.keys.(left := false))
    case KeyD => s.(keys := s.keys.(right := false))
    case OtherKey(_) => s
  }

  /** What reading the input does to the latches: the presses are disarmed
      and the held keys are kept. */
  function Consumed(s: Latches): (r: Latches)
    ensures r.keys == s.keys && r.keyPressed == NoFlags
  {
    s.(keyPressed := NoFlags)
  }

  /** One thing that can happen to the handler between two frames or at a
      frame: a key event, or the frame loop reading the input. */
  datatype Event = Down(code: KeyCode) | Up(code: KeyCode) | Poll

  function Step(s: Latches, e: Event): Latches {
    match e
    case Down(c) => KeyDown(s, c)
    case Up(c) => KeyUp(s, c)
    case Poll => Consumed(s)
  }

  function Replay(s: Latches, events: seq<Event>): Latches
    decreases |events|
  {
    if events == [] then s else Replay(Step(s, events[0]), events[1..])
  }

  predicate ReleasesA(e: Event) {
    e.Up? && e.code == KeyA
  }

  predicate TouchesD(e: Event) {
    (e.Down? || e.Up?) && e.code == KeyD
  }

  /** While KeyA stays held, no amount of auto-repeated keydowns and polls
      arms a left press that was not already armed. */
  lemma {:induction false} HeldKeyIsNotRearmed(s: Latches, events: seq<Event>)
    requires s.keys.left
    requires forall k :: 0 <= k < |events| ==> !ReleasesA(events[k])
    ensures Replay(s, events).keys.left
    ensures Replay(s, events).keyPressed.left ==> s.keyPressed.left
    decreases |events|
  {
    if events != [] {
      assert !ReleasesA(events[0]);
      var s' := Step(s, events[0]);
      assert s'.keyPressed.left ==> s.keyPressed.left;
      HeldKeyIsNotRearmed(s', events[1..]);
    }
  }

  /** Releasing a key and pressing it again arms a press, whatever the key
      did before; the armed press is reported by the next poll only. */
  lemma ReleaseThenPressRearms(s: Latches)
    ensures Replay(s, [Up(KeyA), Down(KeyA)]).keyPressed.left
    ensures Replay(s, [Up(KeyD), Down(KeyD)]).keyPressed.right
    ensures Replay(s, [Up(KeyA), Down(KeyA), Poll]).keyPressed == NoFlags
  {
    assert [Up(KeyA), Down(KeyA)][1..] == [Down(KeyA)];
    assert [Up(KeyD), Down(KeyD)][1..] == [Down(KeyD)];
    assert [Up(KeyA), Down(KeyA), Poll][1..] == [Down(KeyA), Poll];
    assert [Down(KeyA), Poll][1..] == [Poll];
  }

  /** Events that never mention KeyD leave the right-hand held flag as it
      was and never arm a right press; a poll may only disarm one, so
      without polls the right press is kept exactly. */
  lemma {:induction false} LeftEventsKeepRightFlags(s: Latches, events: seq<Event>)
    requires forall k :: 0 <= k < |events| ==> !TouchesD(events[k])
    ensures Replay(s, events).keys.right == s.keys.right
    ensures Replay(s, events).keyPressed.right ==> s.keyPressed.right
    ensures (forall k :: 0 <= k < |events| ==> !events[k].Poll?) ==>
      Replay(s, events).keyPressed.right == s.keyPressed.right
    decreases |events|
  {
    if events != [] {
      assert !TouchesD(events[0]);
      LeftEventsKeepRightFlags(Step(s, events[0]), events[1..]);
      if forall k :: 0 <= k < |events| ==> !events[k].Poll? {
        assert !events[0].Poll?;
        assert forall k :: 0 <= k < |events[1..]| ==> !events[1..][k].Poll? by {
          forall k | 0 <= k < |events[1..]|
            ensures !events[1..][k].Poll?
          {
            assert events[1..][k] == events[k + 1];
          }
        }
      }
    }
  }

  /** The handler as the page owns it. */
  class InputHandler {
    var keys: Flags
    var keyPressed: Flags

    function State(): Latches
      reads this
    {
      Latches(keys, keyPressed)
    }

    /** Every flag starts cleared. */
    constructor ()
      ensures State() == InitialLatches
      ensures !keys.left && !keys.right && !keyPressed.left && !keyPressed.right
    {
      keys := NoFlags;
      keyPressed := NoFlags;
    }

    method HandleKeyDown(code: KeyCode)
      modifies this
      ensures State() == KeyDown(old(State()), code)
    {
      match code {
        case KeyA =>
          if !keys.left {
            keyPressed := keyPressed.(left := true);
          }
          keys := keys.(left := true);
        case KeyD =>
          if !keys.right {
            keyPressed := keyPressed.(right := true);
          }
          keys := keys.(right := true);
        case OtherKey(_) =>
      }
    }

    method HandleKeyUp(code: KeyCode)
      modifies this
      ensures State() == KeyUp(old(State()), code)
    {
      match code {
        case KeyA => keys := keys.(left := false);
        case KeyD => keys := keys.(right := false);
        case OtherKey(_) =>
      }
    }

    /** Reports the armed presses and disarms them, so an immediate second
        call reports neither. */
    method GetInput() returns (input: Flags)
      modifies this
      ensures input == old(keyPressed)
      ensures State() == Consumed(old(State()))
    {
      input := Flags(keyPressed.left, keyPressed.right);
      keyPressed := Flags(false, false);
    }
  }

  /** Two reads in a row: the second one reports nothing. */
  method GetInputTwice(h: InputHandler) returns (first: Flags, second: Flags)
    modifies h
    ensures first == old(h.keyPressed) && second == NoFlags
    ensures h.keys == old(h.keys)
  {
    first := h.GetInput();
    second := h.GetInput();
  }
}
