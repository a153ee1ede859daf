/**
 The pointer events of clntconn.c: the buttons are kept in a mask, and a step of the wheel is a
 press and a release of button 4 or 5, as section 7.5.5 of RFC 6143 asks for.
*/
module Mouse {

  // RFBBUTTON_xxx
  const PRESSED: bv32 := 0x0100
  const LEFT: bv32 := 1
  const RIGHT: bv32 := 2
  const MIDDLE: bv32 := 3
  const WHEEL_DOWN: bv32 := 5

  const WHEELS: bv8 := 0x18

  /** A message of the window, and whether the connection is for viewing only and is ready. */
  datatype MouseEvent = MouseEvent(x: int, y: int, height: int, button: bv32, viewOnly: bool, ready: bool) {
    predicate Accepted() { !viewOnly && ready }
  }

  /** A PointerEvent message. */
  datatype Pointer = Pointer(x: int, y: int, mask: bv8)

  function Code(b: bv32): bv32 { b & !PRESSED }
  predicate IsPress(b: bv32) { b & PRESSED != 0 }

  /** The bit of the button; any other code is the wheel turned up. */
  function Bit(b: bv32): bv8 {
    if Code(b) == LEFT then 0x01
    else if Code(b) == RIGHT then 0x04
    else if Code(b) == MIDDLE then 0x02
    else if Code(b) == WHEEL_DOWN then 0x10
    else 0x08
  }

  predicate WheelStep(e: MouseEvent) {
    e.button != 0 && IsPress(e.button) && Bit(e.button) & WHEELS != 0
  }

  // --- What should be sent ------------------------------------------------------------

  /** The latest accepted event of the button was a press. */
  predicate Down(es: seq<MouseEvent>, bit: bv8) {
    es != [] &&
    var e := es[|es| - 1];
    if e.Accepted() && e.button != 0 && Bit(e.button) == bit then IsPress(e.button) else Down(es[..|es| - 1], bit)
  }

  function Held(es: seq<MouseEvent>): bv8 {
    (if Down(es, 0x01) then 0x01 else 0) | (if Down(es, 0x02) then 0x02 else 0) | (if Down(es, 0x04) then 0x04 else 0)
  }

  /** The messages for one event when the ordinary buttons held are h: a step of the wheel is
      sent as a press and its release. */
  function Messages(e: MouseEvent, h: bv8): seq<Pointer> {
    var now := Pointer(e.x, e.height - e.y - 1, h);
    if WheelStep(e) then [now.(mask := h | Bit(e.button)), now] else [now]
  }

  /** All messages for the events. */
  function Expected(es: seq<MouseEvent>): seq<Pointer> {
    if es == [] then []
    else
      var e := es[|es| - 1];
      Expected(es[..|es| - 1]) + if e.Accepted() then Messages(e, Held(es)) else []
  }

  lemma HeldOrdinary(es: seq<MouseEvent>)
    ensures Held(es) & WHEELS == 0
  {
  }

  /** The bit operations of one event on the mask. */
  function Update(mask: bv8, b: bv32): bv8 {
    if b == 0 then mask else if IsPress(b) then mask | Bit(b) else mask & !Bit(b)
  }

  lemma UpdateHeld(es: seq<MouseEvent>, e: MouseEvent)
    requires e.Accepted()
    ensures Update(Held(es), e.button) == Held(es + [e]) | (if WheelStep(e) then Bit(e.button) else 0)
    ensures Update(Held(es), e.button) & WHEELS != 0 <==> WheelStep(e)
    ensures Update(Held(es), e.button) & !WHEELS == Held(es + [e])
  {
    assert (es + [e])[..|es|] == es;
    HeldOrdinary(es);
    HeldOrdinary(es + [e]);
  }

  /** What the mask makes of one event are the messages for it. */
  lemma SentMessages(es: seq<MouseEvent>, e: MouseEvent)
    requires e.Accepted()
    ensures
      var m := Update(Held(es), e.button);
      var p := Pointer(e.x, e.height - e.y - 1, m);
      && Held(es + [e]) == m & !WHEELS
      && (m & WHEELS == 0 ==> m == Held(es + [e]))
      && Messages(e, Held(es + [e])) == [p] + if m & WHEELS != 0 then [p.(mask := m & !WHEELS)] else []
  {
    UpdateHeld(es, e);
  }

  // --- The input state of a connection ------------------------------------------------

  class Input {
    var iRFBButtons: bv8
    var sent: seq<Pointer>
    ghost var events: seq<MouseEvent>

    ghost predicate Valid()
      reads this
    {
      iRFBButtons == Held(events) && sent == Expected(events)
    }

    constructor ()
      ensures Valid() && events == []
    {
      iRFBButtons, sent, events := 0, [], [];
    }

    method SendPointerEvent(x: int, y: int)
      modifies this`sent
      ensures sent == old(sent) + [Pointer(x, y, iRFBButtons)]
    {
      sent := sent + [Pointer(x, y, iRFBButtons)];
    }

    method SetButton(b: bv32)
      modifies this`iRFBButtons
      ensures iRFBButtons == Update(old(iRFBButtons), b)
    {
      if b != 0 {
        if IsPress(b) {
          iRFBButtons := iRFBButtons | Bit(b);
        } else {
          iRFBButtons := iRFBButtons & !Bit(b);
        }
      }
    }

    /** ccSendMouseEvent. */
    method SendMouseEvent(e: MouseEvent)
      requires Valid()
      modifies this
      ensures Valid() && events == old(events) + [e]
    {
      ghost var es := events;
      ExpectedMore(es, e);
      if e.Accepted() {
        SentMessages(es, e);
        SetButton(e.button);
        var y := e.height - e.y - 1;
        SendPointerEvent(e.x, y);
        if iRFBButtons & WHEELS != 0 {
          iRFBButtons := iRFBButtons & !WHEELS;
          SendPointerEvent(e.x, y);
        }
      }
      events := es + [e];
    }
  }

  // --- What the messages mean ---------------------------------------------------------

  /** A message with a wheel button is followed at once by its release at the same place. */
  predicate Clicked(sent: seq<Pointer>) {
    forall i {:trigger sent[i]} | 0 <= i < |sent| && sent[i].mask & WHEELS != 0 ::
      i + 1 < |sent| && sent[i + 1] == sent[i].(mask := sent[i].mask & !WHEELS)
  }

  lemma ClickedMore(sent: seq<Pointer>, e: MouseEvent, h: bv8)
    requires Clicked(sent) && h & WHEELS == 0
    ensures Clicked(sent + Messages(e, h))
  {
    var all := sent + Messages(e, h);
    assert WheelStep(e) ==> (h | Bit(e.button)) & !WHEELS == h;
    forall i | 0 <= i < |all| && all[i].mask & WHEELS != 0
      ensures i + 1 < |all| && all[i + 1] == all[i].(mask := all[i].mask & !WHEELS)
    {
      if i < |sent| { assert all[i] == sent[i]; }
    }
  }

  lemma ExpectedMore(es: seq<MouseEvent>, e: MouseEvent)
    ensures Expected(es + [e]) == Expected(es) + if e.Accepted() then Messages(e, Held(es + [e])) else []
    ensures !e.Accepted() ==> Held(es + [e]) == Held(es)
  {
    assert (es + [e])[..|es|] == es;
  }

  /** The last message shows exactly the ordinary buttons that are held down, and steps of the
      wheel are clicked at once. */
  lemma {:induction false} LastShowsHeldButtons(es: seq<MouseEvent>)
    ensures var sent := Expected(es);
      && (sent != [] ==> sent[|sent| - 1].mask == Held(es))
      && (sent == [] ==> Held(es) == 0)
      && Clicked(sent)
  {
    if es != [] {
      var before, e := es[..|es| - 1], es[|es| - 1];
      assert es == before + [e];
      LastShowsHeldButtons(before);
      HeldOrdinary(es);
      ExpectedMore(before, e);
      ClickedMore(Expected(before), e, Held(es));
    }
  }

  // --- Which button is which ------------------------------------------------------------

  /** The latest event that the connection took about the button with this code was a press. */
  predicate IsDown(es: seq<MouseEvent>, code: bv32) {
    es != [] &&
    var e := es[|es| - 1];
    if !e.viewOnly && e.ready && e.button != 0 && e.button & 0xFFFF_FEFF == code then e.button & 0x100 == 0x100
    else IsDown(es[..|es| - 1], code)
  }

  lemma CodeIs(b: bv32)
    ensures Code(b) == b & 0xFFFF_FEFF
  {
  }

  lemma PressIs(b: bv32)
    ensures IsPress(b) <==> b & 0x100 == 0x100
  {
  }

  lemma BitIsButton(b: bv32)
    ensures b & 0xFFFF_FEFF == 1 <==> Bit(b) == 1
    ensures b & 0xFFFF_FEFF == 2 <==> Bit(b) == 4
    ensures b & 0xFFFF_FEFF == 3 <==> Bit(b) == 2
    ensures b & 0xFFFF_FEFF == 5 <==> Bit(b) == 0x10
    ensures IsPress(b) <==> b & 0x100 == 0x100
  {
    CodeIs(b);
    PressIs(b);
  }

  lemma {:induction false} DownIsButton(es: seq<MouseEvent>)
    ensures Down(es, 0x01) == IsDown(es, 1) && Down(es, 0x02) == IsDown(es, 3) && Down(es, 0x04) == IsDown(es, 2)
  {
    if es != [] {
      BitIsButton(es[|es| - 1].button);
      DownIsButton(es[..|es| - 1]);
    }
  }

  lemma BitsHeld(a: bool, b: bool, c: bool)
    ensures var m: bv8 := (if a then 0x01 else 0) | (if b then 0x02 else 0) | (if c then 0x04 else 0);
            (m & 1 != 0 <==> a) && (m & 2 != 0 <==> b) && (m & 4 != 0 <==> c) && m & 0xF8 == 0
  {
  }

  /** In the last message bit 0 stands for the left button, whose code is 1, bit 1 for the middle
      one, code 3, and bit 2 for the right one, code 2, and no other bit is set. */
  lemma LastShowsButtons(es: seq<MouseEvent>)
    requires Expected(es) != []
    ensures var mask := Expected(es)[|Expected(es)| - 1].mask;
      && (mask & 1 != 0 <==> IsDown(es, 1))
      && (mask & 2 != 0 <==> IsDown(es, 3))
      && (mask & 4 != 0 <==> IsDown(es, 2))
      && mask & 0xF8 == 0
  {
    LastShowsHeldButtons(es);
    DownIsButton(es);
    BitsHeld(Down(es, 0x01), Down(es, 0x02), Down(es, 0x04));
  }

  /** The wheel bit that an event presses: bit 4 for the wheel turned down, code 5, and bit 3 for
      any press of no ordinary button. */
  function WheelBit(b: bv32): bv8 {
    if b & 0x100 != 0x100 || b & 0xFFFF_FEFF in {1, 2, 3} then 0
    else if b & 0xFFFF_FEFF == 5 then 0x10
    else 0x08
  }

  lemma WheelIsBit(b: bv32)
    ensures WheelBit(b) == if b != 0 && IsPress(b) && Bit(b) & WHEELS != 0 then Bit(b) else 0
  {
    BitIsButton(b);
    assert b == 0 ==> b & 0x100 == 0;
  }

  lemma WheelMasks(h: bv8, w: bv8)
    requires h & WHEELS == 0 && (w == 0x08 || w == 0x10)
    ensures (h | w) & 0x18 == w && (h | w) & 0x07 == h & 0x07 && (h | w) != h
  {
  }

  /** What an event sends: nothing while the connection is not ready or for viewing only, else one
      message where the mouse is, the picture being upside down, and for a step of the wheel one
      before it at the same place in which just the bit of that step is set in addition. */
  lemma EventSends(es: seq<MouseEvent>, e: MouseEvent)
    ensures var before, all := Expected(es), Expected(es + [e]); var w := WheelBit(e.button);
      if e.viewOnly || !e.ready then all == before
      else
        && |all| == |before| + (if w == 0 then 1 else 2) && before <= all
        && (forall i | |before| <= i < |all| :: all[i].x == e.x && all[i].y == e.height - e.y - 1)
        && (forall i | |before| <= i < |all| :: all[i].mask & 0x07 == all[|all| - 1].mask & 0x07)
        && all[|all| - 1].mask & 0x18 == 0
        && (w != 0 ==> all[|before|].mask & 0x18 == w)
  {
    ExpectedMore(es, e);
    HeldOrdinary(es + [e]);
    WheelIsBit(e.button);
    if WheelStep(e) { WheelMasks(Held(es + [e]), Bit(e.button)); }
  }
}
