/**
 * The two press controls at the top and bottom edges of a cylinder.
 *
 * A press moves the cylinder's offset one step at once and, while the
 * pointer was over the control when it was pressed, schedules steps that
 * repeat faster and faster until the press ends. Each render of a control
 * has its own variables (`closureOffset`, `rate`, the pending timer); the
 * handlers installed by a press keep using those of the render in which the
 * press happened. The timer is modelled by a flag and its delay: a timer
 * fires when `TimerFires` is called and only then.
 */
module Hilite {
  import opened Js
  import Cylinder

  const StartAuto := 1000.0
  const StartRate := 500.0
  const MinDelay := 100.0
  const ReduceBy := 0.8

  /** One step towards the first item for the top edge, towards the last
      for any other edge. */
  function Direction(edge: string): (d: int)
    ensures d == 1 || d == -1
    ensures d == -1 <==> edge == "top"
  {
    if edge == "top" then -1 else 1
  }

  /** The delay after one more automatic step. */
  function NextRate(rate: real): real {
    Max(rate * ReduceBy, MinDelay)
  }

  /** The value of `rate` after `n` automatic steps. From the first step on
      it is the delay before the next one; the first automatic step itself
      waits `StartAuto`. */
  function RateAfter(n: nat): real {
    if n == 0 then StartRate else NextRate(RateAfter(n - 1))
  }

  /** The delays never grow and never fall below the minimum. */
  lemma {:induction false} RateBounds(n: nat)
    ensures MinDelay <= RateAfter(n) <= StartRate
    ensures RateAfter(n + 1) <= RateAfter(n)
  {
    if n > 0 {
      RateBounds(n - 1);
    }
  }

  /** The delay reaches the minimum at the eighth automatic step and stays
      there; before that it is still above it. */
  lemma {:induction false} RateSettles(n: nat)
    ensures RateAfter(n) == MinDelay <==> n >= 8
  {
    if n > 8 {
      RateSettles(n - 1);
    } else {
      assert RateAfter(1) == 400.0;
      assert RateAfter(2) == 320.0;
      assert RateAfter(3) == 256.0;
      assert RateAfter(4) == 204.8;
      assert RateAfter(5) == 163.84;
      assert RateAfter(6) == 131.072;
      assert RateAfter(7) == 104.8576;
      assert RateAfter(8) == MinDelay;
    }
  }

  /** The event that ends a press: `mouseup` for a mouse press, `touchend`
      for anything else. */
  function PressEnd(eventType: string): (t: string)
    ensures t == "mouseup" <==> eventType == "mousedown"
    ensures t == "mouseup" || t == "touchend"
  {
    if eventType == "mousedown" then "mouseup" else "touchend"
  }

  /** A press starts with a mouse button or a touch. */
  predicate IsPress(eventType: string) {
    eventType == "mousedown" || eventType == "touchstart"
  }

  /** The cylinder's offset, as the setter it hands to its controls updates
      it. As the cylinder is written the setter stores the value it is
      given (`sanitizing` false); the corrected cylinder sanitizes it first
      (`sanitizing` true). */
  class OffsetCell {
    const length: nat
    const sanitizing: bool
    var value: real

    constructor (length: nat, sanitizing: bool, value: real)
      ensures this.length == length && this.sanitizing == sanitizing && this.value == value
    {
      this.length := length;
      this.sanitizing := sanitizing;
      this.value := value;
    }

    /** What the setter stores for the value `x`. */
    function Stored(x: real): real {
      if sanitizing then Cylinder.SanitizedOffset(length, Num(x)) else x
    }

    /** The sanitizing setter only ever stores an offset of at least 0, and
        keeps one that is already at least 0 when there are several items. */
    lemma SanitizedStore(x: real)
      requires sanitizing
      ensures Stored(x) >= 0.0
      ensures length > 1 && x >= 0.0 ==> Stored(x) == x
    {
      Cylinder.SanitizedOffsetProperties(length, Num(x));
    }

    method Set(x: real)
      modifies this
      ensures value == Stored(x)
    {
      if sanitizing {
        value := Cylinder.SanitizeOffset(length, Num(x));
      } else {
        value := x;
      }
    }
  }

  /** The state a control keeps across renders: whether the pointer is over
      it and whether it is pressed, and its two gradients. */
  class Control {
    var hover: bool
    var pressed: bool
    const lite: Value
    const press: Value

    constructor (lite: Value, press: Value)
      ensures !hover && !pressed && this.lite == lite && this.press == press
    {
      hover := false;
      pressed := false;
      this.lite := lite;
      this.press := press;
    }

    /** `mouseenter` sets the hover state; any other event clears it. */
    method TreatHover(eventType: string)
      modifies this
      ensures hover == (eventType == "mouseenter") && pressed == old(pressed)
    {
      hover := eventType == "mouseenter";
    }

    /** The background: the press gradient while hovered and pressed, the
        hover gradient while only hovered, none otherwise. */
    function Background(): (g: Value)
      reads this
      ensures hover && pressed ==> g == press
      ensures hover && !pressed ==> g == lite
      ensures !hover ==> g == Undefined
    {
      if hover then (if pressed then press else lite) else Undefined
    }
  }

  /** The variables of one render of a control, shared by the handlers that
      render creates. */
  class Render {
    const control: Control
    const cell: OffsetCell
    const direction: int
    /** The hover state this render saw. */
    const hover: bool
    var closureOffset: real
    var rate: real
    var timerPending: bool
    var timerDelay: real
    /** Whether the handler that scheduled the timer saw a press. */
    var pressedAtPress: bool
    /** The events on which the release handler listens. */
    var listeners: set<string>

    /** A pending timer was always scheduled by a press, with a delay of at
        least the minimum. */
    predicate Valid()
      reads this
    {
      timerPending ==> pressedAtPress && MinDelay <= timerDelay && MinDelay <= rate <= StartRate
    }

    /** A render starts from the offset and hover state of the moment; no
        timer is pending and no release handler listens. */
    constructor (control: Control, cell: OffsetCell, edge: string)
      ensures this.control == control && this.cell == cell
      ensures direction == Direction(edge) && hover == control.hover
      ensures closureOffset == cell.value && !timerPending && listeners == {}
      ensures Valid()
    {
      this.control := control;
      this.cell := cell;
      direction := Direction(edge);
      hover := control.hover;
      closureOffset := cell.value;
      rate := 0.0;
      timerPending := false;
      timerDelay := 0.0;
      pressedAtPress := false;
      listeners := {};
    }

    /** `treatPress`: sets the pressed state, listens for the end of the
        press, and on a press takes one step at once and schedules the first
        automatic step; anything else cancels the timer. */
    method TreatPress(eventType: string)
      requires Valid()
      modifies this, control, cell
      ensures Valid()
      ensures control.pressed == IsPress(eventType) && control.hover == old(control.hover)
      ensures listeners == old(listeners) + {PressEnd(eventType)}
      ensures pressedAtPress == IsPress(eventType)
      ensures IsPress(eventType) ==>
                closureOffset == old(closureOffset) + direction as real
                && cell.value == cell.Stored(closureOffset)
                && rate == StartRate && timerPending && timerDelay == StartAuto
      ensures !IsPress(eventType) ==>
                closureOffset == old(closureOffset) && cell.value == old(cell.value)
                && rate == old(rate) && !timerPending
    {
      var pressed := IsPress(eventType);
      control.pressed := pressed;
      listeners := listeners + {PressEnd(eventType)};
      pressedAtPress := pressed;
      if pressed {
        closureOffset := closureOffset + direction as real;
        cell.Set(closureOffset);
        timerPending, timerDelay := true, StartAuto;
        rate := StartRate;
      } else {
        timerPending := false;
      }
    }

    /** `autoScroll`, when the pending timer fires: one more step and a
        shorter delay while the press and the hover it saw both held;
        otherwise the timer simply ends. Nothing happens without a pending
        timer. */
    method TimerFires()
      requires Valid()
      modifies this, cell
      ensures Valid()
      ensures listeners == old(listeners) && pressedAtPress == old(pressedAtPress)
      ensures old(timerPending) && pressedAtPress && hover ==>
                closureOffset == old(closureOffset) + direction as real
                && cell.value == cell.Stored(closureOffset)
                && rate == NextRate(old(rate)) && timerPending && timerDelay == rate
      ensures !(old(timerPending) && pressedAtPress && hover) ==>
                closureOffset == old(closureOffset) && cell.value == old(cell.value)
                && rate == old(rate) && !timerPending
    {
      if timerPending {
        timerPending := false;
        if pressedAtPress && hover {
          closureOffset := closureOffset + direction as real;
          cell.Set(closureOffset);
          rate := NextRate(rate);
          timerPending, timerDelay := true, rate;
        }
      }
    }

    /** `release`: clears the pressed state, cancels the timer and stops
        listening for the event that ended the press. */
    method Release(eventType: string)
      requires Valid()
      modifies this, control
      ensures Valid()
      ensures !control.pressed && control.hover == old(control.hover)
      ensures !timerPending && listeners == old(listeners) - {eventType}
      ensures closureOffset == old(closureOffset) && rate == old(rate)
      ensures pressedAtPress == old(pressedAtPress) && timerDelay == old(timerDelay)
    {
      control.pressed := false;
      timerPending := false;
      listeners := listeners - {eventType};
    }
  }

  /** A mouse press held through `n` firings of the timer: `n + 1` steps
      when the pointer was over the control at the press, a single step
      otherwise, after which the timer has ended. */
  method PressAndHold(control: Control, cell: OffsetCell, edge: string, n: nat) returns (r: Render)
    modifies control, cell
    ensures fresh(r) && r.control == control && r.cell == cell && r.Valid()
    ensures r.closureOffset == old(cell.value) + ((if old(control.hover) then n + 1 else 1) * Direction(edge)) as real
    ensures cell.value == cell.Stored(r.closureOffset)
    ensures control.pressed && r.timerPending == (old(control.hover) || n == 0)
    ensures old(control.hover) ==> r.rate == RateAfter(n)
    ensures r.listeners == {"mouseup"}
  {
    r := new Render(control, cell, edge);
    r.TreatPress("mousedown");
    var i := 0;
    while i < n
      invariant 0 <= i <= n && r.Valid()
      invariant r.closureOffset == old(cell.value) + ((if r.hover then i + 1 else 1) * r.direction) as real
      invariant cell.value == cell.Stored(r.closureOffset)
      invariant control.pressed && r.pressedAtPress && r.timerPending == (r.hover || i == 0)
      invariant r.hover ==> r.rate == RateAfter(i)
      invariant r.listeners == {"mouseup"}
    {
      RateBounds(i);
      r.TimerFires();
      i := i + 1;
    }
  }

  /** After the release no firing changes the offset any more. */
  method HoldThenRelease(control: Control, cell: OffsetCell, edge: string, n: nat, m: nat) returns (r: Render)
    modifies control, cell
    ensures r.closureOffset == old(cell.value) + ((if old(control.hover) then n + 1 else 1) * Direction(edge)) as real
    ensures cell.value == cell.Stored(r.closureOffset)
    ensures !control.pressed && !r.timerPending && r.listeners == {}
  {
    r := PressAndHold(control, cell, edge, n);
    r.Release("mouseup");
    var j := 0;
    while j < m
      invariant 0 <= j <= m && r.Valid() && !r.timerPending
      invariant r.closureOffset == old(cell.value) + ((if old(control.hover) then n + 1 else 1) * Direction(edge)) as real
      invariant cell.value == cell.Stored(r.closureOffset)
      invariant !control.pressed && r.listeners == {}
    {
      r.TimerFires();
      j := j + 1;
    }
  }

  /** Holding the top control over a list of 24 items from offset 0 for
      three automatic steps: the setter as written stores -4, for which the
      window holds 30 entries instead of 6; the sanitizing setter stores
      20, and the window is right. */
  method TopHoldWindow<T>(items: seq<T>, sanitizing: bool) returns (offset: real)
    requires |items| == 24
    ensures !sanitizing ==> offset == -4.0 && |Cylinder.WindowOf(items, offset, 8.5).seen| == 30
    ensures sanitizing ==> offset == 20.0 && |Cylinder.WindowOf(items, offset, 8.5).seen| == 6
  {
    var control := new Control(Undefined, Undefined);
    control.TreatHover("mouseenter");
    var cell := new OffsetCell(24, sanitizing, 0.0);
    var r := PressAndHold(control, cell, "top", 3);
    offset := cell.value;
    if sanitizing {
      Cylinder.SanitizedNegativeOffsetWindow(items);
    } else {
      Cylinder.NegativeOffsetWindow(items);
    }
  }
}
