/**
 * The input dispatcher of client/x2webrtc/input.py.
 *
 * `InputHandler` owns an optional target window and turns decoded events into
 * synthetic pointer input on it: motion at window-relative coordinates shifted
 * by the window's current origin, button presses and releases carrying the
 * button's native code. `Send` replays a batch in order and a failure of one
 * event does not stop the rest.
 *
 * The window is a fake that records every accepted injection in a ghost log.
 * Its display server may refuse an injection (`rejects`), and its geometry
 * query may fail (`geometry == None`); both are how `fake_input` and `rect`
 * raise, and a raised call appends nothing.
 */
module Input {
  import opened Wrappers
  import opened Models

  /** The `Rectangle` record of a window's geometry. */
  datatype Rectangle = Rectangle(x: int, y: int, width: int, height: int)

  /** One synthetic input event as `fake_input` delivers it. */
  datatype Injection =
    | MotionNotify(x: int, y: int)
    | ButtonPress(code: int)
    | ButtonRelease(code: int)

  class Window {
    /** The answer of the geometry query; `None` when the query raises. */
    var geometry: Option<Rectangle>
    /** The injections the display server refuses, making `fake_input` raise. */
    var rejects: Injection -> bool
    /** Every injection accepted so far, in order. */
    var injected: seq<Injection>

    constructor (geometry: Option<Rectangle>, rejects: Injection -> bool)
      ensures this.geometry == geometry && this.rejects == rejects && injected == []
    {
      this.geometry := geometry;
      this.rejects := rejects;
      injected := [];
    }

    /** `fake_input`: delivers `inj` unless the display server refuses it. */
    method FakeInput(inj: Injection) returns (ok: bool)
      modifies this`injected
      ensures ok == !rejects(inj)
      ensures injected == old(injected) + Attempt(inj, rejects)
    {
      ok := !rejects(inj);
      if ok {
        injected := injected + [inj];
      }
    }
  }

  /** What one call of `fake_input` appends: the injection, or nothing when it raises. */
  function Attempt(inj: Injection, rejects: Injection -> bool): seq<Injection> {
    if rejects(inj) then [] else [inj]
  }

  /** `_translate_coords_from_root`: window-relative coordinates shifted by the window's origin. */
  function TranslateCoords(x: int, y: int, rect: Rectangle): (p: (int, int))
    ensures p.0 - rect.x == x && p.1 - rect.y == y
  {
    (x + rect.x, y + rect.y)
  }

  /**
   * The motion `move_to` injects on a target with geometry `geometry`: none
   * when a relative move cannot read the geometry.
   */
  function MotionFor(x: int, y: int, relative: bool, geometry: Option<Rectangle>): Option<Injection> {
    if !relative then Some(MotionNotify(x, y))
    else if geometry.None? then None
    else
      var p := TranslateCoords(x, y, geometry.value);
      Some(MotionNotify(p.0, p.1))
  }

  /** What `move_to` appends to the target's log. */
  function MoveEffect(x: int, y: int, relative: bool, geometry: Option<Rectangle>, rejects: Injection -> bool): seq<Injection> {
    match MotionFor(x, y, relative, geometry)
    case None => []
    case Some(inj) => Attempt(inj, rejects)
  }

  /** What `send` appends for one event: moves are always relative; UP releases, DOWN presses. */
  function EventEffect(ev: Event, geometry: Option<Rectangle>, rejects: Injection -> bool, native: MouseButtonKind -> int): seq<Injection> {
    match ev
    case MouseMoveEvent(x, y) => MoveEffect(x, y, true, geometry, rejects)
    case MouseButtonEvent(b, ButtonUp) => Attempt(ButtonRelease(native(b)), rejects)
    case MouseButtonEvent(b, ButtonDown) => Attempt(ButtonPress(native(b)), rejects)
  }

  /** What `send` appends for a batch: each event's effect, in order. */
  function SendEffect(events: seq<Event>, geometry: Option<Rectangle>, rejects: Injection -> bool, native: MouseButtonKind -> int): seq<Injection>
    decreases |events|
  {
    if events == [] then []
    else EventEffect(events[0], geometry, rejects, native) + SendEffect(events[1..], geometry, rejects, native)
  }

  /** The injection an event stands for when nothing fails. */
  function IntendedInjection(ev: Event, rect: Rectangle, native: MouseButtonKind -> int): Injection {
    match ev
    case MouseMoveEvent(x, y) => MotionNotify(x + rect.x, y + rect.y)
    case MouseButtonEvent(b, ButtonUp) => ButtonRelease(native(b))
    case MouseButtonEvent(b, ButtonDown) => ButtonPress(native(b))
  }

  /** Replaying two batches one after the other has the effect of replaying their concatenation. */
  lemma {:induction false} SendEffectAppend(xs: seq<Event>, ys: seq<Event>, geometry: Option<Rectangle>, rejects: Injection -> bool, native: MouseButtonKind -> int)
    ensures SendEffect(xs + ys, geometry, rejects, native) ==
            SendEffect(xs, geometry, rejects, native) + SendEffect(ys, geometry, rejects, native)
    decreases |xs|
  {
    if xs != [] {
      assert (xs + ys)[1..] == xs[1..] + ys;
      SendEffectAppend(xs[1..], ys, geometry, rejects, native);
    } else {
      assert xs + ys == ys;
    }
  }

  /**
   * Failure isolation: an event that fails contributes nothing, and the
   * events around it are replayed exactly as if it were absent.
   */
  lemma FailedEventIsSkipped(events: seq<Event>, i: nat, geometry: Option<Rectangle>, rejects: Injection -> bool, native: MouseButtonKind -> int)
    requires i < |events|
    requires EventEffect(events[i], geometry, rejects, native) == []
    ensures SendEffect(events, geometry, rejects, native) ==
            SendEffect(events[..i] + events[i + 1..], geometry, rejects, native)
  {
    assert events == events[..i] + ([events[i]] + events[i + 1..]);
    SendEffectAppend(events[..i], [events[i]] + events[i + 1..], geometry, rejects, native);
    SendEffectAppend(events[..i], events[i + 1..], geometry, rejects, native);
    assert SendEffect([events[i]] + events[i + 1..], geometry, rejects, native)
        == SendEffect(events[i + 1..], geometry, rejects, native);
  }

  /**
   * Order: when the geometry is readable and nothing is refused, the batch
   * injects exactly one action per event, in the events' order.
   */
  lemma {:induction false} SendInjectsInOrder(events: seq<Event>, rect: Rectangle, rejects: Injection -> bool, native: MouseButtonKind -> int)
    requires forall inj :: !rejects(inj)
    ensures |SendEffect(events, Some(rect), rejects, native)| == |events|
    ensures forall k :: 0 <= k < |events| ==>
      SendEffect(events, Some(rect), rejects, native)[k] == IntendedInjection(events[k], rect, native)
    decreases |events|
  {
    if events != [] {
      SendInjectsInOrder(events[1..], rect, rejects, native);
      var e := events[0];
      assert EventEffect(e, Some(rect), rejects, native) == [IntendedInjection(e, rect, native)] by {
        match e
        case MouseMoveEvent(x, y) =>
        case MouseButtonEvent(b, k) =>
          assert !rejects(ButtonRelease(native(b))) && !rejects(ButtonPress(native(b)));
      }
      forall k | 1 <= k < |events|
        ensures SendEffect(events, Some(rect), rejects, native)[k] == IntendedInjection(events[k], rect, native)
      {
        assert events[k] == events[1..][k - 1];
      }
    }
  }

  /**
   * The window wrapper shipped beside the dispatcher has no `fake_input`
   * (and the button kind no `to_X11`), so each injection raises: in that
   * configuration `send` swallows every failure and injects nothing at all.
   */
  lemma {:induction false} ShippedWindowInjectsNothing(events: seq<Event>, geometry: Option<Rectangle>, native: MouseButtonKind -> int)
    ensures SendEffect(events, geometry, _ => true, native) == []
    decreases |events|
  {
    if events != [] {
      ShippedWindowInjectsNothing(events[1..], geometry, native);
      assert EventEffect(events[0], geometry, _ => true, native) == [];
    }
  }

  class InputHandler {
    var target: Window?
    /** `MouseButtonKind.to_X11`: the native code of each button. */
    const toX11: MouseButtonKind -> int

    /** The window input goes to, as a frame: none when there is no target. */
    function Targets(): set<Window>
      reads this
    {
      if target == null then {} else {target}
    }

    constructor (toX11: MouseButtonKind -> int)
      ensures target == null && this.toX11 == toX11
    {
      target := null;
      this.toX11 := toX11;
    }

    /** Replaces the target (possibly with none) and nothing else. */
    method SetTarget(target: Window?)
      modifies this`target
      ensures this.target == target
    {
      this.target := target;
    }

    /** Moves the pointer; `ok` is false when the call raises. Without a target, nothing happens. */
    method MoveTo(x: int, y: int, relative: bool) returns (ok: bool)
      modifies Targets()`injected
      ensures old(target) == null ==> ok
      ensures target != null ==>
        && target.injected == old(target.injected) + MoveEffect(x, y, relative, target.geometry, target.rejects)
        && (ok <==> MoveEffect(x, y, relative, target.geometry, target.rejects) != [])
    {
      if target == null {
        return true;
      }
      var px, py := x, y;
      if relative {
        if target.geometry.None? {
          return false;
        }
        var p := TranslateCoords(x, y, target.geometry.value);
        px, py := p.0, p.1;
      }
      ok := target.FakeInput(MotionNotify(px, py));
    }

    /** Presses `button` once; `ok` is false when the call raises. Without a target, nothing happens. */
    method MouseDown(button: MouseButtonKind) returns (ok: bool)
      modifies Targets()`injected
      ensures old(target) == null ==> ok
      ensures target != null ==>
        && target.injected == old(target.injected) + Attempt(ButtonPress(toX11(button)), target.rejects)
        && ok == !target.rejects(ButtonPress(toX11(button)))
    {
      if target == null {
        return true;
      }
      ok := target.FakeInput(ButtonPress(toX11(button)));
    }

    /** Releases `button` once; `ok` is false when the call raises. Without a target, nothing happens. */
    method MouseUp(button: MouseButtonKind) returns (ok: bool)
      modifies Targets()`injected
      ensures old(target) == null ==> ok
      ensures target != null ==>
        && target.injected == old(target.injected) + Attempt(ButtonRelease(toX11(button)), target.rejects)
        && ok == !target.rejects(ButtonRelease(toX11(button)))
    {
      if target == null {
        return true;
      }
      ok := target.FakeInput(ButtonRelease(toX11(button)));
    }

    /** A press followed by a release of the same button; a failed press skips the release. */
    method Click(button: MouseButtonKind) returns (ok: bool)
      modifies Targets()`injected
      ensures old(target) == null ==> ok
      ensures target != null ==>
        var press, release := ButtonPress(toX11(button)), ButtonRelease(toX11(button));
        && target.injected == old(target.injected) +
             (if target.rejects(press) then [] else [press] + Attempt(release, target.rejects))
        && ok == (!target.rejects(press) && !target.rejects(release))
    {
      ok := MouseDown(button);
      if !ok {
        return;
      }
      ok := MouseUp(button);
    }

    /**
     * Replays a batch in order. A failing event is caught and the remaining
     * events are still replayed; without a target nothing happens.
     */
    method Send(message: ScreenEvents)
      modifies Targets()`injected
      ensures target != null ==>
        target.injected == old(target.injected) + SendEffect(message.events, target.geometry, target.rejects, toX11)
    {
      var events := message.events;
      var i := 0;
      while i < |events|
        invariant 0 <= i <= |events|
        invariant target == old(target)
        invariant target != null ==>
          target.injected == old(target.injected) + SendEffect(events[..i], target.geometry, target.rejects, toX11)
      {
        var ok;
        match events[i] {
          case MouseMoveEvent(x, y) =>
            ok := MoveTo(x, y, true);
          case MouseButtonEvent(b, ButtonUp) =>
            ok := MouseUp(b);
          case MouseButtonEvent(b, ButtonDown) =>
            ok := MouseDown(b);
        }
        if target != null {
          assert events[..i + 1] == events[..i] + [events[i]];
          SendEffectAppend(events[..i], [events[i]], target.geometry, target.rejects, toX11);
        }
        i := i + 1;
      }
      assert events[..i] == events;
    }
  }

  /**
   * The isolation law seen from a client: a batch whose first event is
   * refused by the display server still injects the event after it.
   */
  method FailureDoesNotDropBatch(rect: Rectangle, native: MouseButtonKind -> int) returns (log: seq<Injection>)
    ensures log == [ButtonRelease(native(LeftButton))]
  {
    var refused := ButtonPress(native(LeftButton));
    var window := new Window(Some(rect), inj => inj == refused);
    var handler := new InputHandler(native);
    handler.SetTarget(window);
    handler.Send(ScreenEvents([MouseButtonEvent(LeftButton, ButtonDown), MouseButtonEvent(LeftButton, ButtonUp)]));
    log := window.injected;
  }
}
