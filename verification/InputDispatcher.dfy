/** The input dispatcher, updated in place. */
module InputDispatchers {
  import opened Identifiers
  import opened PaneModel
  import opened MouseCapture
  import opened SmoothScroll

  class InputDispatcher {
    var captureHost: Option<HostId>
    var captureButtons: set<int>
    var focusedHost: Option<HostId>
    var pendingScroll: real

    function View(): Capture
      reads this
    {
      Capture(captureHost, captureButtons)
    }

    constructor ()
      ensures View() == RELEASED && CaptureOk(View()) && pendingScroll == 0.0
    {
      captureHost, captureButtons, focusedHost, pendingScroll := None, {}, None, 0.0;
    }

    method ReleaseCapture()
      modifies `captureHost, `captureButtons
      ensures View() == RELEASED
    {
      captureHost, captureButtons := None, {};
    }

    method OnMouseButton(button: int, pressed: bool, overlay: Option<HostId>, target: Option<HostId>)
      returns (sentTo: Option<HostId>)
      modifies `captureHost, `captureButtons
      ensures (View(), sentTo) == Handle(old(View()), Button(button, pressed, overlay, target))
    {
      if overlay.Some? {
        ReleaseCapture();
        return overlay;
      }
      if captureHost.Some? {
        sentTo := captureHost;
        if Tracked(button) {
          captureButtons := if pressed then captureButtons + {button} else captureButtons - {button};
        } else {
          assert captureButtons + {} == captureButtons - {} == captureButtons;
        }
        if captureButtons == {} {
          ReleaseCapture();
        }
        return;
      }
      if target.Some? && pressed && Tracked(button) {
        captureHost, captureButtons := target, {button};
      }
      return target;
    }

    method OnMouseMove(overlay: Option<HostId>, target: Option<HostId>) returns (sentTo: Option<HostId>)
      modifies `captureHost, `captureButtons
      ensures (View(), sentTo) == Handle(old(View()), Move(overlay, target))
    {
      if overlay.Some? {
        ReleaseCapture();
        return None;
      }
      return if captureHost.Some? then captureHost else target;
    }

    /// A host is about to go.
    method ClearHostIf(host: HostId)
      modifies `captureHost, `captureButtons, `focusedHost
      ensures View() == Handle(old(View()), Destroyed(host)).0
      ensures focusedHost == if old(focusedHost) == Some(host) then None else old(focusedHost)
    {
      if captureHost == Some(host) {
        ReleaseCapture();
      }
      if focusedHost == Some(host) {
        focusedHost := None;
      }
    }

    /// A wheel event that reaches a host: the distances sent to it, one by one.
    method OnMouseWheel(w: Wheel) returns (sent: seq<real>)
      modifies `pendingScroll
      ensures (pendingScroll, sent) == Scroll(old(pendingScroll), w)
      ensures Accumulates(w) ==>
                Sum(sent) + pendingScroll == old(pendingScroll) + Distance(w) && -1.0 < pendingScroll < 1.0
    {
      if !Accumulates(w) {
        pendingScroll := 0.0;
        return [w.delta];
      }
      hide Distance;
      hide Sum;
      hide Steps;
      hide Sign;
      hide Remainder;
      ScrollConserves(pendingScroll, w);
      var total := pendingScroll + Distance(w);
      pendingScroll := total;
      var sign := Sign(total);
      var steps := Steps(total);
      sent := [];
      for i := 0 to steps
        invariant pendingScroll == total && sent == Repeat(sign, i)
      {
        sent := sent + [sign];
      }
      pendingScroll := Remainder(pendingScroll);
    }
  }
}
