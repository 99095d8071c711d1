/** Mouse capture: a drag that begins in a host stays with it. Which host an
    uncaptured event reaches, after chrome, dividers and panels had their say, is
    an argument; hosts do not call back. */
module MouseCapture {
  import opened Identifiers
  import opened PaneModel

  /// The host that captured the mouse, and the buttons held since; the mask of the
  /// program as the set of its buttons.
  datatype Capture = Capture(host: Option<HostId>, held: set<int>)

  const RELEASED := Capture(None, {})

  /// Buttons that have a bit in the mask.
  predicate Tracked(button: int) {
    1 <= button <= 32
  }

  datatype Event =
    | Button(button: int, pressed: bool, overlay: Option<HostId>, target: Option<HostId>)
    | Move(overlay: Option<HostId>, target: Option<HostId>)
    | Destroyed(host: HostId)

  /// The capture after an event, and the host the event was forwarded to.
  function Handle(c: Capture, e: Event): (Capture, Option<HostId>) {
    match e
    case Button(button, pressed, overlay, target) =>
      if overlay.Some? then (RELEASED, overlay)
      else if c.host.Some? then
        var bit := if Tracked(button) then {button} else {};
        var held := if pressed then c.held + bit else c.held - bit;
        (if held == {} then RELEASED else c.(held := held), c.host)
      else if target.None? then (c, None)
      else (if pressed && Tracked(button) then Capture(target, {button}) else c, target)
    case Move(overlay, target) =>
      if overlay.Some? then (RELEASED, None)
      else if c.host.Some? then (c, c.host)
      else (c, target)
    case Destroyed(host) => (if c.host == Some(host) then RELEASED else c, None)
  }

  /// Nobody has the capture exactly when no button is held.
  ghost predicate CaptureOk(c: Capture) {
    && (c.host.None? <==> c.held == {})
    && forall b :: b in c.held ==> Tracked(b)
  }

  lemma HandleKeeps(c: Capture, e: Event)
    requires CaptureOk(c)
    ensures CaptureOk(Handle(c, e).0)
  {
    if e.Button? && e.overlay.None? && c.host.None? && e.target.Some? && e.pressed && Tracked(e.button) {
      assert e.button in Handle(c, e).0.held;
    }
  }

  ghost predicate CaptureRun(states: seq<Capture>, events: seq<Event>) {
    && |states| == |events| + 1 && states[0] == RELEASED
    && forall k :: 0 <= k < |events| ==> states[k + 1] == Handle(states[k], events[k]).0
  }

  lemma {:induction false} CaptureStaysOk(states: seq<Capture>, events: seq<Event>, k: nat)
    requires CaptureRun(states, events) && k < |states|
    ensures CaptureOk(states[k])
  {
    if k > 0 {
      CaptureStaysOk(states, events, k - 1);
      HandleKeeps(states[k - 1], events[k - 1]);
    }
  }

  /// The event takes the capture from its host: an overlay is open, or the host dies.
  predicate Interrupts(e: Event, host: HostId) {
    match e
    case Button(_, _, overlay, _) => overlay.Some?
    case Move(overlay, _) => overlay.Some?
    case Destroyed(dead) => dead == host
  }

  predicate IsRelease(e: Event, button: int) {
    e.Button? && !e.pressed && e.button == button
  }

  /// While a button is held down in a host, the capture is that host's.
  lemma {:induction false} HeldByHost(states: seq<Capture>, events: seq<Event>, i: nat, j: nat, button: int,
                                      host: HostId)
    requires CaptureRun(states, events) && i < j < |states| && Tracked(button)
    requires events[i].Button? && events[i].pressed && events[i].button == button
    requires events[i].overlay.None? && Handle(states[i], events[i]).1 == Some(host)
    requires forall k :: i < k < j ==> !Interrupts(events[k], host) && !IsRelease(events[k], button)
    ensures states[j].host == Some(host) && button in states[j].held
  {
    if j > i + 1 {
      HeldByHost(states, events, i, j - 1, button, host);
    }
  }

  /// Every press forwarded to a host has its next release, and every move and
  /// button event between, forwarded to that same host, wherever the pointer is,
  /// unless an overlay opens or the host is destroyed.
  lemma DragStaysWithHost(states: seq<Capture>, events: seq<Event>, i: nat, j: nat, button: int, host: HostId)
    requires CaptureRun(states, events) && i < j < |events| && Tracked(button)
    requires events[i].Button? && events[i].pressed && events[i].button == button
    requires events[i].overlay.None? && Handle(states[i], events[i]).1 == Some(host)
    requires forall k :: i < k <= j ==> !Interrupts(events[k], host)
    requires forall k :: i < k < j ==> !IsRelease(events[k], button)
    ensures forall k :: i < k <= j && !events[k].Destroyed? ==> Handle(states[k], events[k]).1 == Some(host)
    ensures IsRelease(events[j], button) ==> button !in states[j + 1].held
  {
    forall k | i < k <= j ensures states[k].host == Some(host) {
      HeldByHost(states, events, i, k, button, host);
    }
  }

  /// While no button is held an event goes where it points: a button to the overlay or to
  /// the host under the pointer, a move to that host unless an overlay is open. The press
  /// of a tracked button in a host, and nothing else, captures the mouse, for that host.
  lemma UncapturedGoesToTarget(c: Capture, e: Event)
    requires CaptureOk(c) && c.held == {}
    ensures var (c', sentTo) := Handle(c, e);
            && (e.Button? ==> sentTo == if e.overlay.Some? then e.overlay else e.target)
            && (e.Move? ==> sentTo == if e.overlay.Some? then None else e.target)
            && (c'.host.Some? <==>
                  e.Button? && e.pressed && Tracked(e.button) && e.overlay.None? && e.target.Some?)
            && (c'.host.Some? ==> c'.host == sentTo && c'.held == {e.button})
  {}

  /// The i-th event presses the button in a host.
  ghost predicate PressedAt(states: seq<Capture>, events: seq<Event>, i: int, button: int)
    requires |states| == |events| + 1
  {
    && 0 <= i < |events| && events[i].Button? && events[i].pressed && events[i].button == button
    && events[i].overlay.None? && Handle(states[i], events[i]).1.Some?
  }

  /// The k-th event ends the hold on the button: its release, an overlay, or the end of
  /// the host that has the capture.
  ghost predicate EndsHold(states: seq<Capture>, events: seq<Event>, k: int, button: int)
    requires |states| == |events| + 1 && 0 <= k < |events|
  {
    IsRelease(events[k], button) || (states[k].host.Some? && Interrupts(events[k], states[k].host.value))
  }

  ghost predicate HeldSince(states: seq<Capture>, events: seq<Event>, i: int, j: nat, button: int)
    requires |states| == |events| + 1 && j <= |events|
  {
    i < j && PressedAt(states, events, i, button) && forall k :: i < k < j ==> !EndsHold(states, events, k, button)
  }

  /// Over every run the buttons held are exactly the tracked ones that were pressed in a
  /// host and whose hold has not ended since.
  lemma {:induction false} HeldExactly(states: seq<Capture>, events: seq<Event>, j: nat, button: int)
    requires CaptureRun(states, events) && j < |states|
    ensures button in states[j].held <==>
              Tracked(button) && exists i :: HeldSince(states, events, i, j, button)
  {
    if j > 0 {
      HeldExactly(states, events, j - 1, button);
      CaptureStaysOk(states, events, j - 1);
      HeldStep(states, events, j - 1, j, button);
      hide CaptureRun;
      hide HeldSince;
    }
  }

  lemma HeldStep(states: seq<Capture>, events: seq<Event>, k: nat, j: nat, button: int)
    requires CaptureRun(states, events) && j == k + 1 < |states| && CaptureOk(states[k])
    requires button in states[k].held <==>
               Tracked(button) && exists i :: HeldSince(states, events, i, k, button)
    ensures button in states[j].held <==>
              Tracked(button) && exists i :: HeldSince(states, events, i, j, button)
  {
    assert states[j] == Handle(states[k], events[k]).0;
    hide CaptureRun;
    if Tracked(button) {
      if PressedAt(states, events, k, button) { assert HeldSince(states, events, k, j, button); }
      if i :| HeldSince(states, events, i, k, button) {
        assert EndsHold(states, events, k, button) || HeldSince(states, events, i, j, button);
      }
      forall i | HeldSince(states, events, i, j, button)
        ensures i == k || (HeldSince(states, events, i, k, button) && !EndsHold(states, events, k, button)) {}
    }
  }
}
