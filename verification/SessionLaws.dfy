/** What the router's messages promise each client, over whole runs: every session
    is a sequence of complete grabs, nothing is released that was not pressed, and
    the host's own pointer and inputs are never left stuck. */
module SessionLaws {
  import opened Wire
  import opened Geometry
  import opened RouterModel

  /** Reading a session's messages in order. Open carries the inputs pressed and
      not yet released; Broken means the grab protocol was violated. */
  datatype Session = Closed | Opening | Open(btns: set<byte>, keys: set<uint16>) | Broken

  function Advance(p: Session, m: Message): Session {
    match (p, m)
    case (Closed, Grab(on)) => if on then Opening else Broken
    case (Opening, MouseAbs(_, _, _)) => Open({}, {})
    case (Open(_, _), MouseAbs(_, _, _)) => p
    case (Open(_, _), MouseWheel(_, _)) => p
    case (Open(bs, ks), MouseButton(b, down)) =>
      if down then Open(bs + {b}, ks) else if b in bs then Open(bs - {b}, ks) else Broken
    case (Open(bs, ks), KeyEvent(k, down)) =>
      if down then Open(bs, ks + {k}) else if k in ks then Open(bs, ks - {k}) else Broken
    case (Open(bs, ks), Grab(on)) => if !on && bs == {} && ks == {} then Closed else Broken
    case _ => Broken
  }

  function Scan(log: seq<Message>): Session {
    if |log| == 0 then Closed else Advance(Scan(log[..|log| - 1]), log[|log| - 1])
  }

  lemma ScanOne(log: seq<Message>, m: Message)
    ensures Scan(log + [m]) == Advance(Scan(log), m)
  {
    assert (log + [m])[..|log|] == log;
  }

  lemma {:induction false} ScanButtonUps(log: seq<Message>, order: seq<byte>, bs: set<byte>, ks: set<uint16>)
    requires Scan(log) == Open(bs, ks) && Enumerates(order, bs)
    ensures Scan(log + ButtonUps(order)) == Open({}, ks)
    decreases |order|
  {
    if order == [] {
      assert log + ButtonUps(order) == log;
      assert bs == {};
    } else {
      var b, rest := order[0], order[1..];
      ScanOne(log, MouseButton(b, false));
      forall x | x in bs - {b} ensures x in rest {
        var i :| 0 <= i < |order| && order[i] == x;
        assert rest[i - 1] == x;
      }
      ScanButtonUps(log + [MouseButton(b, false)], rest, bs - {b}, ks);
      assert log + [MouseButton(b, false)] + ButtonUps(rest) == log + ButtonUps(order);
    }
  }

  lemma {:induction false} ScanKeyUps(log: seq<Message>, order: seq<uint16>, bs: set<byte>, ks: set<uint16>)
    requires Scan(log) == Open(bs, ks) && Enumerates(order, ks)
    ensures Scan(log + KeyUps(order)) == Open(bs, {})
    decreases |order|
  {
    if order == [] {
      assert log + KeyUps(order) == log;
      assert ks == {};
    } else {
      var k, rest := order[0], order[1..];
      ScanOne(log, KeyEvent(k, false));
      forall x | x in ks - {k} ensures x in rest {
        var i :| 0 <= i < |order| && order[i] == x;
        assert rest[i - 1] == x;
      }
      ScanKeyUps(log + [KeyEvent(k, false)], rest, bs, ks - {k});
      assert log + [KeyEvent(k, false)] + KeyUps(rest) == log + KeyUps(order);
    }
  }

  /** The messages that end a grab close the session whatever order the maps gave. */
  lemma ScanClosing(log: seq<Message>, ch: Choice, bs: set<byte>, ks: set<uint16>)
    requires Scan(log) == Open(bs, ks) && Enumerates(ch.btns, bs) && Enumerates(ch.keys, ks)
    ensures Scan(log + (Releases(ch) + [Grab(false)])) == Closed
  {
    ScanButtonUps(log, ch.btns, bs, ks);
    ScanKeyUps(log + ButtonUps(ch.btns), ch.keys, {}, ks);
    ScanOne(log + ButtonUps(ch.btns) + KeyUps(ch.keys), Grab(false));
    assert log + ButtonUps(ch.btns) + KeyUps(ch.keys) + [Grab(false)]
        == log + (Releases(ch) + [Grab(false)]);
  }

  /** Opening a grab on a client under the cursor always sends its position too. */
  lemma ScanOpening(log: seq<Message>, c: Client, v: (int, int))
    requires Scan(log) == Closed && c.Covers(v.0, v.1)
    ensures Scan(log + ([Grab(true)] + AbsMessages(c, v))) == Open({}, {})
  {
    var i :| 0 <= i < |c.Rects()| && Inside(c.Rects()[i], v.0, v.1);
    var abs := AbsMessages(c, v);
    assert |abs| == 1;
    ScanOne(log, Grab(true));
    ScanOne(log + [Grab(true)], abs[0]);
    assert log + [Grab(true)] + [abs[0]] == log + ([Grab(true)] + abs);
  }

  lemma ScanPosition(log: seq<Message>, c: Client, v: (int, int))
    requires Scan(log).Open?
    ensures Scan(log + AbsMessages(c, v)) == Scan(log)
  {
    var abs := AbsMessages(c, v);
    if abs == [] {
      assert log + abs == log;
    } else {
      ScanOne(log, abs[0]);
    }
  }

  // ---- The protocol invariant ----

  /** Where client id's session must stand in state s. */
  function Expected(s: State, id: ConnId): Session {
    if s.active == Some(id) then Open(s.btnsOn, s.keysOn) else Closed
  }

  ghost predicate SessionsAgree(s: State) {
    forall id :: id in s.clients ==> Scan(s.clients[id].sent) == Expected(s, id)
  }

  ghost predicate IdleIsEmpty(s: State) {
    s.active.None? ==> s.btnsOn == {} && s.keysOn == {} && !s.syncing
  }

  /** Captured input is swallowed and the pointer hidden exactly while a client holds the
      grab: never before the capture loop nor after it was cancelled, but also after the
      capture channel closed under it, which resets nothing. */
  ghost predicate HostFollowsGrab(s: State) {
    && (s.phase.Idle? ==> s.active.None?)
    && s.host.consume == ((s.phase.Running? || s.phase.Lost?) && s.active.Some?)
    && s.host.visible == !s.host.consume
  }

  /** The host believes pressed only what the user is really holding, and nothing
      while a client holds the grab. */
  ghost predicate HostNotStuck(s: State) {
    && s.host.btns <= s.heldBtns && s.host.keys <= s.heldKeys
    && (s.active.Some? ==> s.host.btns == {} && s.host.keys == {})
  }

  ghost predicate Protocol(s: State) {
    s.ActiveKnown() && SessionsAgree(s) && IdleIsEmpty(s) && HostFollowsGrab(s) && HostNotStuck(s)
  }

  lemma OpenKeepsProtocol(s: State, id: ConnId)
    requires Protocol(s) && s.active.None? && s.phase.Running?
    requires id in s.clients && s.clients[id].Covers(s.v.0, s.v.1)
    ensures Protocol(OpenGrab(s, id))
  {
    ScanOpening(s.clients[id].sent, s.clients[id], s.v);
  }

  lemma CloseKeepsProtocol(s: State, ch: Choice)
    requires Protocol(s) && s.active.Some? && s.phase.Running? && LegalResolve(s, ch)
    ensures Protocol(CloseGrab(s, ch))
  {
    ScanClosing(s.clients[s.active.value].sent, ch, s.btnsOn, s.keysOn);
  }

  lemma SwitchKeepsProtocol(s: State, id: ConnId, ch: Choice)
    requires Protocol(s) && s.active.Some? && s.phase.Running? && LegalResolve(s, ch)
    requires id in s.clients && s.clients[id].Covers(s.v.0, s.v.1) && id != s.active.value
    ensures Protocol(SwitchGrab(s, id, ch))
  {
    ScanClosing(s.clients[s.active.value].sent, ch, s.btnsOn, s.keysOn);
    ScanOpening(s.clients[id].sent, s.clients[id], s.v);
  }

  lemma ResolveKeepsProtocol(s: State, ch: Choice)
    requires Protocol(s) && s.phase.Running? && LegalResolve(s, ch)
    ensures Protocol(Resolve(s, ch))
  {
    match (ch.target, s.active)
    case (Some(id), None) => OpenKeepsProtocol(s, id);
    case (None, Some(_)) => CloseKeepsProtocol(s, ch);
    case (Some(id), Some(a)) =>
      if id != a {
        SwitchKeepsProtocol(s, id, ch);
      } else {
        ScanPosition(s.clients[id].sent, s.clients[id], s.v);
      }
    case (None, None) =>
  }

  lemma MoveKeepsProtocol(s: State, x: int, y: int, ch: Choice)
    requires Protocol(s) && s.phase.Running? && LegalMove(s, x, y, ch)
    ensures Protocol(MoveStep(s, x, y, ch))
  {
    if PushesOut(s, x, y) || Drives(s, x, y) {
      var a := Aimed(s, x, y, ch);
      assert Protocol(a);
      ResolveKeepsProtocol(a, ch);
    }
  }

  lemma ForwardKeepsSessions(s: State, m: Message, bs: set<byte>, ks: set<uint16>)
    requires s.ActiveKnown() && s.active.Some? && SessionsAgree(s)
    requires Advance(Open(s.btnsOn, s.keysOn), m) == Open(bs, ks)
    ensures SessionsAgree(Deliver(s, s.active.value, [m]).(btnsOn := bs, keysOn := ks))
  {
    ScanOne(s.clients[s.active.value].sent, m);
  }

  lemma ButtonKeepsProtocol(s: State, b: byte, down: bool)
    requires Protocol(s) && s.phase.Running?
    ensures Protocol(ButtonStep(s, b, down))
  {
    if s.active.Some? && (down || b in s.btnsOn) {
      ForwardKeepsSessions(s, MouseButton(b, down), Toggle(s.btnsOn, b, down), s.keysOn);
    }
    assert SessionsAgree(ButtonStep(s, b, down));
  }

  lemma KeyKeepsProtocol(s: State, k: uint16, down: bool)
    requires Protocol(s) && s.phase.Running?
    ensures Protocol(KeyStep(s, k, down))
  {
    if s.active.Some? && (down || k in s.keysOn) {
      ForwardKeepsSessions(s, KeyEvent(k, down), s.btnsOn, Toggle(s.keysOn, k, down));
    }
    assert SessionsAgree(KeyStep(s, k, down));
  }

  lemma WheelKeepsProtocol(s: State, dx: int16, dy: int16)
    requires Protocol(s) && s.phase.Running?
    ensures Protocol(WheelStep(s, dx, dy))
  {
    if s.active.Some? {
      ScanOne(s.clients[s.active.value].sent, MouseWheel(dx, dy));
    }
  }

  lemma RosterKeepsProtocol(s: State, e: Event, ch: Choice)
    requires Protocol(s) && Legal(s, e, ch)
    requires e.Register? || e.ClientMonitors? || e.Place?
    ensures Protocol(Step(s, e, ch))
  {
  }

  lemma DepartureKeepsProtocol(s: State, id: ConnId)
    requires Protocol(s)
    ensures Protocol(UnregisterStep(s, id))
  {
  }

  /** Every step of the router keeps the grab protocol, whatever the layout. */
  lemma StepKeepsProtocol(s: State, e: Event, ch: Choice)
    requires Protocol(s) && Legal(s, e, ch)
    ensures Protocol(Step(s, e, ch))
  {
    match e
    case Move(x, y) => MoveKeepsProtocol(s, x, y, ch);
    case Button(b, down) => ButtonKeepsProtocol(s, b, down);
    case Wheel(dx, dy) => WheelKeepsProtocol(s, dx, dy);
    case Key(k, down) => KeyKeepsProtocol(s, k, down);
    case Unregister(id) => DepartureKeepsProtocol(s, id);
    case Register(_, _, _) => RosterKeepsProtocol(s, e, ch);
    case ClientMonitors(_, _) => RosterKeepsProtocol(s, e, ch);
    case Place(_, _, _) => RosterKeepsProtocol(s, e, ch);
    case ServerMonitors(_) =>
    case Start =>
    case Stop =>
    case CaptureLost =>
  }

  /** The grab protocol holds in every state of every run. */
  lemma {:induction false} RunKeepsProtocol(r: Run, i: nat)
    requires r.Valid() && i < |r.states|
    ensures Protocol(r.states[i])
  {
    if i > 0 {
      RunKeepsProtocol(r, i - 1);
      RunStep(r, i - 1);
      StepKeepsProtocol(r.states[i - 1], r.events[i - 1], r.choices[i - 1]);
    }
  }

  // ---- The ends of the capture loop ----

  predicate EndsLoop(e: Event) { e.Stop? || e.CaptureLost? }

  /** Nobody unregisters the client that held the grab in state i, in steps i+1..j-1. */
  ghost predicate OwnerStays(r: Run, i: nat, j: nat)
    requires r.Aligned() && i < j <= |r.events|
  {
    forall k :: i < k < j ==>
      !(r.events[k].Unregister? && r.states[i].active == Some(r.events[k].id))
  }

  lemma AfterLoopStep(s: State, e: Event, ch: Choice)
    requires Legal(s, e, ch) && (s.phase.Stopped? || s.phase.Lost?)
    ensures var t := Step(s, e, ch);
      && t.phase == s.phase
      && t.active == if e.Unregister? && s.active == Some(e.id) then None else s.active
  {
  }

  lemma {:induction false} OwnerAfterLoop(r: Run, i: nat, j: nat)
    requires r.Valid() && i < j <= |r.events| && EndsLoop(r.events[i])
    ensures r.states[j].phase == if r.events[i].CaptureLost? then Lost else Stopped
    ensures r.states[j].active == if OwnerStays(r, i, j) then r.states[i].active else None
    decreases j
  {
    RunStep(r, j - 1);
    if j > i + 1 {
      OwnerAfterLoop(r, i, j - 1);
      AfterLoopStep(r.states[j - 1], r.events[j - 1], r.choices[j - 1]);
      OwnerStaysOn(r, i, j);
    }
  }

  lemma OwnerStaysOn(r: Run, i: nat, j: nat)
    requires r.Aligned() && i + 1 < j <= |r.events|
    ensures OwnerStays(r, i, j) <==>
      OwnerStays(r, i, j - 1) && !(r.events[j - 1].Unregister? && r.states[i].active == Some(r.events[j - 1].id))
  {
  }

  /** Consume mode outlives the capture loop exactly when the loop ended with the capture
      channel closing while a client held the grab, and until that client leaves. */
  lemma ConsumeOutlivesLoopIff(r: Run, i: nat, j: nat)
    requires r.Valid() && i < j <= |r.events| && EndsLoop(r.events[i])
    ensures r.states[j].host.consume <==>
      r.events[i].CaptureLost? && r.states[i].active.Some? && OwnerStays(r, i, j)
  {
    RunKeepsProtocol(r, j);
    OwnerAfterLoop(r, i, j);
  }
}
