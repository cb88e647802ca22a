/** Where the client's own pointer is while the router moves its virtual cursor: which pixel
    a message names, what one event does, and whole runs. */
module RemotePointer {
  import opened Wire
  import opened Geometry
  import opened RouterModel
  import opened SessionLaws
  import opened LayoutLaws
  import opened RunLaws
  import opened Receiver

  // ---- Both sides name the same pixel ----

  predicate UniqueIds(ms: seq<Monitor>) {
    forall i, j :: 0 <= i < j < |ms| ==> ms[i].id != ms[j].id
  }

  /** Own-desktop coordinates of every pixel are 32-bit integers. */
  predicate FitsInt32(m: Monitor) {
    m.x as int + m.w as int <= 0x8000_0000 && m.y as int + m.h as int <= 0x8000_0000
  }

  predicate Addressable(m: Monitor) { m.w as int <= 0x1_0000 && m.h as int <= 0x1_0000 }

  lemma {:induction false} ResolveFindsMonitor(ms: seq<Monitor>, i: nat, x: uint16, y: uint16)
    requires i < |ms| && forall j :: 0 <= j < i ==> ms[j].id != ms[i].id
    ensures ResolveAbs(ms, ms[i].id, x, y) == Some((AddWrap32(ms[i].x, x), AddWrap32(ms[i].y, y)))
  {
    if i > 0 {
      assert ms[0].id != ms[i].id;
      ResolveFindsMonitor(ms[1..], i - 1, x, y);
    }
  }

  /** The pointer is on the pixel of the client's own desktop that the cursor v is on. */
  predicate PointsAt(p: Option<(int32, int32)>, c: Client, v: (int, int)) {
    p.Some? && p.value.0 as int == v.0 - c.offX && p.value.1 as int == v.1 - c.offY
  }

  /** The client puts its pointer on the very pixel the router's cursor is on. */
  predicate SamePixel(c: Client, v: (int, int)) {
    var ms := AbsMessages(c, v);
    |ms| == 1 && ms[0].MouseAbs? && PointsAt(ResolveAbs(c.monitors, ms[0].monitorId, ms[0].x, ms[0].y), c, v)
  }

  /** Every pixel of these monitors can be named by a position message. */
  ghost predicate Nameable(ms: seq<Monitor>) {
    UniqueIds(ms) && forall i :: 0 <= i < |ms| ==> Addressable(ms[i]) && FitsInt32(ms[i])
  }

  lemma HitPixelAgrees(c: Client, v: (int, int), i: nat)
    requires UniqueIds(c.monitors) && i < |c.monitors| && i == FirstHit(c.Rects(), v.0, v.1, 0)
    requires Addressable(c.monitors[i]) && FitsInt32(c.monitors[i])
    ensures SamePixel(c, v)
  {
    var q := c.Rects()[i];
    assert Inside(q, v.0, v.1);
    ResolveFindsMonitor(c.monitors, i, (v.0 - q.l) as uint16, (v.1 - q.t) as uint16);
  }

  lemma CoveredPixelAgrees(c: Client, v: (int, int))
    requires Nameable(c.monitors) && c.Covers(v.0, v.1)
    ensures SamePixel(c, v)
  {
    var k :| 0 <= k < |c.Rects()| && Inside(c.Rects()[k], v.0, v.1);
    HitPixelAgrees(c, v, FirstHit(c.Rects(), v.0, v.1, 0));
  }

  lemma WideMonitorDisagrees(c: Client, i: nat)
    requires UniqueIds(c.monitors) && i < |c.monitors| && !Addressable(c.monitors[i])
    requires forall j :: 0 <= j < |c.monitors| ==> FitsInt32(c.monitors[j]) && HasPixels(c.Rects()[j])
    requires forall j, k :: 0 <= j < k < |c.monitors| ==> Apart(c.Rects()[j], c.Rects()[k])
    ensures exists v: (int, int) :: c.Covers(v.0, v.1) && !SamePixel(c, v)
  {
    var m, q := c.monitors[i], c.Rects()[i];
    assert FitsInt32(m) && HasPixels(q);
    var v := if m.w as int > 0x1_0000 then (q.l + 0x1_0000, q.t) else (q.l, q.t + 0x1_0000);
    assert Inside(q, v.0, v.1);
    var h := FirstHit(c.Rects(), v.0, v.1, 0);
    assert h <= i;
    assert h < i ==> Apart(c.Rects()[h], q);
    assert h == i;
    var ax, ay := ((v.0 - q.l) % 0x1_0000) as uint16, ((v.1 - q.t) % 0x1_0000) as uint16;
    ResolveFindsMonitor(c.monitors, i, ax, ay);
    assert AbsMessages(c, v) == [MouseAbs(m.id, ax, ay)];
    assert !SamePixel(c, v);
  }

  /** For a client whose monitors have distinct ids and do not overlap, both sides
      name the same pixel everywhere exactly when no monitor is wider or taller
      than 65536 pixels. */
  lemma PixelsAgreeIffAddressable(c: Client)
    requires UniqueIds(c.monitors)
    requires forall j :: 0 <= j < |c.monitors| ==> FitsInt32(c.monitors[j]) && HasPixels(c.Rects()[j])
    requires forall j, k :: 0 <= j < k < |c.monitors| ==> Apart(c.Rects()[j], c.Rects()[k])
    ensures (forall v: (int, int) :: c.Covers(v.0, v.1) ==> SamePixel(c, v))
       <==> (forall i :: 0 <= i < |c.monitors| ==> Addressable(c.monitors[i]))
  {
    if forall i :: 0 <= i < |c.monitors| ==> Addressable(c.monitors[i]) {
      forall v: (int, int) | c.Covers(v.0, v.1) ensures SamePixel(c, v) {
        CoveredPixelAgrees(c, v);
      }
    } else {
      var i :| 0 <= i < |c.monitors| && !Addressable(c.monitors[i]);
      WideMonitorDisagrees(c, i);
    }
  }

  /** Every settled motion that leaves the grab where it is ends on a pixel of the active
      client and moves that client's pointer, by one message, to that very pixel. */
  lemma MotionMovesRemotePointer(s: State, x: int, y: int, ch: Choice, d: Desk)
    requires s.ActiveKnown() && Drives(s, x, y) && LegalMove(s, x, y, ch)
    requires MoveStep(s, x, y, ch).active == s.active
    requires Nameable(s.clients[s.active.value].monitors)
    ensures var t := MoveStep(s, x, y, ch);
      var id := s.active.value;
      var c := s.clients[id];
      && c.Covers(t.v.0, t.v.1)
      && t.clients.Keys == s.clients.Keys && |t.clients[id].sent| == |c.sent| + 1
      && t.clients[id].sent[..|c.sent|] == c.sent
      && PointsAt(Dispatch(d, c.monitors, t.clients[id].sent[|c.sent|], NO_FAULTS).pointer, c, t.v)
  {
    var a, id := Aimed(s, x, y, ch), s.active.value;
    assert ch.target == Some(id);
    assert MoveStep(s, x, y, ch) == Deliver(a, id, AbsMessages(a.clients[id], a.v));
    CoveredPixelAgrees(s.clients[id], a.v);
  }

  /** Two messages applied one after the other, with nothing refused. */
  function ApplyBoth(d: Desk, ms: seq<Monitor>, a: Message, b: Message): Desk {
    Dispatch(Dispatch(d, ms, a, NO_FAULTS), ms, b, NO_FAULTS)
  }

  lemma OpeningMessages(s: State, x: int, y: int, ch: Choice)
    requires s.ActiveKnown() && PushesOut(s, x, y)
    requires ch.target.Some? && ch.target.value in s.clients
    ensures var t := MoveStep(s, x, y, ch);
      var c := s.clients[ch.target.value];
      t.clients == s.clients[ch.target.value := c.(sent := c.sent + ([Grab(true)] + AbsMessages(c, t.v)))]
  {
    var a := Aimed(s, x, y, ch);
    assert Resolve(a, ch) == OpenGrab(a, ch.target.value);
  }

  lemma OpeningPointsAt(c: Client, v: (int, int), d: Desk)
    requires SamePixel(c, v)
    ensures PointsAt(ApplyBoth(d, c.monitors, Grab(true), AbsMessages(c, v)[0]).pointer, c, v)
  {
  }

  /** A push that opens a grab sends the new owner Grab on and one position, which puts its
      pointer on the very pixel the virtual cursor entered. */
  lemma OpeningMovesRemotePointer(s: State, x: int, y: int, ch: Choice, d: Desk)
    requires s.ActiveKnown() && PushesOut(s, x, y) && LegalMove(s, x, y, ch)
    requires MoveStep(s, x, y, ch).active.Some?
    requires var id := MoveStep(s, x, y, ch).active.value;
      id in s.clients && Nameable(s.clients[id].monitors)
    ensures var t := MoveStep(s, x, y, ch);
      var id := t.active.value;
      var c := s.clients[id];
      && c.Covers(t.v.0, t.v.1)
      && t.clients.Keys == s.clients.Keys && |t.clients[id].sent| == |c.sent| + 2
      && t.clients[id].sent[..|c.sent|] == c.sent && t.clients[id].sent[|c.sent|] == Grab(true)
      && PointsAt(ApplyBoth(d, c.monitors, Grab(true), t.clients[id].sent[|c.sent| + 1]).pointer, c, t.v)
  {
    PushUnfolds(s, x, y, ch);
    OpeningMessages(s, x, y, ch);
    var t := MoveStep(s, x, y, ch);
    var c := s.clients[t.active.value];
    CoveredPixelAgrees(c, t.v);
    OpeningPointsAt(c, t.v, d);
  }

  // ---- The remote pointer over whole runs ----

  /** Where the client's pointer is once it has applied everything sent to it. */
  function PointerOf(c: Client): Option<(int32, int32)> {
    Replay(FRESH_DESK, c.monitors, c.sent, Faultless(|c.sent|)).pointer
  }

  /** The active client's pointer is on the pixel under the virtual cursor. */
  ghost predicate Tracks(s: State) {
    s.active.Some? && s.active.value in s.clients && Nameable(s.clients[s.active.value].monitors) ==>
      PointsAt(PointerOf(s.clients[s.active.value]), s.clients[s.active.value], s.v)
  }

  function Sent(c: Client, ms: seq<Message>): Client { c.(sent := c.sent + ms) }

  lemma PointerAfterOne(c: Client, m: Message)
    ensures PointerOf(Sent(c, [m]))
         == if m.MouseAbs? && ResolveAbs(c.monitors, m.monitorId, m.x, m.y).Some?
            then ResolveAbs(c.monitors, m.monitorId, m.x, m.y) else PointerOf(c)
  {
    var n, log := |c.sent|, c.sent + [m];
    assert log[..n] == c.sent && Faultless(n + 1)[..n] == Faultless(n);
  }

  /** A position puts the pointer under the cursor wherever it was before. */
  lemma PositionPointsAt(c: Client, v: (int, int))
    requires SamePixel(c, v)
    ensures PointsAt(PointerOf(Sent(c, AbsMessages(c, v))), c, v)
  {
    PointerAfterOne(c, AbsMessages(c, v)[0]);
    assert AbsMessages(c, v) == [AbsMessages(c, v)[0]];
  }

  lemma OpeningTracks(c: Client, v: (int, int))
    requires SamePixel(c, v)
    ensures PointsAt(PointerOf(Sent(c, [Grab(true)] + AbsMessages(c, v))), c, v)
  {
    var g := Sent(c, [Grab(true)]);
    assert AbsMessages(g, v) == AbsMessages(c, v);
    PositionPointsAt(g, v);
    assert Sent(g, AbsMessages(c, v)) == Sent(c, [Grab(true)] + AbsMessages(c, v));
  }

  /** Looking up the region under the cursor always leaves the owner's pointer on its pixel,
      whatever was the case before. */
  lemma ResolveTracks(s: State, ch: Choice)
    requires s.ActiveKnown() && LegalResolve(s, ch)
    ensures Tracks(Resolve(s, ch))
  {
    if ch.target.Some? {
      var id := ch.target.value;
      var c := s.clients[id];
      if Nameable(c.monitors) {
        CoveredPixelAgrees(c, s.v);
        OpeningTracks(c, s.v);
        PositionPointsAt(c, s.v);
      }
      ResolveSends(s, ch);
    }
  }

  lemma ResolveSends(s: State, ch: Choice)
    requires s.ActiveKnown() && ch.target.Some? && ch.target.value in s.clients
    ensures var t, id := Resolve(s, ch), ch.target.value;
      var c := s.clients[id];
      && t.active == Some(id) && t.v == s.v && id in t.clients
      && t.clients[id] == Sent(c, (if s.active == Some(id) then [] else [Grab(true)]) + AbsMessages(c, s.v))
  {
    assert [] + AbsMessages(s.clients[ch.target.value], s.v) == AbsMessages(s.clients[ch.target.value], s.v);
  }

  lemma MoveTracks(s: State, x: int, y: int, ch: Choice)
    requires s.ActiveKnown() && Tracks(s) && LegalMove(s, x, y, ch)
    ensures Tracks(MoveStep(s, x, y, ch))
  {
    if PushesOut(s, x, y) || Drives(s, x, y) {
      ResolveTracks(Aimed(s, x, y, ch), ch);
    }
  }

  lemma ForwardTracks(s: State, m: Message)
    requires s.active.Some? && s.ActiveKnown() && Tracks(s) && !m.MouseAbs?
    ensures Tracks(Deliver(s, s.active.value, [m]))
  {
    PointerAfterOne(s.clients[s.active.value], m);
    assert Deliver(s, s.active.value, [m]).clients[s.active.value] == Sent(s.clients[s.active.value], [m]);
  }

  lemma InputTracks(s: State, e: Event, ch: Choice)
    requires Legal(s, e, ch) && Tracks(s) && (e.Button? || e.Wheel? || e.Key?)
    ensures Tracks(Step(s, e, ch))
  {
    if s.active.Some? {
      match e
      case Button(b, down) => ForwardTracks(s, MouseButton(b, down));
      case Wheel(dx, dy) => ForwardTracks(s, MouseWheel(dx, dy));
      case Key(k, down) => ForwardTracks(s, KeyEvent(k, down));
    }
  }

  /** The event does not edit the monitors or the placement of the client that is active. */
  predicate SparesOwner(s: State, e: Event) {
    s.active.Some? && s.active.value in s.clients ==>
      && (e.ClientMonitors? ==> e.id != s.active.value)
      && (e.Place? ==> e.name != s.clients[s.active.value].name)
  }

  lemma StepTracks(s: State, e: Event, ch: Choice)
    requires Protocol(s) && Legal(s, e, ch) && Tracks(s) && SparesOwner(s, e)
    ensures Tracks(Step(s, e, ch))
  {
    if e.Move? {
      MoveTracks(s, e.x, e.y, ch);
    } else if e.Button? || e.Wheel? || e.Key? {
      InputTracks(s, e, ch);
    }
  }

  /** All through a grab, from a state in which nobody was active: if the owner is not edited
      on the way, its pointer is on the pixel under the virtual cursor, whatever the layout. */
  lemma {:induction false} PointerFollows(r: Run, i: nat, j: nat)
    requires r.Valid() && i <= j < |r.states| && r.states[i].active.None?
    requires forall k :: i <= k < j ==> SparesOwner(r.states[k], r.events[k])
    ensures Tracks(r.states[j])
    decreases j
  {
    if i < j {
      PointerFollows(r, i, j - 1);
      RunStep(r, j - 1);
      RunKeepsProtocol(r, j - 1);
      StepTracks(r.states[j - 1], r.events[j - 1], r.choices[j - 1]);
    }
  }

  /** An edited owner is tracked again after the next motion that reports a position. */
  lemma MotionRestoresTracking(s: State, x: int, y: int, ch: Choice)
    requires s.ActiveKnown() && LegalMove(s, x, y, ch) && (PushesOut(s, x, y) || Drives(s, x, y))
    ensures Tracks(MoveStep(s, x, y, ch))
  {
    ResolveTracks(Aimed(s, x, y, ch), ch);
  }

  /** Until then, dragging the owner leaves its pointer under the cursor only if it does not
      move the owner at all. */
  lemma DragKeepsTrackingIff(s: State, name: Name, p: Placement)
    requires Protocol(s) && Tracks(s) && ScreensFollow(s)
    requires s.active.Some? && s.clients[s.active.value].name == name
    requires Nameable(s.clients[s.active.value].monitors)
    ensures Tracks(PlaceStep(s, name, p)) <==> p == s.placements[name]
  {
    var c, d := s.clients[s.active.value], PlaceStep(s, name, p).clients[s.active.value];
    assert d.monitors == c.monitors && d.sent == c.sent;
    assert PointerOf(d) == PointerOf(c);
  }
}
