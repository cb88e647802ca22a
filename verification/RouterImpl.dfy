/** The router itself, field for field, computing on 32-bit integers, proved against
    RouterModel. Bounded is the inductive invariant that keeps every addition and
    subtraction of the program inside the 32-bit range. */
module RouterImpl {
  import opened Wire
  import opened Geometry
  import opened RouterModel
  import opened Scanning

  predicate Near(v: int, bound: int) { -bound <= v <= bound }

  predicate PointNear(p: (int, int), bound: int) { Near(p.0, bound) && Near(p.1, bound) }

  predicate ClientBounded(c: Client) {
    InReach(c.monitors) && Near(c.offX, 3 * REACH) && Near(c.offY, 3 * REACH)
  }

  predicate PlacementBounded(p: Placement) { PointNear((p.x, p.y), 2 * REACH) }

  /** The 32-bit safety invariant: everything the router computes from stays close
      enough to the origin that no sum or difference leaves the 32-bit range. */
  predicate Bounded(s: State) {
    && InReach(s.serverMons)
    && PointNear((s.box.l, s.box.t), 2 * REACH) && PointNear((s.box.r, s.box.b), 2 * REACH)
    && PointNear(s.trap, 2 * REACH) && PointNear(s.v, 6 * REACH) && PointNear(s.last, 6 * REACH)
    && (forall id :: id in s.clients ==> ClientBounded(s.clients[id]))
    && (forall n :: n in s.placements ==> PlacementBounded(s.placements[n]))
  }

  lemma {:induction false} CornerInReach(ms: seq<Monitor>)
    requires InReach(ms)
    ensures var b := Bounds(Screens(ms, 0, 0)); -REACH <= b.l <= REACH && -REACH <= b.t <= REACH
  {
    if |ms| > 0 {
      var n := |ms| - 1;
      CornerInReach(ms[..n]);
      BoundsGrow(ms, 0, 0, n);
      assert ms[..n + 1] == ms && MonitorInReach(ms[n]);
    }
  }

  lemma {:induction false} TrapInReach(ms: seq<Monitor>)
    requires InReach(ms)
    ensures PointNear(TrapOf(ms), 2 * REACH)
  {
    if |ms| > 0 {
      assert MonitorInReach(ms[|ms| - 1]);
      TrapInReach(ms[..|ms| - 1]);
    }
  }

  /** The server's bounding box and trap point. */
  method MeasureServer(ms: seq<Monitor>)
    returns (l: int32, t: int32, r: int32, b: int32, cx: int32, cy: int32)
    requires InReach(ms)
    ensures Rect(l as int, t as int, r as int, b as int) == Bounds(Screens(ms, 0, 0))
    ensures (cx as int, cy as int) == TrapOf(ms)
    ensures Within(l, 2 * REACH) && Within(t, 2 * REACH) && Within(r, 2 * REACH) && Within(b, 2 * REACH)
    ensures Within(cx, 2 * REACH) && Within(cy, 2 * REACH)
  {
    l, t, r, b := Extents(ms, 0, 0);
    BoundsInReach(ms, 0, 0);
    CornerInReach(ms);
    cx, cy := TrapPoint(ms);
    TrapInReach(ms);
  }

  /** applyPlacementAt: translate the monitors so that their corner lands on p. */
  method ApplyPlacement(c: Client, ms: seq<Monitor>, p: Placement) returns (moved: Client)
    requires InReach(ms) && PlacementBounded(p)
    ensures moved == Placed(c, ms, p) && ClientBounded(moved)
  {
    var minX, minY, _, _ := Extents(ms, 0, 0);
    CornerInReach(ms);
    var offsetX := p.x as int32 - minX;
    var offsetY := p.y as int32 - minY;
    moved := c.(monitors := ms, offX := offsetX as int, offY := offsetY as int);
  }

  /** sendAbs: the position message for the first monitor under the cursor. */
  method PositionMessage(c: Client, vx: int32, vy: int32) returns (ms: seq<Message>)
    requires ClientBounded(c)
    ensures ms == AbsMessages(c, (vx as int, vy as int))
  {
    ghost var qs := c.Rects();
    var ox, oy := c.offX as int32, c.offY as int32;
    var i := 0;
    while i < |c.monitors|
      invariant 0 <= i <= |c.monitors|
      invariant FirstHit(qs, vx as int, vy as int, 0) == FirstHit(qs, vx as int, vy as int, i)
    {
      var m := c.monitors[i];
      assert MonitorInReach(m);
      var left, top := ox + m.x, oy + m.y;
      if vx >= left && vx < left + m.w as int32 && vy >= top && vy < top + m.h as int32 {
        return [MouseAbs(m.id, ((vx - left) % 0x1_0000) as uint16, ((vy - top) % 0x1_0000) as uint16)];
      }
      i := i + 1;
    }
    ms := [];
  }

  /** How far past the box in direction d the coordinate edge lies. */
  function EdgeDepth(box: Rect, d: Dir, edge: int): int {
    match d
    case ToRight => edge - box.r
    case ToLeft => box.l - edge
    case ToBottom => edge - box.b
    case ToTop => box.t - edge
  }

  predicate Closer(d: Dir, edge: int32, best: int32) {
    if d.ToRight? || d.ToBottom? then edge < best else edge > best
  }

  /** Whether a ray in direction d hits monitor m beyond the box, and where. */
  method MonitorEdge(m: Monitor, ox: int32, oy: int32, minX: int32, maxX: int32, minY: int32, maxY: int32,
                     d: Dir, perp: int32)
    returns (hit: bool, edge: int32)
    requires MonitorInReach(m) && ShiftInReach(ox, oy)
    ensures var box := Rect(minX as int, minY as int, maxX as int, maxY as int);
      var q := Screen(m, ox as int, oy as int);
      && hit == (Depth(box, d, q) >= 0 && Spans(d, q, perp as int))
      && EdgeDepth(box, d, edge as int) == Depth(box, d, q)
    ensures Within(edge, 5 * REACH)
  {
    var left, top := ox + m.x, oy + m.y;
    var right, bot := left + m.w as int32, top + m.h as int32;
    match d
    case ToRight => edge, hit := left, left >= maxX && top <= perp < bot;
    case ToLeft => edge, hit := right, right <= minX && top <= perp < bot;
    case ToBottom => edge, hit := top, top >= maxY && left <= perp < right;
    case ToTop => edge, hit := bot, bot <= minY && left <= perp < right;
  }

  /** edge is the nearest edge of c's first i monitors that the ray hits, if any. */
  ghost predicate NearestAmong(c: Client, i: nat, box: Rect, d: Dir, perp: int, found: bool, edge: int)
    requires i <= |c.monitors|
  {
    && (found ==> RayHits(c, box, d, perp, EdgeDepth(box, d, edge)))
    && forall j :: 0 <= j < i ==>
         var q := c.Rects()[j];
         Depth(box, d, q) >= 0 && Spans(d, q, perp) ==> found && EdgeDepth(box, d, edge) <= Depth(box, d, q)
  }

  lemma NearestIsNearest(c: Client, box: Rect, d: Dir, perp: int, found: bool, edge: int)
    requires NearestAmong(c, |c.monitors|, box, d, perp, found, edge)
    ensures forall k :: RayHits(c, box, d, perp, k) ==> found && EdgeDepth(box, d, edge) <= k
  {
  }

  class Router {
    var serverMons: seq<Monitor>
    var serverMinX: int32
    var serverMaxX: int32
    var serverMinY: int32
    var serverMaxY: int32
    var trapX: int32
    var trapY: int32
    var clients: map<ConnId, Client>
    var placements: map<Name, Placement>
    var vx: int32
    var vy: int32
    var haveLastAbs: bool
    var lastAbsX: int32
    var lastAbsY: int32
    var heldBtns: set<byte>
    var btnsOnClient: set<byte>
    var heldKeys: set<uint16>
    var keysOnClient: set<uint16>
    var grabSyncing: bool
    var active: Option<ConnId>
    var hasCtl: bool
    ghost var phase: Phase
    ghost var host: Host

    ghost function View(): State
      reads this
    {
      State(serverMons,
            Rect(serverMinX as int, serverMinY as int, serverMaxX as int, serverMaxY as int),
            (trapX as int, trapY as int), clients, placements,
            (vx as int, vy as int), haveLastAbs, (lastAbsX as int, lastAbsY as int),
            heldBtns, btnsOnClient, heldKeys, keysOnClient, grabSyncing, active, phase, host)
    }

    ghost predicate Valid()
      reads this
    {
      Bounded(View()) && View().ActiveKnown() && hasCtl == !phase.Idle?
    }

    // ---- Construction and the capture loop's ends ----

    constructor (ms: seq<Monitor>, seeds: map<Name, Placement>)
      requires InReach(ms) && forall n :: n in seeds ==> PlacementBounded(seeds[n])
      ensures Valid() && View() == Initial(ms, seeds)
    {
      serverMons, placements, clients := ms, seeds, map[];
      vx, vy, lastAbsX, lastAbsY, haveLastAbs := 0, 0, 0, 0, false;
      heldBtns, btnsOnClient, heldKeys, keysOnClient := {}, {}, {}, {};
      grabSyncing, active, hasCtl := false, None, false;
      phase, host := Idle, Host(false, true, (0, 0), {}, {});
      var l, t, r, b, cx, cy := MeasureServer(ms);
      serverMinX, serverMaxX, serverMinY, serverMaxY := l, r, t, b;
      trapX, trapY := cx, cy;
    }

    method StartCapture()
      requires Valid() && phase.Idle?
      modifies this
      ensures Valid() && View() == Step(old(View()), Start, Choice(None, None, [], []))
    {
      hasCtl, vx, vy, phase := true, trapX, trapY, Running;
    }

    method StopCapture()
      requires Valid() && phase.Running?
      modifies this
      ensures Valid() && View() == Step(old(View()), Stop, Choice(None, None, [], []))
    {
      phase, host := Stopped, host.(consume := false, visible := true);
    }

    /** The loop's other exit: the capture channel was closed. */
    method LoseCapture()
      requires Valid() && phase.Running?
      modifies this`phase
      ensures Valid() && View() == Step(old(View()), CaptureLost, Choice(None, None, [], []))
    {
      phase := Lost;
    }

    method UpdateServerMonitors(ms: seq<Monitor>)
      requires Valid() && InReach(ms)
      modifies this`serverMons, this`trapX, this`trapY
      modifies this`serverMinX, this`serverMaxX, this`serverMinY, this`serverMaxY
      ensures Valid() && View() == ServerMonitorsStep(old(View()), ms)
    {
      ghost var s := View();
      var l, t, r, b, cx, cy := MeasureServer(ms);
      serverMons, trapX, trapY := ms, cx, cy;
      serverMinX, serverMaxX, serverMinY, serverMaxY := l, r, t, b;
      assert View() == ServerMonitorsStep(s, ms);
    }

    // ---- Registration and placement ----

    method EnsurePlacement(name: Name) returns (p: Placement)
      requires Valid()
      modifies this`placements
      ensures Valid() && p == PlacementFor(old(View()), name)
      ensures View() == old(View()).(placements := old(placements)[name := p])
    {
      if name in placements {
        p := placements[name];
        assert placements == placements[name := p];
      } else {
        var maxX := RightmostEdge();
        p := Placement(maxX as int, serverMinY as int);
        placements := placements[name := p];
      }
    }

    method RightmostEdge() returns (maxX: int32)
      requires Valid()
      ensures maxX as int == Rightmost(View().box.r, placements) && Within(maxX, 2 * REACH)
    {
      maxX := serverMaxX;
      var todo := placements.Keys;
      while todo != {}
        invariant todo <= placements.Keys && serverMaxX <= maxX && Within(maxX, 2 * REACH)
        invariant forall n :: n in placements && n !in todo ==> placements[n].x <= maxX as int
        invariant maxX == serverMaxX || exists n :: n in placements && placements[n].x == maxX as int
        decreases todo
      {
        var n :| n in todo;
        assert PlacementBounded(placements[n]);
        if placements[n].x as int32 > maxX { maxX := placements[n].x as int32; }
        todo := todo - {n};
      }
      assert IsRightmost(View().box.r, placements, maxX as int);
    }

    method Register(id: ConnId, name: Name, ms: seq<Monitor>) returns (p: Placement)
      requires Valid() && InReach(ms) && id !in clients
      modifies this`placements, this`clients
      ensures Valid() && p == PlacementFor(old(View()), name)
      ensures View() == RegisterStep(old(View()), id, name, ms)
    {
      p := EnsurePlacement(name);
      assert PlacementBounded(View().placements[name]);
      var c := ApplyPlacement(Client(name, [], 0, 0, []), ms, p);
      clients := clients[id := c];
    }

    method UpdateMonitors(id: ConnId, ms: seq<Monitor>)
      requires Valid() && InReach(ms)
      modifies this`clients
      ensures Valid() && View() == ClientMonitorsStep(old(View()), id, ms)
    {
      if id !in clients { return; }
      var c := clients[id];
      var p := if c.name in placements then placements[c.name] else Placement(0, 0);
      c := ApplyPlacement(c, ms, p);
      clients := clients[id := c];
    }

    method SetPlacement(name: Name, x: int32, y: int32)
      requires Valid() && Within(x, 2 * REACH) && Within(y, 2 * REACH)
      modifies this`placements, this`clients
      ensures Valid() && View() == PlaceStep(old(View()), name, Placement(x as int, y as int))
    {
      var p := Placement(x as int, y as int);
      assert forall id :: id in clients ==> id in View().clients;
      MoveNamed(name, p);
      placements := placements[name := p];
      assert clients == PlaceStep(old(View()), name, p).clients;
    }

    method MoveNamed(name: Name, p: Placement)
      requires PlacementBounded(p) && forall id :: id in clients ==> ClientBounded(clients[id])
      modifies this`clients
      ensures clients.Keys == old(clients).Keys
      ensures forall id :: id in clients ==>
        clients[id] == MovedIfNamed(old(clients)[id], name, p) && ClientBounded(clients[id])
    {
      var before, todo := clients, clients.Keys;
      while todo != {}
        invariant todo <= before.Keys && clients.Keys == before.Keys
        invariant forall id :: id in before ==>
          clients[id] == if id in todo then before[id] else MovedIfNamed(before[id], name, p)
        invariant forall id :: id in clients ==> ClientBounded(clients[id])
        decreases todo
      {
        var id :| id in todo;
        if clients[id].name == name {
          var c := ApplyPlacement(clients[id], clients[id].monitors, p);
          clients := clients[id := c];
        }
        todo := todo - {id};
      }
    }

    method Unregister(id: ConnId)
      requires Valid()
      modifies this
      ensures Valid() && View() == UnregisterStep(old(View()), id)
    {
      if id !in clients { return; }
      if active == Some(id) { LeaveGrab(); }
      clients := clients - {id};
    }

    /** The grabbed client's session is gone: nothing can be sent any more. */
    method LeaveGrab()
      requires Valid() && active.Some?
      modifies this`btnsOnClient, this`keysOnClient, this`active, this`grabSyncing, this`host,
               this`vx, this`vy, this`lastAbsX, this`lastAbsY
      ensures Valid() && View() == Leave(old(View()))
    {
      var x, y := ClampToServerScreens(vx, vy, serverMons);
      grabSyncing := false;
      Own(None);
      host := host.(consume := if hasCtl then false else host.consume,
                    visible := true, warp := (x as int, y as int));
      Park(x, y);
    }

    /** A new owner, or none, to whom nothing has been forwarded yet. */
    method Own(owner: Option<ConnId>)
      requires Valid() && (owner.Some? ==> owner.value in clients)
      modifies this`btnsOnClient, this`keysOnClient, this`active
      ensures Valid() && View() == old(View()).(btnsOn := {}, keysOn := {}, active := owner)
    {
      btnsOnClient, keysOnClient, active := {}, {}, owner;
    }

    /** The cursor and the edge detector's memory both move to (x, y). */
    method Park(x: int32, y: int32)
      requires Valid() && OnDesk(x, y)
      modifies this`vx, this`vy, this`lastAbsX, this`lastAbsY
      ensures Valid()
      ensures View() == old(View()).(v := (x as int, y as int), last := (x as int, y as int))
    {
      vx, vy, lastAbsX, lastAbsY := x, y, x, y;
    }

    // ---- Sending ----

    /** Messages on one session; every other session is untouched. */
    method Send(id: ConnId, ms: seq<Message>)
      requires Valid() && id in clients
      modifies this`clients
      ensures Valid() && View() == Deliver(old(View()), id, ms)
    {
      clients := clients[id := clients[id].(sent := clients[id].sent + ms)];
    }

    method SendCursor(id: ConnId)
      requires Valid() && id in clients
      modifies this`clients
      ensures Valid() && View() == Deliver(old(View()), id, AbsMessages(old(clients)[id], old(View()).v))
    {
      assert ClientBounded(View().clients[id]);
      var ms := PositionMessage(clients[id], vx, vy);
      Send(id, ms);
    }

    method ReleaseButton(b: byte)
      requires Valid() && active.Some?
      modifies this`clients, this`btnsOnClient
      ensures Valid() && btnsOnClient == old(btnsOnClient) - {b}
      ensures View() == Deliver(old(View()), active.value, [MouseButton(b, false)]).(btnsOn := btnsOnClient)
    {
      Send(active.value, [MouseButton(b, false)]);
      btnsOnClient := btnsOnClient - {b};
    }

    /** Sends an UP for every button the active client was sent a DOWN for, in some order. */
    method ReleaseButtons() returns (order: seq<byte>)
      requires Valid() && active.Some?
      modifies this`clients, this`btnsOnClient
      ensures Valid() && Enumerates(order, old(btnsOnClient))
      ensures View() == Deliver(old(View()), active.value, ButtonUps(order)).(btnsOn := {})
    {
      order := [];
      ghost var s0 := View();
      DeliverNothing(s0, active.value);
      while btnsOnClient != {}
        invariant Valid() && btnsOnClient <= s0.btnsOn
        invariant Enumerates(order, s0.btnsOn - btnsOnClient)
        invariant View() == Deliver(s0, active.value, ButtonUps(order)).(btnsOn := btnsOnClient)
        decreases btnsOnClient
      {
        var b :| b in btnsOnClient;
        DeliverMore(s0, active.value, ButtonUps(order), [MouseButton(b, false)]);
        assert ButtonUps(order) + [MouseButton(b, false)] == ButtonUps(order + [b]);
        ReleaseButton(b);
        order := order + [b];
      }
    }

    method ReleaseKey(k: uint16)
      requires Valid() && active.Some?
      modifies this`clients, this`keysOnClient
      ensures Valid() && keysOnClient == old(keysOnClient) - {k}
      ensures View() == Deliver(old(View()), active.value, [KeyEvent(k, false)]).(keysOn := keysOnClient)
    {
      Send(active.value, [KeyEvent(k, false)]);
      keysOnClient := keysOnClient - {k};
    }

    /** The same for keys. */
    method ReleaseKeys() returns (order: seq<uint16>)
      requires Valid() && active.Some?
      modifies this`clients, this`keysOnClient
      ensures Valid() && Enumerates(order, old(keysOnClient))
      ensures View() == Deliver(old(View()), active.value, KeyUps(order)).(keysOn := {})
    {
      order := [];
      ghost var s0 := View();
      DeliverNothing(s0, active.value);
      while keysOnClient != {}
        invariant Valid() && keysOnClient <= s0.keysOn
        invariant Enumerates(order, s0.keysOn - keysOnClient)
        invariant View() == Deliver(s0, active.value, KeyUps(order)).(keysOn := keysOnClient)
        decreases keysOnClient
      {
        var k :| k in keysOnClient;
        DeliverMore(s0, active.value, KeyUps(order), [KeyEvent(k, false)]);
        assert KeyUps(order) + [KeyEvent(k, false)] == KeyUps(order + [k]);
        ReleaseKey(k);
        order := order + [k];
      }
    }

    /** Everything forwarded is released and the grab withdrawn from the active client. */
    method Withdraw() returns (btns: seq<byte>, keys: seq<uint16>)
      requires Valid() && active.Some?
      modifies this`clients, this`btnsOnClient, this`keysOnClient
      ensures Valid() && Enumerates(btns, old(btnsOnClient)) && Enumerates(keys, old(keysOnClient))
      ensures View() == Deliver(old(View()), active.value, ButtonUps(btns) + KeyUps(keys) + [Grab(false)])
                        .(btnsOn := {}, keysOn := {})
    {
      ghost var s0 := View();
      btns := ReleaseButtons();
      keys := ReleaseKeys();
      DeliverMore(s0, active.value, ButtonUps(btns), KeyUps(keys));
      DeliverMore(s0, active.value, ButtonUps(btns) + KeyUps(keys), [Grab(false)]);
      Send(active.value, [Grab(false)]);
    }

    // ---- Looking clients up ----

    /** clientAt: any client with a monitor under (x, y), whichever iteration meets first. */
    method ClientAt(x: int32, y: int32) returns (found: Option<ConnId>)
      requires Valid()
      ensures match found
              case Some(id) => id in clients && clients[id].Covers(x as int, y as int)
              case None => forall id :: id in clients ==> !clients[id].Covers(x as int, y as int)
    {
      var todo := clients.Keys;
      while todo != {}
        invariant todo <= clients.Keys
        invariant forall id :: id in clients && id !in todo ==> !clients[id].Covers(x as int, y as int)
        decreases todo
      {
        var id :| id in todo;
        var c := clients[id];
        assert ClientBounded(View().clients[id]);
        var here := Contains(c.monitors, c.offX as int32, c.offY as int32, x, y);
        if here { return Some(id); }
        todo := todo - {id};
      }
      found := None;
    }

    method ClientEdge(c: Client, d: Dir, perp: int32) returns (found: bool, edge: int32)
      requires Valid() && ClientBounded(c)
      ensures NearestAmong(c, |c.monitors|, View().box, d, perp as int, found, edge as int)
      ensures Within(edge, 5 * REACH)
    {
      found, edge := false, 0;
      ghost var box := View().box;
      var i := 0;
      while i < |c.monitors|
        invariant 0 <= i <= |c.monitors| && Within(edge, 5 * REACH)
        invariant NearestAmong(c, i, box, d, perp as int, found, edge as int)
      {
        assert MonitorInReach(c.monitors[i]);
        var hit, e := MonitorEdge(c.monitors[i], c.offX as int32, c.offY as int32,
                                  serverMinX, serverMaxX, serverMinY, serverMaxY, d, perp);
        assert c.Rects()[i] == Screen(c.monitors[i], c.offX, c.offY);
        if hit && (!found || Closer(d, e, edge)) {
          found, edge := true, e;
        }
        i := i + 1;
      }
    }

    /** raycastClient: the nearest edge of any client the ray meets beyond the server. */
    method RaycastClient(d: Dir, perp: int32) returns (found: bool, edge: int32)
      requires Valid()
      ensures LegalRay(View(), d, perp as int,
                       if found then Some(EdgeDepth(View().box, d, edge as int)) else None)
      ensures Within(edge, 5 * REACH)
    {
      found, edge := false, 0;
      ghost var box, across := View().box, perp as int;
      var todo := clients.Keys;
      while todo != {}
        invariant todo <= clients.Keys && Within(edge, 5 * REACH)
        invariant found ==>
          exists id :: id in clients && RayHits(clients[id], box, d, across, EdgeDepth(box, d, edge as int))
        invariant forall id :: id in clients && id !in todo ==>
          forall k :: RayHits(clients[id], box, d, across, k) ==>
            found && EdgeDepth(box, d, edge as int) <= k
        decreases todo
      {
        var id :| id in todo;
        assert ClientBounded(View().clients[id]);
        var hit, e := ClientEdge(clients[id], d, perp);
        NearestIsNearest(clients[id], box, d, across, hit, e as int);
        if hit && (!found || Closer(d, e, edge)) {
          found, edge := true, e;
        }
        todo := todo - {id};
      }
    }

    // ---- Grab transitions ----

    /** Injects an UP on the host for every input the user is holding down. */
    method ReleaseHostInputs()
      requires Valid()
      modifies this`host
      ensures Valid()
      ensures host == old(host).(btns := old(host).btns - heldBtns, keys := old(host).keys - heldKeys)
    {
      ghost var h := host;
      var bs := heldBtns;
      while bs != {}
        invariant bs <= heldBtns && host == h.(btns := h.btns - (heldBtns - bs))
        decreases bs
      {
        var b :| b in bs;
        host := host.(btns := host.btns - {b});
        bs := bs - {b};
      }
      var ks := heldKeys;
      while ks != {}
        invariant ks <= heldKeys
        invariant host == h.(btns := h.btns - heldBtns, keys := h.keys - (heldKeys - ks))
        decreases ks
      {
        var k :| k in ks;
        host := host.(keys := host.keys - {k});
        ks := ks - {k};
      }
    }

    /** A client is told that it owns the cursor, and where the cursor is. */
    method Grant(id: ConnId)
      requires Valid() && id in clients
      modifies this`clients
      ensures Valid()
      ensures View() == Deliver(old(View()), id, [Grab(true)] + AbsMessages(old(clients)[id], old(View()).v))
    {
      ghost var s0 := View();
      Send(id, [Grab(true)]);
      AbsMessagesIgnoreLog(s0.clients[id], clients[id], s0.v);
      DeliverMore(s0, id, [Grab(true)], AbsMessages(s0.clients[id], s0.v));
      SendCursor(id);
    }

    method AcquireGrab(id: ConnId)
      requires Valid() && id in clients && active.None?
      modifies this
      ensures Valid() && View() == OpenGrab(old(View()), id)
    {
      ReleaseHostInputs();
      Own(Some(id));
      Grant(id);
      host := host.(consume := true, visible := false);
    }

    /** The cursor returns to the server's desktop, padded away from its edges. */
    method ParkOnServer()
      requires Valid()
      modifies this`vx, this`vy, this`lastAbsX, this`lastAbsY, this`host
      ensures Valid()
      ensures var p := ParkPoint(old(View()));
        View() == old(View()).(v := p, last := p,
                               host := old(host).(consume := false, visible := true, warp := p))
    {
      var x, y := ClampToServerScreens(vx, vy, serverMons);
      x := PadInside(x, serverMinX, serverMaxX);
      y := PadInside(y, serverMinY, serverMaxY);
      host := host.(consume := false, visible := true, warp := (x as int, y as int));
      Park(x, y);
    }

    method ReleaseGrab(ghost ray: Option<int>) returns (ghost ch: Choice)
      requires Valid() && active.Some?
      modifies this
      ensures Valid() && ch.target.None? && ch.ray == ray
      ensures Enumerates(ch.btns, old(btnsOnClient)) && Enumerates(ch.keys, old(keysOnClient))
      ensures View() == CloseGrab(old(View()), ch)
    {
      var btns, keys := Withdraw();
      ch := Choice(ray, None, btns, keys);
      active, grabSyncing := None, false;
      ParkOnServer();
    }

    method SwitchTo(id: ConnId, ghost ray: Option<int>) returns (ghost ch: Choice)
      requires Valid() && active.Some? && id in clients && id != active.value
      modifies this
      ensures Valid() && ch.target == Some(id) && ch.ray == ray
      ensures Enumerates(ch.btns, old(btnsOnClient)) && Enumerates(ch.keys, old(keysOnClient))
      ensures View() == SwitchGrab(old(View()), id, ch)
    {
      var btns, keys := Withdraw();
      ch := Choice(ray, Some(id), btns, keys);
      active := Some(id);
      Grant(id);
    }

    /** resolveRegion: what the region under the cursor does to the grab. */
    method ResolveRegion(ghost ray: Option<int>) returns (ghost ch: Choice)
      requires Valid()
      modifies this
      ensures Valid() && ch.ray == ray
      ensures LegalResolve(old(View()), ch) && View() == Resolve(old(View()), ch)
    {
      var target := ClientAt(vx, vy);
      if active.None? {
        ghost var btns, keys := SomeOrder(btnsOnClient), SomeOrder(keysOnClient);
        ch := Choice(ray, target, btns, keys);
        if target.Some? { AcquireGrab(target.value); }
      } else if target.None? {
        ch := ReleaseGrab(ray);
      } else if target != active {
        ch := SwitchTo(target.value, ray);
      } else {
        ghost var btns, keys := SomeOrder(btnsOnClient), SomeOrder(keysOnClient);
        ch := Choice(ray, target, btns, keys);
        SendCursor(target.value);
      }
    }

    // ---- Pointer motion ----

    method Pushing(d: Dir, absX: int32, absY: int32) returns (push: bool)
      requires Valid() && Within(absX, 2 * REACH) && Within(absY, 2 * REACH)
      ensures push == Pushes(View(), d, absX as int, absY as int)
    {
      var at := EdgeAt(d, absX, absY);
      var lastAt := false;
      if haveLastAbs { lastAt := EdgeAt(d, lastAbsX, lastAbsY); }
      push := at && lastAt;
    }

    method EdgeAt(d: Dir, x: int32, y: int32) returns (at: bool)
      requires Valid() && OnDesk(x, y)
      ensures at == AtEdge(View().ServerRects(), d, x as int, y as int)
    {
      var dx: int32 := match d case ToRight => 1 case ToLeft => -1 case _ => 0;
      var dy: int32 := match d case ToBottom => 1 case ToTop => -1 case _ => 0;
      var covered := Contains(serverMons, 0, 0, x + dx, y + dy);
      at := !covered;
    }

    method PushDirection(absX: int32, absY: int32) returns (d: Option<Dir>)
      requires Valid() && Within(absX, 2 * REACH) && Within(absY, 2 * REACH)
      ensures d == PushDir(View(), absX as int, absY as int)
    {
      var right := Pushing(ToRight, absX, absY);
      var left := Pushing(ToLeft, absX, absY);
      var bot := Pushing(ToBottom, absX, absY);
      var top := Pushing(ToTop, absX, absY);
      d := if right then Some(ToRight) else if left then Some(ToLeft)
           else if bot then Some(ToBottom) else if top then Some(ToTop) else None;
    }

    /** Just past the edge the ray hits, or past the desktop's own edge. */
    method RayTarget(d: Dir, absX: int32, absY: int32) returns (x: int32, y: int32, ghost ray: Option<int>)
      requires Valid() && Within(absX, 2 * REACH) && Within(absY, 2 * REACH)
      ensures OnDesk(x, y) && LegalRay(View(), d, Across(d, absX as int, absY as int), ray)
      ensures (x as int, y as int)
           == Projected(View(), d, absX as int, absY as int, ray)
    {
      var found, edge := RaycastClient(d, if d.ToRight? || d.ToLeft? then absY else absX);
      ray := if found then Some(EdgeDepth(View().box, d, edge as int)) else None;
      if !found {
        edge := match d case ToRight => serverMaxX case ToLeft => serverMinX
                        case ToBottom => serverMaxY case ToTop => serverMinY;
      }
      var p := PastEdge(d, edge, absX, absY);
      x, y := p.0, p.1;
    }

    /** The cursor jumps there. */
    method ProjectCursor(d: Dir, absX: int32, absY: int32) returns (ghost ray: Option<int>)
      requires Valid() && Within(absX, 2 * REACH) && Within(absY, 2 * REACH)
      modifies this`vx, this`vy
      ensures Valid()
      ensures LegalRay(old(View()), d, Across(d, absX as int, absY as int), ray)
      ensures View() == old(View()).(
        v := Projected(old(View()), d, absX as int, absY as int, ray))
    {
      var x, y;
      x, y, ray := RayTarget(d, absX, absY);
      vx, vy := x, y;
    }

    method RememberAbs(x: int32, y: int32)
      requires Valid() && OnDesk(x, y)
      modifies this`lastAbsX, this`lastAbsY, this`haveLastAbs
      ensures Valid() && View() == old(View()).(last := (x as int, y as int), haveLast := true)
    {
      lastAbsX, lastAbsY, haveLastAbs := x, y, true;
    }

    /** The pointer is warped to the trap point, and the edge detector told so. */
    method Trap()
      requires Valid()
      modifies this`lastAbsX, this`lastAbsY, this`host
      ensures Valid()
      ensures View() == old(View()).(last := old(View()).trap,
                                     host := old(host).(warp := old(View()).trap))
    {
      host := host.(warp := (trapX as int, trapY as int));
      lastAbsX, lastAbsY := trapX, trapY;
    }

    /** A push past the desktop's edge: project, resolve, then trap or remember. */
    method CrossEdge(d: Dir, absX: int32, absY: int32) returns (ghost ch: Choice)
      requires Valid() && Within(absX, 2 * REACH) && Within(absY, 2 * REACH)
      modifies this
      ensures Valid() && LegalRay(old(View()), d, Across(d, absX as int, absY as int), ch.ray)
      ensures var a := old(View()).(v := Projected(old(View()), d, absX as int, absY as int, ch.ray));
        LegalResolve(a, ch) && View() == AfterPush(Resolve(a, ch), absX as int, absY as int)
    {
      ghost var ray := ProjectCursor(d, absX, absY);
      ch := ResolveRegion(ray);
      FinishCross(absX, absY);
    }

    method FinishCross(absX: int32, absY: int32)
      requires Valid() && Within(absX, 2 * REACH) && Within(absY, 2 * REACH)
      modifies this`lastAbsX, this`lastAbsY, this`haveLastAbs, this`host, this`grabSyncing
      ensures Valid() && View() == AfterPush(old(View()), absX as int, absY as int)
    {
      if active.Some? {
        Trap();
        grabSyncing := true;
      } else {
        RememberAbs(absX, absY);
      }
    }

    method MoveFreely(absX: int32, absY: int32)
      requires Valid() && Within(absX, 2 * REACH) && Within(absY, 2 * REACH)
      modifies this`vx, this`vy, this`lastAbsX, this`lastAbsY, this`haveLastAbs
      ensures Valid()
      ensures var p := (absX as int, absY as int);
        View() == old(View()).(v := p, last := p, haveLast := true)
    {
      vx, vy := absX, absY;
      RememberAbs(absX, absY);
    }

    method MoveUngrabbed(absX: int32, absY: int32) returns (ghost ch: Choice)
      requires Valid() && active.None? && Within(absX, 2 * REACH) && Within(absY, 2 * REACH)
      modifies this
      ensures Valid() && LegalMove(old(View()), absX as int, absY as int, ch)
      ensures View() == MoveStep(old(View()), absX as int, absY as int, ch)
    {
      var d := PushDirection(absX, absY);
      if d.None? {
        ch := Choice(None, None, [], []);
        MoveFreely(absX, absY);
      } else {
        ch := CrossEdge(d.value, absX, absY);
      }
    }

    /** A settled motion of the grabbed cursor. */
    method Drive(rawX: int32, rawY: int32) returns (ghost ch: Choice)
      requires Valid() && active.Some? && Within(rawX, 10 * REACH) && Within(rawY, 10 * REACH)
      modifies this
      ensures Valid()
      ensures var s := old(View());
        var p := Confine(s.clients[s.active.value].Rects(), s.ServerRects(), rawX as int, rawY as int);
        var a := s.(v := p, last := s.trap, host := s.host.(warp := s.trap));
        LegalResolve(a, ch) && View() == Resolve(a, ch)
    {
      DriveCursor(rawX, rawY);
      Trap();
      ch := ResolveRegion(None);
    }

    method Settle(absX: int32, absY: int32)
      requires Valid() && active.Some? && grabSyncing
      requires Within(absX, 2 * REACH) && Within(absY, 2 * REACH)
      modifies this`grabSyncing
      ensures Valid()
      ensures View() == old(View()).(syncing := !NearTrap(old(View()), absX as int, absY as int))
    {
      if AbsInt32(absX - trapX) <= SETTLE_PX as int32 && AbsInt32(absY - trapY) <= SETTLE_PX as int32 {
        grabSyncing := false;
      }
    }

    /** Motion away from the trap is the hardware's delta; it moves the virtual cursor. */
    method DriveBy(absX: int32, absY: int32) returns (ghost ch: Choice)
      requires Valid() && Within(absX, 2 * REACH) && Within(absY, 2 * REACH)
      requires Drives(View(), absX as int, absY as int)
      modifies this
      ensures Valid() && LegalMove(old(View()), absX as int, absY as int, ch)
      ensures View() == MoveStep(old(View()), absX as int, absY as int, ch)
    {
      ghost var s := View();
      var dx, dy := absX - trapX, absY - trapY;
      var rawX, rawY := vx + dx, vy + dy;
      ch := Drive(rawX, rawY);
      DrivingMove(s, absX as int, absY as int, ch, rawX as int, rawY as int, View());
    }

    method MoveGrabbed(absX: int32, absY: int32) returns (ghost ch: Choice)
      requires Valid() && active.Some? && Within(absX, 2 * REACH) && Within(absY, 2 * REACH)
      modifies this
      ensures Valid() && LegalMove(old(View()), absX as int, absY as int, ch)
      ensures View() == MoveStep(old(View()), absX as int, absY as int, ch)
    {
      ch := Choice(None, None, [], []);
      if grabSyncing {
        SettlingMove(View(), absX as int, absY as int, ch);
        Settle(absX, absY);
      } else if absX != trapX || absY != trapY {
        ch := DriveBy(absX, absY);
      } else {
        StillMove(View(), absX as int, absY as int, ch);
      }
    }

    /** The cursor goes where confinement allows a raw move to (rawX, rawY). */
    method DriveCursor(rawX: int32, rawY: int32)
      requires Valid() && active.Some? && Within(rawX, 10 * REACH) && Within(rawY, 10 * REACH)
      modifies this`vx, this`vy
      ensures Valid()
      ensures View() == old(View()).(
        v := Confine(clients[active.value].Rects(), old(View()).ServerRects(), rawX as int, rawY as int))
    {
      var c := clients[active.value];
      assert ClientBounded(View().clients[active.value]);
      vx, vy := ConfineCursor(rawX, rawY, c.monitors, c.offX as int32, c.offY as int32, serverMons);
    }

    // ---- Events ----

    /** What the user holds, and what the host's own system sees of it. */
    method HoldButton(b: byte, down: bool)
      requires Valid()
      modifies this`heldBtns, this`host
      ensures Valid()
      ensures View() == old(View()).(
        heldBtns := Toggle(old(heldBtns), b, down),
        host := if old(host).consume then old(host) else old(host).(btns := Toggle(old(host).btns, b, down)))
    {
      if !host.consume { host := host.(btns := Toggle(host.btns, b, down)); }
      heldBtns := if down then heldBtns + {b} else heldBtns - {b};
    }

    method ForwardButton(b: byte, down: bool)
      requires Valid() && active.Some?
      modifies this`clients, this`btnsOnClient
      ensures Valid()
      ensures View() == if down || b in old(btnsOnClient)
        then Deliver(old(View()), active.value, [MouseButton(b, down)]).(btnsOn := Toggle(old(btnsOnClient), b, down))
        else old(View())
    {
      if down {
        Send(active.value, [MouseButton(b, true)]);
        btnsOnClient := btnsOnClient + {b};
      } else if b in btnsOnClient {
        Send(active.value, [MouseButton(b, false)]);
        btnsOnClient := btnsOnClient - {b};
      }
    }

    method OnButton(b: byte, down: bool)
      requires Valid()
      modifies this`heldBtns, this`host, this`clients, this`btnsOnClient
      ensures Valid() && View() == ButtonStep(old(View()), b, down)
    {
      HoldButton(b, down);
      if active.Some? { ForwardButton(b, down); }
    }

    /** What the user holds, and what the host's own system sees of it. */
    method HoldKey(k: uint16, down: bool)
      requires Valid()
      modifies this`heldKeys, this`host
      ensures Valid()
      ensures View() == old(View()).(
        heldKeys := Toggle(old(heldKeys), k, down),
        host := if old(host).consume then old(host) else old(host).(keys := Toggle(old(host).keys, k, down)))
    {
      if !host.consume { host := host.(keys := Toggle(host.keys, k, down)); }
      heldKeys := if down then heldKeys + {k} else heldKeys - {k};
    }

    method ForwardKey(k: uint16, down: bool)
      requires Valid() && active.Some?
      modifies this`clients, this`keysOnClient
      ensures Valid()
      ensures View() == if down || k in old(keysOnClient)
        then Deliver(old(View()), active.value, [KeyEvent(k, down)]).(keysOn := Toggle(old(keysOnClient), k, down))
        else old(View())
    {
      if down {
        Send(active.value, [KeyEvent(k, true)]);
        keysOnClient := keysOnClient + {k};
      } else if k in keysOnClient {
        Send(active.value, [KeyEvent(k, false)]);
        keysOnClient := keysOnClient - {k};
      }
    }

    method OnKey(k: uint16, down: bool)
      requires Valid()
      modifies this`heldKeys, this`host, this`clients, this`keysOnClient
      ensures Valid() && View() == KeyStep(old(View()), k, down)
    {
      HoldKey(k, down);
      if active.Some? { ForwardKey(k, down); }
    }

    method OnWheel(dx: int16, dy: int16)
      requires Valid()
      modifies this`clients
      ensures Valid() && View() == WheelStep(old(View()), dx, dy)
    {
      if active.Some? { Send(active.value, [MouseWheel(dx, dy)]); }
    }

    /** handleEvent: one captured input, while the capture loop runs. Pointer samples
        are absolute positions on the host's desktop. */
    method HandleEvent(ev: Event) returns (ghost ch: Choice)
      requires Valid() && phase.Running? && (ev.Move? || ev.Button? || ev.Wheel? || ev.Key?)
      requires ev.Move? ==> PointNear((ev.x, ev.y), 2 * REACH)
      modifies this
      ensures Valid() && Legal(old(View()), ev, ch) && View() == Step(old(View()), ev, ch)
    {
      ch := Choice(None, None, [], []);
      match ev
      case Move(x, y) =>
        if active.None? {
          ch := MoveUngrabbed(x as int32, y as int32);
        } else {
          ch := MoveGrabbed(x as int32, y as int32);
        }
      case Button(b, down) => OnButton(b, down);
      case Wheel(dx, dy) => OnWheel(dx, dy);
      case Key(k, down) => OnKey(k, down);
    }
  }

  /** HYSTERESIS pixels past an edge in direction d. */
  function PastEdge(d: Dir, edge: int32, absX: int32, absY: int32): (p: (int32, int32))
    requires Within(edge, 5 * REACH)
  {
    match d
    case ToRight => (edge + HYSTERESIS_PX, absY)
    case ToLeft => (edge - 1 - HYSTERESIS_PX, absY)
    case ToBottom => (absX, edge + HYSTERESIS_PX)
    case ToTop => (absX, edge - 1 - HYSTERESIS_PX)
  }

  function AbsInt32(v: int32): (a: int32)
    requires v as int > -0x8000_0000
    ensures a as int == if v < 0 then -(v as int) else v as int
  {
    if v < 0 then -v else v
  }

  /** Some order of a finite set. */
  ghost function SomeOrder<T(!new)>(s: set<T>): (order: seq<T>)
    ensures Enumerates(order, s)
    decreases s
  {
    if s == {} then []
    else
      var x :| x in s;
      var rest := SomeOrder(s - {x});
      assert forall y :: y in s ==> y == x || y in s - {x};
      [x] + rest
  }

  lemma AbsMessagesIgnoreLog(c: Client, d: Client, v: (int, int))
    requires d == c.(sent := d.sent)
    ensures AbsMessages(c, v) == AbsMessages(d, v)
  {
    assert c.Rects() == d.Rects();
  }

  lemma SettlingMove(s: State, x: int, y: int, ch: Choice)
    requires s.ActiveKnown() && s.active.Some? && s.syncing && ch.target.None?
    ensures LegalMove(s, x, y, ch) && MoveStep(s, x, y, ch) == s.(syncing := !NearTrap(s, x, y))
  {
  }

  lemma StillMove(s: State, x: int, y: int, ch: Choice)
    requires s.ActiveKnown() && s.active.Some? && !s.syncing && (x, y) == s.trap && ch.target.None?
    ensures LegalMove(s, x, y, ch) && MoveStep(s, x, y, ch) == s
  {
  }

  lemma DrivingMove(s: State, x: int, y: int, ch: Choice, rawX: int, rawY: int, t: State)
    requires s.ActiveKnown() && Drives(s, x, y) && (rawX, rawY) == Raw(s, x, y)
    requires var p := Confine(s.clients[s.active.value].Rects(), s.ServerRects(), rawX, rawY);
      var a := s.(v := p, last := s.trap, host := s.host.(warp := s.trap));
      LegalResolve(a, ch) && t == Resolve(a, ch)
    ensures LegalMove(s, x, y, ch) && MoveStep(s, x, y, ch) == t
  {
  }

  lemma DeliverNothing(s: State, id: ConnId)
    requires id in s.clients
    ensures Deliver(s, id, []) == s
  {
    assert s.clients[id].sent + [] == s.clients[id].sent;
    assert s.clients[id := s.clients[id]] == s.clients;
  }

  lemma DeliverMore(s: State, id: ConnId, a: seq<Message>, b: seq<Message>)
    requires id in s.clients
    ensures Deliver(Deliver(s, id, a), id, b) == Deliver(s, id, a + b)
  {
    assert s.clients[id].sent + a + b == s.clients[id].sent + (a + b);
  }
}
