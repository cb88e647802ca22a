/** Two clients around any server desktop, a slab along one side and a strip along another:
    what single motions do there, and from where a given landing can be reached. */
module TwoClients {
  import opened Wire
  import opened Geometry
  import opened RouterModel
  import opened LayoutLaws
  import opened RunLaws
  import opened SessionLaws
  import opened OscillationLaws
  import Scanning
  import ReachLaws

  // ---- The two clients ----

  const C: ConnId := "c"
  const G: ConnId := "g"
  const NAME_C: Name := [0]
  const NAME_G: Name := [1]

  /** Desktops whose surroundings fit the size fields of a monitor. */
  const LIMIT := 0x1000_0000

  predicate Compact(box: Rect) { box.r - box.l <= LIMIT && box.b - box.t <= LIMIT }

  /** Every desktop on which the program's arithmetic is exact is one. */
  lemma ReachIsCompact(ms: seq<Monitor>)
    requires Scanning.InReach(ms)
    ensures Compact(Initial(ms, map[]).box)
  {
    ReachLaws.BoundsNear(Screens(ms, 0, 0), 2 * Scanning.REACH);
  }

  function Margin(box: Rect): int { (box.r - box.l) + (box.b - box.t) + 100 }

  /** All the screen within Margin of the box on its side e, corners included. */
  function Slab(box: Rect, e: Dir): Rect {
    var m := Margin(box);
    match e
    case ToRight => Rect(box.r, box.t - m, box.r + m, box.b + m)
    case ToLeft => Rect(box.l - m, box.t - m, box.l, box.b + m)
    case ToBottom => Rect(box.l - m, box.b, box.r + m, box.b + m)
    case ToTop => Rect(box.l - m, box.t - m, box.r + m, box.t)
  }

  /** A strip along side f of the box, corners excluded. */
  function Strip(box: Rect, f: Dir): Rect {
    match f
    case ToRight => Rect(box.r, box.t, box.r + 100, box.b)
    case ToLeft => Rect(box.l - 100, box.t, box.l, box.b)
    case ToBottom => Rect(box.l, box.b, box.r, box.b + 100)
    case ToTop => Rect(box.l, box.t - 100, box.r, box.t)
  }

  function Opposite(d: Dir): Dir {
    match d
    case ToRight => ToLeft
    case ToLeft => ToRight
    case ToBottom => ToTop
    case ToTop => ToBottom
  }

  /** The server's desktop, and the sides its two clients are on. */
  datatype Kit = Kit(ms: seq<Monitor>, box: Rect, trap: (int, int), e: Dir, f: Dir)

  ghost predicate KitSane(k: Kit) {
    var s := Initial(k.ms, map[]);
    k.e != k.f && ServerSane(s) && Compact(s.box) && k.box == s.box && k.trap == s.trap
  }

  predicate OnScreen(k: Kit, p: (int, int)) { OnAny(Screens(k.ms, 0, 0), p.0, p.1) }

  /** A client with one monitor, at q. */
  predicate IsRect(c: Client, q: Rect) {
    |c.monitors| == 1 && Screen(c.monitors[0], c.offX, c.offY) == q
  }

  lemma RectsOf(c: Client, q: Rect)
    requires IsRect(c, q)
    ensures c.Rects() == [q]
  {
  }

  /** A running router with a slab on side e and a strip on side f of its desktop. */
  ghost predicate Rigged(s: State, k: Kit) {
    && s.serverMons == k.ms && s.box == k.box && s.trap == k.trap
    && s.phase.Running? && s.ActiveKnown() && s.btnsOn == {} && s.keysOn == {}
    && s.clients.Keys == {C, G}
    && IsRect(s.clients[C], Slab(k.box, k.e)) && IsRect(s.clients[G], Strip(k.box, k.f))
  }

  lemma RectsApart(box: Rect, e: Dir, f: Dir)
    requires e != f && box.l < box.r && box.t < box.b
    ensures Apart(Slab(box, e), Strip(box, f)) && Apart(Strip(box, f), Slab(box, e))
    ensures Apart(Slab(box, e), box) && Apart(Strip(box, f), box)
  {
  }

  lemma RiggedServer(s: State, k: Kit)
    requires KitSane(k) && Rigged(s, k)
    ensures ServerSane(s)
  {
    assert s.ServerRects() == Initial(k.ms, map[]).ServerRects();
  }

  lemma RiggedIsSane(s: State, k: Kit)
    requires KitSane(k) && Rigged(s, k)
    ensures Layout(s)
  {
    RiggedServer(s, k);
    RectsApart(k.box, k.e, k.f);
    RectsOf(s.clients[C], Slab(k.box, k.e));
    RectsOf(s.clients[G], Strip(k.box, k.f));
    assert forall id :: id in s.clients ==> id == C || id == G;
  }

  lemma RiggedFollows(s: State, t: State, k: Kit)
    requires Rigged(s, k) && SameScreens(s, t)
    requires t.phase.Running? && t.ActiveKnown() && t.btnsOn == {} && t.keysOn == {}
    ensures Rigged(t, k)
  {
  }

  // ---- Where samples are to be had ----

  lemma {:induction false} TrapIsCentre(ms: seq<Monitor>) returns (i: nat)
    requires |ms| > 0
    ensures i < |ms| && TrapOf(ms) == (ms[i].x as int + ms[i].w as int / 2, ms[i].y as int + ms[i].h as int / 2)
  {
    var n := |ms| - 1;
    if ms[n].primary || n == 0 { i := n; } else { i := TrapIsCentre(ms[..n]); }
  }

  /** The trap point and its neighbours are on a server monitor. */
  lemma TrapHasRoom(s: State, dx: int, dy: int)
    requires ServerSane(s) && s.trap == TrapOf(s.serverMons) && -1 <= dx <= 1 && -1 <= dy <= 1
    ensures OnServer(s, (s.trap.0 + dx, s.trap.1 + dy))
  {
    var i := TrapIsCentre(s.serverMons);
    var q := s.ServerRects()[i];
    assert Roomy(q);
    assert Inside(q, s.trap.0 + dx, s.trap.1 + dy);
  }

  lemma TrapOnScreen(k: Kit, dx: int, dy: int)
    requires KitSane(k) && -1 <= dx <= 1 && -1 <= dy <= 1
    ensures OnScreen(k, (k.trap.0 + dx, k.trap.1 + dy))
  {
    TrapHasRoom(Initial(k.ms, map[]), dx, dy);
  }

  /** The direction the push switch picks for two samples at p. */
  function EdgeDir(qs: seq<Rect>, p: (int, int)): Option<Dir> {
    if AtEdge(qs, ToRight, p.0, p.1) then Some(ToRight)
    else if AtEdge(qs, ToLeft, p.0, p.1) then Some(ToLeft)
    else if AtEdge(qs, ToBottom, p.0, p.1) then Some(ToBottom)
    else if AtEdge(qs, ToTop, p.0, p.1) then Some(ToTop)
    else None
  }

  /** A monitor that reaches side e of the box. */
  lemma SideIsReached(s: State, e: Dir) returns (i: nat)
    requires ServerSane(s)
    ensures i < |s.ServerRects()| && Roomy(s.ServerRects()[i])
    ensures var q := s.ServerRects()[i];
      match e
      case ToRight => q.r == s.box.r
      case ToLeft => q.l == s.box.l
      case ToBottom => q.b == s.box.b
      case ToTop => q.t == s.box.t
  {
    var qs := s.ServerRects();
    BoundsTight(qs);
    match e
    case ToRight => i :| 0 <= i < |qs| && qs[i].r == Bounds(qs).r;
    case ToLeft => i :| 0 <= i < |qs| && qs[i].l == Bounds(qs).l;
    case ToBottom => i :| 0 <= i < |qs| && qs[i].b == Bounds(qs).b;
    case ToTop => i :| 0 <= i < |qs| && qs[i].t == Bounds(qs).t;
  }

  /** A pixel from which a push goes out through side e. */
  lemma EntryExists(s: State, e: Dir) returns (p: (int, int))
    requires ServerSane(s)
    ensures OnServer(s, p) && EdgeDir(s.ServerRects(), p) == Some(e)
  {
    var qs := s.ServerRects();
    var i := SideIsReached(s, e);
    var q := qs[i];
    p := match e
         case ToRight => (q.r - 1, q.t + 1)
         case ToLeft => (q.l, q.t + 1)
         case ToBottom => (q.l + 1, q.b - 1)
         case ToTop => (q.l + 1, q.t);
    assert Inside(q, p.0, p.1);
    var n := Neighbour(e, p.0, p.1);
    if OnAny(qs, n.0, n.1) { InsideBoundsOf(qs, n.0, n.1); }
  }

  // ---- Single motions ----

  const IDLE_CHOICE := Choice(None, None, [], [])
  const STAY_CHOICE := Choice(None, Some(C), [], [])

  function GrabBy(id: ConnId): Choice { Choice(Some(0), Some(id), [], []) }

  function Entered(box: Rect, p: (int, int), d: Dir): (int, int) {
    RayPixel(box, d, Across(d, p.0, p.1), HYSTERESIS)
  }

  /** Whom a push in direction d reaches, and where. */
  function Owner(k: Kit, d: Dir): ConnId { if d == k.e then C else G }

  function Reached(k: Kit, d: Dir): Rect { if d == k.e then Slab(k.box, d) else Strip(k.box, d) }

  lemma OwnerIsReached(s: State, k: Kit, d: Dir, p: (int, int))
    requires Rigged(s, k) && (d == k.e || d == k.f) && Inside(k.box, p.0, p.1)
    ensures LegalRay(s, d, Across(d, p.0, p.1), Some(0))
    ensures s.clients[Owner(k, d)].Covers(Entered(k.box, p, d).0, Entered(k.box, p, d).1)
  {
    var id := Owner(k, d);
    RectsOf(s.clients[id], Reached(k, d));
    assert s.clients[id].Rects()[0] == Reached(k, d);
    assert id in s.clients && RayHits(s.clients[id], s.box, d, Across(d, p.0, p.1), 0);
  }

  lemma PushIsLegal(s: State, k: Kit, d: Dir, p: (int, int))
    requires Rigged(s, k) && (d == k.e || d == k.f) && Inside(k.box, p.0, p.1)
    requires s.active.None? && PushDir(s, p.0, p.1) == Some(d)
    ensures LegalMove(s, p.0, p.1, GrabBy(Owner(k, d)))
  {
    OwnerIsReached(s, k, d, p);
    assert Aimed(s, p.0, p.1, GrabBy(Owner(k, d))) == s.(v := Entered(k.box, p, d));
  }

  lemma PushOpensEmpty(s: State, x: int, y: int, ch: Choice)
    requires s.ActiveKnown() && PushesOut(s, x, y)
    requires ch.target.Some? && ch.target.value in s.clients
    ensures var t := MoveStep(s, x, y, ch);
      t.phase == s.phase && t.haveLast == s.haveLast && t.btnsOn == {} && t.keysOn == {}
  {
    assert Resolve(Aimed(s, x, y, ch), ch) == OpenGrab(Aimed(s, x, y, ch), ch.target.value);
  }

  lemma PushKeepsRigged(s: State, k: Kit, x: int, y: int, ch: Choice)
    requires Rigged(s, k) && PushesOut(s, x, y) && LegalMove(s, x, y, ch)
    requires ch.target.Some? && ch.target.value in s.clients && MoveStep(s, x, y, ch).ActiveKnown()
    ensures Rigged(MoveStep(s, x, y, ch), k)
  {
    PushOpensEmpty(s, x, y, ch);
    MoveKeepsScreens(s, x, y, ch);
    RiggedFollows(s, MoveStep(s, x, y, ch), k);
  }

  /** Two samples at an edge open the grab there. */
  lemma PushOpens(s: State, k: Kit, d: Dir, p: (int, int)) returns (t: State)
    requires Rigged(s, k) && (d == k.e || d == k.f) && Inside(k.box, p.0, p.1)
    requires s.active.None? && s.haveLast && PushDir(s, p.0, p.1) == Some(d)
    ensures LegalMove(s, p.0, p.1, GrabBy(Owner(k, d))) && t == MoveStep(s, p.0, p.1, GrabBy(Owner(k, d)))
    ensures Rigged(t, k) && t.active == Some(Owner(k, d)) && t.syncing && t.haveLast && t.v == Entered(k.box, p, d)
  {
    var ch := GrabBy(Owner(k, d));
    t := MoveStep(s, p.0, p.1, ch);
    PushIsLegal(s, k, d, p);
    PushedState(s, p.0, p.1, ch);
    PushOpensEmpty(s, p.0, p.1, ch);
    PushKeepsRigged(s, k, p.0, p.1, ch);
  }

  /** The slab's client holds the grab, the pointer has settled and the cursor is at v. */
  ghost predicate Held(s: State, k: Kit, v: (int, int)) {
    Rigged(s, k) && s.active == Some(C) && !s.syncing && s.haveLast && s.v == v
  }

  /** Within the slab the cursor goes where the pointer takes it. */
  lemma Strolls(s: State, k: Kit, v: (int, int), x: int, y: int) returns (t: State)
    requires Held(s, k, v) && (x, y) != s.trap
    requires Inside(Slab(k.box, k.e), Raw(s, x, y).0, Raw(s, x, y).1)
    ensures LegalMove(s, x, y, STAY_CHOICE) && t == MoveStep(s, x, y, STAY_CHOICE)
    ensures Held(t, k, Raw(s, x, y))
  {
    var a := s.(v := Raw(s, x, y), last := s.trap, host := s.host.(warp := s.trap));
    t := Resolve(a, STAY_CHOICE);
  }

  // ---- Releases ----

  lemma NobodyInBox(s: State, k: Kit, a: (int, int))
    requires KitSane(k) && Rigged(s, k) && Inside(k.box, a.0, a.1)
    ensures forall id :: id in s.clients ==> !s.clients[id].Covers(a.0, a.1)
  {
    RiggedIsSane(s, k);
    forall id | id in s.clients ensures !s.clients[id].Covers(a.0, a.1) {
      BoxBelongsToServer(s, id, a.0, a.1);
    }
  }

  lemma ReleaseAims(s: State, k: Kit, v: (int, int), q: (int, int))
    requires Held(s, k, v) && q != s.trap
    ensures Drives(s, q.0, q.1)
    ensures Aimed(s, q.0, q.1, IDLE_CHOICE)
         == s.(v := Confined(k, v, q), last := s.trap, host := s.host.(warp := s.trap))
  {
    RectsOf(s.clients[C], Slab(k.box, k.e));
    assert Raw(s, q.0, q.1) == (v.0 + q.0 - k.trap.0, v.1 + q.1 - k.trap.1);
  }

  /** Nobody holds the grab and p is the remembered sample. */
  ghost predicate Parked(s: State, k: Kit, p: (int, int)) {
    Rigged(s, k) && s.active.None? && s.haveLast && s.last == p
  }

  /** A motion confined to a, in the box, releases the grab and parks the cursor there. */
  lemma ReleaseStep(s: State, k: Kit, v: (int, int), q: (int, int), a: (int, int)) returns (t: State)
    requires KitSane(k) && Held(s, k, v) && q != s.trap && a == Confined(k, v, q) && Inside(k.box, a.0, a.1)
    ensures LegalMove(s, q.0, q.1, IDLE_CHOICE) && t == MoveStep(s, q.0, q.1, IDLE_CHOICE)
    ensures Parked(t, k, ParkOf(k, a))
  {
    var x := s.(v := a, last := s.trap, host := s.host.(warp := s.trap));
    ReleaseAims(s, k, v, q);
    NobodyInBox(x, k, a);
    assert x.(v := a) == x;
    t := CloseGrab(x, IDLE_CHOICE);
  }

  // ---- How to come to land at a ----

  function ParkOf(k: Kit, a: (int, int)): (int, int) {
    var p := ClampToServer(k.ms, a.0, a.1);
    (Pad(p.0, k.box.l, k.box.r), Pad(p.1, k.box.t, k.box.b))
  }

  /** Where the sample q takes a cursor at v of the slab. */
  function Confined(k: Kit, v: (int, int), q: (int, int)): (int, int) {
    Confine([Slab(k.box, k.e)], Screens(k.ms, 0, 0), v.0 + q.0 - k.trap.0, v.1 + q.1 - k.trap.1)
  }

  /** From v in the slab, the sample q releases the grab and parks the cursor as a landing at
      a would. */
  ghost predicate LeadsTo(k: Kit, v: (int, int), q: (int, int), a: (int, int)) {
    && Inside(Slab(k.box, k.e), v.0, v.1) && OnScreen(k, q) && q != k.trap
    && var c := Confined(k, v, q); Inside(k.box, c.0, c.1) && ParkOf(k, c) == ParkOf(k, a)
  }

  lemma OutermostSample(k: Kit, d: Dir) returns (q: (int, int))
    requires KitSane(k)
    ensures OnScreen(k, q) && Inside(k.box, q.0, q.1)
    ensures match d
      case ToRight => q.0 == k.box.r - 1
      case ToLeft => q.0 == k.box.l
      case ToBottom => q.1 == k.box.b - 1
      case ToTop => q.1 == k.box.t
  {
    var s := Initial(k.ms, map[]);
    var i := SideIsReached(s, d);
    var m := s.ServerRects()[i];
    q := match d
         case ToRight => (m.r - 1, m.t)
         case ToLeft => (m.l, m.t)
         case ToBottom => (m.l, m.b - 1)
         case ToTop => (m.l, m.t);
    assert Inside(m, q.0, q.1);
  }

  /** The side beyond which a motion onto a can start. */
  function StartSide(box: Rect, trap: (int, int), a: (int, int)): Dir {
    if a.0 + trap.0 >= box.l + box.r then ToRight
    else if a.0 + trap.0 < box.l + box.r - 1 then ToLeft
    else if a.1 + trap.1 >= box.t + box.b then ToBottom
    else ToTop
  }

  /** The start from which the sample q moves the cursor by the way to a. */
  function StartFor(k: Kit, a: (int, int), q: (int, int)): (int, int) {
    (a.0 + k.trap.0 - q.0, a.1 + k.trap.1 - q.1)
  }

  lemma ScreenIsKept(k: Kit, a: (int, int), q: (int, int))
    requires OnScreen(k, a)
    ensures Confined(k, StartFor(k, a, q), q) == a
  {
  }

  /** Onto a server monitor directly, with a sample at the far side of the desktop: only
      the mirrored trap cannot be reached so. */
  lemma ApproachDirectly(k: Kit, a: (int, int)) returns (v: (int, int), q: (int, int))
    requires KitSane(k) && OnScreen(k, a) && a != Mirror(Initial(k.ms, map[]))
    requires k.e == StartSide(k.box, k.trap, a)
    ensures LeadsTo(k, v, q, a)
  {
    TrapOnScreen(k, 0, 0);
    q := OutermostSample(k, Opposite(k.e));
    v := StartFor(k, a, q);
    ScreenIsKept(k, a, q);
  }

  function FrameSide(box: Rect, a: (int, int)): Dir {
    if a.0 == box.r - 1 - HYSTERESIS then ToRight
    else if a.0 == box.l + HYSTERESIS then ToLeft
    else if a.1 == box.b - 1 - HYSTERESIS then ToBottom
    else ToTop
  }

  /** The pixel beyond side d level with a, and the one just inside. */
  function Beside(box: Rect, d: Dir, a: (int, int)): (int, int) {
    match d
    case ToRight => (box.r, a.1)
    case ToLeft => (box.l - 1, a.1)
    case ToBottom => (a.0, box.b)
    case ToTop => (a.0, box.t - 1)
  }

  function Rim(box: Rect, d: Dir, a: (int, int)): (int, int) {
    Neighbour(Opposite(d), Beside(box, d, a).0, Beside(box, d, a).1)
  }

  lemma RimCrossesGap(s: State, a: (int, int), d: Dir)
    requires ServerSane(s) && OnFrame(s, a) && d == FrameSide(s.box, a)
    ensures var v, raw := Beside(s.box, d, a), Rim(s.box, d, a);
      && Inside(Slab(s.box, d), v.0, v.1) && Inside(s.box, raw.0, raw.1)
      && !Inside(Slab(s.box, d), raw.0, raw.1)
      && ExitsToward(Slab(s.box, d), s.box, raw.0, raw.1) && GapLanding(Slab(s.box, d), s.box, raw.0, raw.1) == a
  {
  }

  /** One step in: on a server monitor, or across the gap. */
  lemma RimLands(k: Kit, a: (int, int))
    requires KitSane(k) && OnFrame(Initial(k.ms, map[]), a) && k.e == FrameSide(k.box, a)
    ensures var v, raw := Beside(k.box, k.e, a), Rim(k.box, k.e, a);
      && Inside(Slab(k.box, k.e), v.0, v.1) && Inside(k.box, raw.0, raw.1)
      && Confine([Slab(k.box, k.e)], Screens(k.ms, 0, 0), raw.0, raw.1) == if OnScreen(k, raw) then raw else a
  {
    var raw := Rim(k.box, k.e, a);
    RimCrossesGap(Initial(k.ms, map[]), a, k.e);
    assert !OnAny([Slab(k.box, k.e)], raw.0, raw.1);
    assert Bounds([Slab(k.box, k.e)]) == Slab(k.box, k.e);
  }

  /** Parking moves a pixel on the rim of the desktop to the frame, on the same monitor. */
  lemma RimParksOnFrame(k: Kit, a: (int, int))
    requires KitSane(k) && OnFrame(Initial(k.ms, map[]), a) && k.e == FrameSide(k.box, a)
    requires OnScreen(k, Rim(k.box, k.e, a))
    ensures ParkOf(k, Rim(k.box, k.e, a)) == ParkOf(k, a)
  {
    var raw := Rim(k.box, k.e, a);
    var qs := Screens(k.ms, 0, 0);
    var i :| 0 <= i < |qs| && Inside(qs[i], raw.0, raw.1);
    assert Initial(k.ms, map[]).ServerRects()[i] == qs[i];
    assert Roomy(qs[i]);
    assert Inside(qs[i], a.0, a.1);
  }

  function Inward(k: Kit): (int, int) { Neighbour(Opposite(k.e), k.trap.0, k.trap.1) }

  lemma InwardOnScreen(k: Kit)
    requires KitSane(k)
    ensures OnScreen(k, Inward(k)) && Inward(k) != k.trap
  {
    TrapOnScreen(k, Inward(k).0 - k.trap.0, Inward(k).1 - k.trap.1);
  }

  lemma InwardLands(k: Kit, a: (int, int))
    requires KitSane(k) && OnFrame(Initial(k.ms, map[]), a) && k.e == FrameSide(k.box, a)
    ensures var v := Beside(k.box, k.e, a);
      Inside(Slab(k.box, k.e), v.0, v.1)
      && Confined(k, v, Inward(k)) == if OnScreen(k, Rim(k.box, k.e, a)) then Rim(k.box, k.e, a) else a
    ensures Inside(k.box, Rim(k.box, k.e, a).0, Rim(k.box, k.e, a).1)
  {
    var v, q := Beside(k.box, k.e, a), Inward(k);
    RimLands(k, a);
    assert (v.0 + q.0 - k.trap.0, v.1 + q.1 - k.trap.1) == Rim(k.box, k.e, a);
  }

  lemma ApproachAcross(k: Kit, a: (int, int)) returns (v: (int, int), q: (int, int))
    requires KitSane(k) && OnFrame(Initial(k.ms, map[]), a) && k.e == FrameSide(k.box, a)
    ensures LeadsTo(k, v, q, a)
  {
    v, q := Beside(k.box, k.e, a), Inward(k);
    InwardOnScreen(k);
    InwardLands(k, a);
    if OnScreen(k, Rim(k.box, k.e, a)) { RimParksOnFrame(k, a); }
  }

  /** The side on which the slab has to be. */
  function Side(s: State, a: (int, int)): Dir {
    if OnServer(s, a) && a != Mirror(s) then StartSide(s.box, s.trap, a) else FrameSide(s.box, a)
  }

  lemma Approach(k: Kit, a: (int, int)) returns (v: (int, int), q: (int, int))
    requires KitSane(k) && Lands(Initial(k.ms, map[]), a) && k.e == Side(Initial(k.ms, map[]), a)
    ensures LeadsTo(k, v, q, a)
  {
    if OnScreen(k, a) && a != Mirror(Initial(k.ms, map[])) {
      v, q := ApproachDirectly(k, a);
    } else {
      v, q := ApproachAcross(k, a);
    }
  }
}
