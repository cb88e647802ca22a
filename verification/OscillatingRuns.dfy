/** Runs that oscillate, built for every server desktop on which some landing is parked at an
    edge: two clients, pointer samples on the desktop only, nothing edited on the way. And one
    that ends with the capture lost under a grab. */
module OscillatingRuns {
  import opened Wire
  import opened Geometry
  import opened RouterModel
  import opened LayoutLaws
  import opened RunLaws
  import opened SessionLaws
  import opened OscillationLaws
  import opened TwoClients

  /** Step i releases the grab by motion, the very next event opens one again, and the
      program can meet the run up to there. */
  ghost predicate OscillatesAt(r: Run, i: nat, ms: seq<Monitor>) {
    && i + 1 < |r.events| && OnDesktop(r, i + 2, ms)
    && ReleasesByMotion(r, i) && r.events[i + 1].Move? && r.states[i + 2].active.Some?
  }

  lemma ClearNeverOscillates(r: Run, i: nat, ms: seq<Monitor>)
    requires LandingsClear(Initial(ms, map[]))
    ensures !OscillatesAt(r, i, ms)
  {
    if OscillatesAt(r, i, ms) {
      assert OnDesktop(r, i + 1, ms);
      RunKeepsOffsets(r, i);
      SameServerSameLandings(Initial(ms, map[]), r.states[i]);
      NoOscillationOnDesktop(r, i, i + 1, ms);
      assert false;
    }
  }

  // ---- The run ----

  ghost function Last(r: Run): State
    requires |r.states| > 0
  {
    r.states[|r.states| - 1]
  }

  /** All of the run is met on the desktop. */
  ghost predicate Good(r: Run, ms: seq<Monitor>) { OnDesktop(r, |r.events|, ms) }

  lemma Extended(r: Run, e: Event, ch: Choice) returns (t: Run)
    requires r.Valid() && Legal(Last(r), e, ch)
    ensures t.Valid() && t.states == r.states + [Step(Last(r), e, ch)] && t.events == r.events + [e]
  {
    t := Run(r.states + [Step(Last(r), e, ch)], r.events + [e], r.choices + [ch]);
    assert t.states[0] == r.states[0];
    forall i | 0 <= i < |t.events| ensures t.StepsAt(i) {
      if i < |r.events| { assert r.StepsAt(i); }
    }
  }

  lemma GoodOneMore(r: Run, t: Run, ms: seq<Monitor>)
    requires Good(r, ms) && t.Valid() && |t.states| == |r.states| + 1 && r.states < t.states && r.events < t.events
    requires Last(t).serverMons == ms && MetAt(t, |r.events|)
    ensures Good(t, ms)
  {
    forall j | 0 <= j < |t.events| ensures MetAt(t, j) {
      if j < |r.events| { assert MetAt(r, j); }
    }
    forall j | 0 <= j <= |t.events| ensures t.states[j].serverMons == ms {
      if j < |r.states| { assert t.states[j] == r.states[j]; }
    }
  }

  lemma OneMore(r: Run, e: Event, ch: Choice, ms: seq<Monitor>) returns (t: Run)
    requires Good(r, ms) && Legal(Last(r), e, ch) && Step(Last(r), e, ch).serverMons == ms
    requires e.Move? ==> Layout(Last(r)) && OnServer(Last(r), (e.x, e.y))
    ensures Good(t, ms) && t.states == r.states + [Step(Last(r), e, ch)] && t.events == r.events + [e]
  {
    t := Extended(r, e, ch);
    GoodOneMore(r, t, ms);
  }

  lemma OneMove(r: Run, k: Kit, x: int, y: int, ch: Choice, t: State) returns (u: Run)
    requires KitSane(k) && Good(r, k.ms) && Rigged(Last(r), k) && OnScreen(k, (x, y))
    requires LegalMove(Last(r), x, y, ch) && t == MoveStep(Last(r), x, y, ch) && Rigged(t, k)
    ensures Good(u, k.ms) && u.states == r.states + [t] && Last(u) == t && u.events == r.events + [Move(x, y)]
  {
    RiggedIsSane(Last(r), k);
    u := OneMore(r, Move(x, y), ch, k.ms);
  }

  predicate Sized(q: Rect) { 0 <= q.r - q.l < 0x1_0000_0000 && 0 <= q.b - q.t < 0x1_0000_0000 }

  /** One monitor the size of q. */
  function SizeOf(q: Rect): Monitor
    requires Sized(q)
  {
    Monitor(0, 0, 0, (q.r - q.l) as uint32, (q.b - q.t) as uint32, true, [])
  }

  lemma SizesFit(box: Rect, d: Dir)
    requires Compact(box) && box.l < box.r && box.t < box.b
    ensures Sized(Slab(box, d)) && Sized(Strip(box, d))
  {
  }

  /** The loop started and both clients placed. */
  ghost function Prepared(ms: seq<Monitor>, slab: Rect, strip: Rect): State {
    var s := Initial(ms, map[]);
    s.(v := s.trap, phase := Running,
       placements := map[NAME_C := Placement(slab.l, slab.t), NAME_G := Placement(strip.l, strip.t)])
  }

  lemma Prepare(ms: seq<Monitor>, slab: Rect, strip: Rect) returns (r: Run)
    ensures Good(r, ms) && Last(r) == Prepared(ms, slab, strip)
  {
    r := Run([Initial(ms, map[])], [], []);
    r := OneMore(r, Start, IDLE_CHOICE, ms);
    r := OneMore(r, Place(NAME_C, slab.l, slab.t), IDLE_CHOICE, ms);
    r := OneMore(r, Place(NAME_G, strip.l, strip.t), IDLE_CHOICE, ms);
  }

  /** A client registers under a name that has a placement. */
  lemma Join(q: Run, id: ConnId, name: Name, r0: Rect, ms: seq<Monitor>) returns (r: Run)
    requires Good(q, ms) && Sized(r0) && id !in Last(q).clients && Last(q).ActiveKnown()
    requires name in Last(q).placements && Last(q).placements[name] == Placement(r0.l, r0.t)
    ensures Good(r, ms) && id in Last(r).clients && IsRect(Last(r).clients[id], r0)
    ensures Last(r) == Last(q).(clients := Last(q).clients[id := Last(r).clients[id]])
  {
    var s := Last(q);
    assert s.placements[name := s.placements[name]] == s.placements;
    r := OneMore(q, Register(id, name, [SizeOf(r0)]), IDLE_CHOICE, ms);
  }

  /** Start the loop, place both clients and connect them. */
  lemma Connect(k: Kit) returns (r: Run)
    requires KitSane(k)
    ensures Good(r, k.ms) && Rigged(Last(r), k) && Last(r).active.None? && !Last(r).haveLast
  {
    SizesFit(k.box, k.e);
    SizesFit(k.box, k.f);
    var slab, strip := Slab(k.box, k.e), Strip(k.box, k.f);
    r := Prepare(k.ms, slab, strip);
    r := Join(r, C, NAME_C, slab, k.ms);
    r := Join(r, G, NAME_G, strip, k.ms);
  }

  /** A first sample. */
  lemma Sample(q: Run, k: Kit, p: (int, int)) returns (r: Run)
    requires KitSane(k) && Good(q, k.ms) && Rigged(Last(q), k) && OnScreen(k, p)
    requires Last(q).active.None? && !Last(q).haveLast
    ensures Good(r, k.ms) && Parked(Last(r), k, p)
  {
    r := OneMove(q, k, p.0, p.1, IDLE_CHOICE, Last(q).(v := p, last := p, haveLast := true));
  }

  /** A second sample at an edge. */
  lemma Push(q: Run, k: Kit, d: Dir, p: (int, int)) returns (r: Run)
    requires KitSane(k) && Good(q, k.ms) && OnScreen(k, p)
    requires Parked(Last(q), k, p)
    requires (d == k.e || d == k.f) && EdgeDir(Screens(k.ms, 0, 0), p) == Some(d)
    ensures Good(r, k.ms) && r.states == q.states + [Last(r)] && r.events == q.events + [Move(p.0, p.1)]
    ensures Rigged(Last(r), k) && Last(r).active == Some(Owner(k, d)) && Last(r).syncing && Last(r).haveLast
    ensures Last(r).v == Entered(k.box, p, d)
  {
    var t := PushOpens(Last(q), k, d, p);
    r := OneMove(q, k, p.0, p.1, GrabBy(Owner(k, d)), t);
  }

  /** A sample at the trap point. */
  lemma Settle(q: Run, k: Kit, v: (int, int)) returns (r: Run)
    requires KitSane(k) && Good(q, k.ms) && Rigged(Last(q), k) && Last(q).active == Some(C)
    requires Last(q).syncing && Last(q).haveLast && Last(q).v == v
    ensures Good(r, k.ms) && Held(Last(r), k, v)
  {
    TrapOnScreen(k, 0, 0);
    r := OneMove(q, k, k.trap.0, k.trap.1, IDLE_CHOICE, Last(q).(syncing := false));
  }

  lemma StrollsBy(s: State, k: Kit, v: (int, int), dx: int, dy: int) returns (x: int, y: int, t: State)
    requires KitSane(k) && Held(s, k, v)
    requires -1 <= dx <= 1 && -1 <= dy <= 1 && (dx, dy) != (0, 0)
    requires Inside(Slab(k.box, k.e), v.0 + dx, v.1 + dy)
    ensures OnScreen(k, (x, y)) && LegalMove(s, x, y, STAY_CHOICE) && t == MoveStep(s, x, y, STAY_CHOICE)
    ensures Held(t, k, (v.0 + dx, v.1 + dy))
  {
    x, y := k.trap.0 + dx, k.trap.1 + dy;
    TrapOnScreen(k, dx, dy);
    assert Raw(s, x, y) == (v.0 + dx, v.1 + dy);
    t := Strolls(s, k, v, x, y);
  }

  /** One pixel in some direction. */
  lemma Stroll(q: Run, k: Kit, v: (int, int), dx: int, dy: int) returns (r: Run)
    requires KitSane(k) && Good(q, k.ms) && Held(Last(q), k, v)
    requires -1 <= dx <= 1 && -1 <= dy <= 1 && (dx, dy) != (0, 0)
    requires Inside(Slab(k.box, k.e), v.0 + dx, v.1 + dy)
    ensures Good(r, k.ms) && Held(Last(r), k, (v.0 + dx, v.1 + dy))
  {
    var x, y, t := StrollsBy(Last(q), k, v, dx, dy);
    r := OneMove(q, k, x, y, STAY_CHOICE, t);
  }

  function Abs(n: int): nat { if n < 0 then -n else n }

  function Sign(n: int): int { if n < 0 then -1 else if n > 0 then 1 else 0 }

  lemma OneCloser(q: Rect, v: (int, int), to: (int, int))
    requires Inside(q, v.0, v.1) && Inside(q, to.0, to.1) && v != to
    ensures var n := (v.0 + Sign(to.0 - v.0), v.1 + Sign(to.1 - v.1));
      && Inside(q, n.0, n.1)
      && Abs(to.0 - n.0) + Abs(to.1 - n.1) < Abs(to.0 - v.0) + Abs(to.1 - v.1)
  {
  }

  /** Pixel by pixel to anywhere in the slab. */
  lemma {:induction false} Walk(q: Run, k: Kit, v: (int, int), to: (int, int)) returns (r: Run)
    requires KitSane(k) && Good(q, k.ms) && Held(Last(q), k, v)
    requires Inside(Slab(k.box, k.e), v.0, v.1) && Inside(Slab(k.box, k.e), to.0, to.1)
    ensures Good(r, k.ms) && Held(Last(r), k, to)
    decreases Abs(to.0 - v.0) + Abs(to.1 - v.1)
  {
    if v == to {
      r := q;
    } else {
      OneCloser(Slab(k.box, k.e), v, to);
      var dx, dy := Sign(to.0 - v.0), Sign(to.1 - v.1);
      r := Stroll(q, k, v, dx, dy);
      r := Walk(r, k, (v.0 + dx, v.1 + dy), to);
    }
  }

  lemma EntryOnScreen(k: Kit) returns (p: (int, int))
    requires KitSane(k)
    ensures OnScreen(k, p) && EdgeDir(Screens(k.ms, 0, 0), p) == Some(k.e)
    ensures Inside(Slab(k.box, k.e), Entered(k.box, p, k.e).0, Entered(k.box, p, k.e).1)
  {
    p := EntryExists(Initial(k.ms, map[]), k.e);
  }

  /** From the start to a held grab at v. */
  lemma Hold(k: Kit, v: (int, int)) returns (r: Run)
    requires KitSane(k) && Inside(Slab(k.box, k.e), v.0, v.1)
    ensures Good(r, k.ms) && Held(Last(r), k, v)
  {
    var p := EntryOnScreen(k);
    r := Connect(k);
    r := Sample(r, k, p);
    r := Push(r, k, k.e, p);
    r := Settle(r, k, Entered(k.box, p, k.e));
    r := Walk(r, k, Entered(k.box, p, k.e), v);
  }

  /** The sample that releases. */
  lemma Release(q: Run, k: Kit, v: (int, int), m: (int, int), c: (int, int)) returns (r: Run)
    requires KitSane(k) && Good(q, k.ms) && Held(Last(q), k, v) && OnScreen(k, m) && m != k.trap
    requires c == Confined(k, v, m) && Inside(k.box, c.0, c.1)
    ensures Good(r, k.ms) && r.states == q.states + [Last(r)] && r.events == q.events + [Move(m.0, m.1)]
    ensures Parked(Last(r), k, ParkOf(k, c))
  {
    var t := ReleaseStep(Last(q), k, v, m, c);
    r := OneMove(q, k, m.0, m.1, IDLE_CHOICE, t);
  }

  lemma SuffixOscillates(q: Run, released: Run, r: Run, ms: seq<Monitor>)
    requires Good(q, ms) && Good(released, ms) && Good(r, ms)
    requires released.states == q.states + [Last(released)] && |released.events| == |q.events| + 1
    requires r.states == released.states + [Last(r)] && r.events[..|released.events|] == released.events
    requires |r.events| == |released.events| + 1 && r.events[|q.events|].Move? && r.events[|q.events| + 1].Move?
    requires Last(q).active.Some? && Last(released).active.None? && Last(r).active.Some?
    ensures OscillatesAt(r, |q.events|, ms)
  {
    var i := |q.events|;
    assert r.states[i] == Last(q) && r.states[i + 1] == Last(released) && r.states[i + 2] == Last(r);
  }

  lemma ReleaseAndRegrab(q: Run, k: Kit, v: (int, int), m: (int, int), a: (int, int), d: Dir)
    returns (r: Run, i: nat)
    requires KitSane(k) && Good(q, k.ms) && Held(Last(q), k, v) && LeadsTo(k, v, m, a) && (d == k.e || d == k.f)
    requires OnScreen(k, ParkOf(k, a)) && EdgeDir(Screens(k.ms, 0, 0), ParkOf(k, a)) == Some(d)
    ensures OscillatesAt(r, i, k.ms)
  {
    var released := Release(q, k, v, m, Confined(k, v, m));
    r := Push(released, k, d, ParkOf(k, a));
    i := |q.events|;
    SuffixOscillates(q, released, r, k.ms);
  }

  lemma EdgeHasDir(s: State, p: (int, int))
    requires AtSomeEdge(s, p)
    ensures EdgeDir(s.ServerRects(), p).Some?
  {
  }

  /** The slab where the landing needs it, and something ahead of the edge it is parked at. */
  lemma KitFor(ms: seq<Monitor>, a: (int, int)) returns (k: Kit, d: Dir)
    requires var s := Initial(ms, map[]);
      ServerSane(s) && Compact(s.box) && Lands(s, a) && AtSomeEdge(s, ParkPoint(s.(v := a)))
    ensures k.ms == ms && KitSane(k) && k.e == Side(Initial(ms, map[]), a) && (d == k.e || d == k.f)
    ensures OnScreen(k, ParkOf(k, a)) && EdgeDir(Screens(ms, 0, 0), ParkOf(k, a)) == Some(d)
  {
    var s := Initial(ms, map[]);
    var p := ParkPoint(s.(v := a));
    ParkIsSafe(s.(v := a));
    EdgeHasDir(s, p);
    d := EdgeDir(s.ServerRects(), p).value;
    var e := Side(s, a);
    k := Kit(ms, s.box, s.trap, e, if d == e then Opposite(e) else d);
  }

  lemma UnclearOscillates(ms: seq<Monitor>, a: (int, int)) returns (r: Run, i: nat)
    requires var s := Initial(ms, map[]);
      ServerSane(s) && Compact(s.box) && Lands(s, a) && AtSomeEdge(s, ParkPoint(s.(v := a)))
    ensures OscillatesAt(r, i, ms)
  {
    var k, d := KitFor(ms, a);
    var v, m := Approach(k, a);
    var q := Hold(k, v);
    r, i := ReleaseAndRegrab(q, k, v, m, a, d);
  }

  /** On the server monitors ms the program can meet a run in which a release by motion is
      followed at once by a new grab exactly if some landing is parked at an edge. */
  lemma OscillatesIff(ms: seq<Monitor>)
    requires ServerSane(Initial(ms, map[])) && Compact(Initial(ms, map[]).box)
    ensures (exists r: Run, i: nat :: OscillatesAt(r, i, ms)) <==> !LandingsClear(Initial(ms, map[]))
  {
    var s := Initial(ms, map[]);
    if LandingsClear(s) {
      forall r: Run, i: nat ensures !OscillatesAt(r, i, ms) {
        ClearNeverOscillates(r, i, ms);
      }
    } else {
      var a: (int, int) :| Lands(s, a) && AtSomeEdge(s, ParkPoint(s.(v := a)));
      var r, i := UnclearOscillates(ms, a);
    }
  }

  /** Two side-by-side monitors of different heights are enough: a cursor parked on the
      shorter one can touch its lower edge. */
  lemma TallAndLowOscillate()
    ensures exists r: Run, i: nat :: OscillatesAt(r, i,
      [Monitor(0, 0, 0, 100, 100, true, []), Monitor(1, 100, 0, 100, 60, false, [])])
  {
    var ms := [Monitor(0, 0, 0, 100, 100, true, []), Monitor(1, 100, 0, 100, 60, false, [])];
    var s := Initial(ms, map[]);
    TallAndLowBox(ms);
    assert Inside(s.ServerRects()[1], 150, 59);
    assert AtEdge(s.ServerRects(), ToBottom, 150, 59);
    assert s.trap == (50, 50);
    assert Lands(s, (150, 59));
    OscillatesIff(ms);
  }

  lemma TallAndLowBox(ms: seq<Monitor>)
    requires ms == [Monitor(0, 0, 0, 100, 100, true, []), Monitor(1, 100, 0, 100, 60, false, [])]
    ensures Screens(ms, 0, 0) == [Rect(0, 0, 100, 100), Rect(100, 0, 200, 60)]
    ensures Initial(ms, map[]).box == Rect(0, 0, 200, 100) && TrapOf(ms) == (50, 50)
  {
    var qs := Screens(ms, 0, 0);
    assert qs == [Rect(0, 0, 100, 100), Rect(100, 0, 200, 60)];
    assert qs[..|qs| - 1] == [Rect(0, 0, 100, 100)];
    assert Bounds([Rect(0, 0, 100, 100)]) == Rect(0, 0, 100, 100);
    assert Bounds(qs) == Hull(Bounds(qs[..|qs| - 1]), qs[1]);
    assert ms[..|ms| - 1] == [ms[0]];
  }

  // ---- The other end of the loop ----

  /** The run ends with the capture channel closing, and input stays swallowed. */
  ghost predicate EndsConsuming(r: Run, ms: seq<Monitor>) {
    Good(r, ms) && |r.events| > 0 && r.events[|r.events| - 1] == CaptureLost && Last(r).host.consume
  }

  lemma KitExists(ms: seq<Monitor>) returns (k: Kit)
    requires ServerSane(Initial(ms, map[])) && Compact(Initial(ms, map[]).box)
    ensures k.ms == ms && KitSane(k)
  {
    var s := Initial(ms, map[]);
    k := Kit(ms, s.box, s.trap, ToRight, ToLeft);
  }

  /** On any of these desktops the program can be met so. */
  lemma ConsumeCanOutliveLoop(ms: seq<Monitor>)
    requires ServerSane(Initial(ms, map[])) && Compact(Initial(ms, map[]).box)
    ensures exists r: Run :: EndsConsuming(r, ms)
  {
    var k := KitExists(ms);
    var p := EntryOnScreen(k);
    var q := Hold(k, Entered(k.box, p, k.e));
    var r := OneMore(q, CaptureLost, IDLE_CHOICE, ms);
    var i := |q.events|;
    assert r.states[i] == Last(q);
    ConsumeOutlivesLoopIff(r, i, i + 1);
    assert EndsConsuming(r, ms);
  }
}
