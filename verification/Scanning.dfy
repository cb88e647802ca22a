/** The router's monitor loops, on the 32-bit integers the program uses. Dafny checks
    that no addition here leaves the 32-bit range when monitors are within REACH. */
module Scanning {
  import opened Wire
  import opened Geometry

  /** Bound on monitor coordinates and sizes: 2^26 pixels. */
  const REACH := 0x400_0000

  predicate Within(v: int32, bound: int) { -bound <= v as int <= bound }

  predicate MonitorInReach(m: Monitor) {
    Within(m.x, REACH) && Within(m.y, REACH) && m.w as int <= REACH && m.h as int <= REACH
  }

  /** Where a cursor can be between events: on or just past some monitor. */
  predicate OnDesk(x: int32, y: int32) { Within(x, 6 * REACH) && Within(y, 6 * REACH) }

  predicate InReach(ms: seq<Monitor>) {
    forall i :: 0 <= i < |ms| ==> MonitorInReach(ms[i])
  }

  /** Bounds of any desktop shift a client can have. */
  predicate ShiftInReach(ox: int32, oy: int32) { Within(ox, 3 * REACH) && Within(oy, 3 * REACH) }

  lemma BoundsGrow(ms: seq<Monitor>, ox: int, oy: int, i: nat)
    requires i < |ms|
    ensures Bounds(Screens(ms[..i + 1], ox, oy))
         == if i == 0 then Screen(ms[0], ox, oy)
            else Hull(Bounds(Screens(ms[..i], ox, oy)), Screen(ms[i], ox, oy))
  {
    var qs := Screens(ms[..i + 1], ox, oy);
    assert qs[..|qs| - 1] == Screens(ms[..i], ox, oy);
  }

  function Lower(first: bool, best: int32, v: int32): (b: int32)
    ensures b as int == if first then v as int else Min(best as int, v as int)
  {
    if first || v < best then v else best
  }

  function Upper(first: bool, best: int32, v: int32): (b: int32)
    ensures b as int == if first then v as int else Max(best as int, v as int)
  {
    if first || v > best then v else best
  }

  method Extents(ms: seq<Monitor>, ox: int32, oy: int32) returns (l: int32, t: int32, r: int32, b: int32)
    requires InReach(ms) && ShiftInReach(ox, oy)
    ensures Rect(l as int, t as int, r as int, b as int) == Bounds(Screens(ms, ox as int, oy as int))
  {
    l, t, r, b := 0, 0, 0, 0;
    var i := 0;
    while i < |ms|
      invariant 0 <= i <= |ms|
      invariant Rect(l as int, t as int, r as int, b as int)
             == Bounds(Screens(ms[..i], ox as int, oy as int))
    {
      var m := ms[i];
      assert MonitorInReach(m);
      var left := ox + m.x;
      var right := left + m.w as int32;
      var top := oy + m.y;
      var bot := top + m.h as int32;
      BoundsGrow(ms, ox as int, oy as int, i);
      l, t := Lower(i == 0, l, left), Lower(i == 0, t, top);
      r, b := Upper(i == 0, r, right), Upper(i == 0, b, bot);
      i := i + 1;
    }
    assert ms[..i] == ms;
  }

  method TrapPoint(ms: seq<Monitor>) returns (cx: int32, cy: int32)
    requires InReach(ms)
    ensures (cx as int, cy as int) == TrapOf(ms)
  {
    cx, cy := 0, 0;
    var i := 0;
    while i < |ms|
      invariant 0 <= i <= |ms|
      invariant (cx as int, cy as int) == TrapOf(ms[..i])
    {
      var m := ms[i];
      assert MonitorInReach(m);
      if m.primary || i == 0 {
        cx := m.x + m.w as int32 / 2;
        cy := m.y + m.h as int32 / 2;
      }
      assert ms[..i + 1][..i] == ms[..i];
      i := i + 1;
    }
    assert ms[..i] == ms;
  }

  method Contains(ms: seq<Monitor>, ox: int32, oy: int32, x: int32, y: int32) returns (hit: bool)
    requires InReach(ms) && ShiftInReach(ox, oy)
    ensures hit == OnAny(Screens(ms, ox as int, oy as int), x as int, y as int)
    ensures hit ==> OnDesk(x, y)
  {
    ghost var qs := Screens(ms, ox as int, oy as int);
    var i := 0;
    while i < |ms|
      invariant 0 <= i <= |ms|
      invariant forall j :: 0 <= j < i ==> !Inside(qs[j], x as int, y as int)
    {
      var m := ms[i];
      assert MonitorInReach(m);
      var left, top := ox + m.x, oy + m.y;
      if x >= left && x < left + m.w as int32 && y >= top && y < top + m.h as int32 {
        assert Inside(qs[i], x as int, y as int);
        return true;
      }
      i := i + 1;
    }
    hit := false;
  }

  function Snap32(v: int32, lo: int32, hi: int32): (c: int32)
    ensures c as int == Clamp(v as int, lo as int, hi as int)
  {
    if v < lo then lo else if v > hi then hi else v
  }

  lemma SquareFits(a: int)
    requires -0x4000_0000 <= a <= 0x4000_0000
    ensures 0 <= a * a <= 0x1000_0000_0000_0000
  {
    Geometry.SquareMonotone(a, 0x4000_0000);
  }

  method SquaredDistance(vx: int32, vy: int32, cx: int32, cy: int32) returns (d: int64)
    requires Within(vx, 10 * REACH) && Within(vy, 10 * REACH)
    requires Within(cx, 6 * REACH) && Within(cy, 6 * REACH)
    ensures d as int == Dist2(vx as int, vy as int, (cx as int, cy as int)) && d >= 0
  {
    var dx, dy := (vx - cx) as int64, (vy - cy) as int64;
    SquareFits(dx as int);
    SquareFits(dy as int);
    d := dx * dx + dy * dy;
  }

  /** best is the wall point of the first i monitors and dist its squared distance. */
  ghost predicate BestOf(qs: seq<Rect>, i: nat, x: int, y: int, best: (int, int), dist: int)
    requires i <= |qs|
  {
    best == WallPoint(qs[..i], x, y) && dist == if i == 0 then -1 else Dist2(x, y, best)
  }

  lemma BestOfNext(qs: seq<Rect>, i: nat, x: int, y: int, best: (int, int), dist: int, here: (int, int), d: int)
    requires i < |qs| && BestOf(qs, i, x, y, best, dist)
    requires here == Snap(qs[i], x, y) && d == Dist2(x, y, here) && d >= 0
    ensures if dist < 0 || d < dist then BestOf(qs, i + 1, x, y, here, d)
            else BestOf(qs, i + 1, x, y, best, dist)
  {
    var next := qs[..i + 1];
    assert next[..|next| - 1] == qs[..i];
    assert Dist2(x, y, best) >= 0 by { SquaresAddUp(x - best.0, y - best.1); }
  }

  lemma SquaresAddUp(a: int, b: int)
    ensures a * a + b * b >= 0
  {
  }

  method NearestPixel(m: Monitor, ox: int32, oy: int32, vx: int32, vy: int32)
    returns (cx: int32, cy: int32, d: int64)
    requires MonitorInReach(m) && ShiftInReach(ox, oy)
    requires Within(vx, 10 * REACH) && Within(vy, 10 * REACH)
    ensures (cx as int, cy as int) == Snap(Screen(m, ox as int, oy as int), vx as int, vy as int)
    ensures d as int == Dist2(vx as int, vy as int, (cx as int, cy as int)) && d >= 0
    ensures OnDesk(cx, cy)
  {
    var l, t := ox + m.x, oy + m.y;
    cx := Snap32(vx, l, l + m.w as int32 - 1);
    cy := Snap32(vy, t, t + m.h as int32 - 1);
    d := SquaredDistance(vx, vy, cx, cy);
  }

  /** The fallback when the grabbed cursor leaves its client with nowhere to go. The
      squared distances are exact in 64 bits. */
  method WallHit(ms: seq<Monitor>, ox: int32, oy: int32, vx: int32, vy: int32)
    returns (bestX: int32, bestY: int32)
    requires InReach(ms) && ShiftInReach(ox, oy)
    requires Within(vx, 10 * REACH) && Within(vy, 10 * REACH)
    ensures (bestX as int, bestY as int) == WallPoint(Screens(ms, ox as int, oy as int), vx as int, vy as int)
    ensures OnDesk(bestX, bestY)
  {
    bestX, bestY := 0, 0;
    var bestD: int64 := -1;
    ghost var qs := Screens(ms, ox as int, oy as int);
    var i := 0;
    while i < |ms|
      invariant 0 <= i <= |ms|
      invariant OnDesk(bestX, bestY)
      invariant BestOf(qs, i, vx as int, vy as int, (bestX as int, bestY as int), bestD as int)
    {
      assert MonitorInReach(ms[i]);
      var cx, cy, d := NearestPixel(ms[i], ox, oy, vx, vy);
      BestOfNext(qs, i, vx as int, vy as int, (bestX as int, bestY as int), bestD as int,
                 (cx as int, cy as int), d as int);
      if bestD < 0 || d < bestD {
        bestD, bestX, bestY := d, cx, cy;
      }
      i := i + 1;
    }
    assert qs[..i] == qs;
  }

  method ClampToServerScreens(x: int32, y: int32, ms: seq<Monitor>) returns (px: int32, py: int32)
    requires InReach(ms)
    ensures (px as int, py as int) == ClampToServer(ms, x as int, y as int)
    ensures OnDesk(px, py)
  {
    var inside := Contains(ms, 0, 0, x, y);
    if inside { return x, y; }
    if |ms| == 0 { return 0, 0; }
    var home := 0;
    var i := 0;
    while i < |ms|
      invariant 0 <= i <= |ms| && home == 0
      invariant HomeFrom(ms, 0) == HomeFrom(ms, i)
    {
      if ms[i].primary {
        home := i;
        break;
      }
      i := i + 1;
    }
    var m := ms[home];
    assert MonitorInReach(m);
    px := Snap32(x, m.x, m.x + m.w as int32 - 1);
    py := Snap32(y, m.y, m.y + m.h as int32 - 1);
  }

  const HYSTERESIS_PX: int32 := 30

  method PadInside(v: int32, lo: int32, hi: int32) returns (p: int32)
    requires Within(lo, 2 * REACH) && Within(hi, 2 * REACH)
    ensures p as int == Pad(v as int, lo as int, hi as int)
    ensures Within(v, 6 * REACH) ==> Within(p, 6 * REACH)
  {
    p := v;
    if p >= hi - 1 - HYSTERESIS_PX { p := hi - 1 - HYSTERESIS_PX; }
    if p <= lo + HYSTERESIS_PX { p := lo + HYSTERESIS_PX; }
  }

  method InsetInto(v: int32, lo: int32, hi: int32) returns (p: int32)
    requires Within(lo, 2 * REACH) && Within(hi, 2 * REACH)
    ensures p as int == Inset(v as int, lo as int, hi as int)
    ensures Within(p, 3 * REACH)
  {
    p := v;
    if p < lo + HYSTERESIS_PX { p := lo + HYSTERESIS_PX; }
    if p > hi - 1 - HYSTERESIS_PX { p := hi - 1 - HYSTERESIS_PX; }
  }

  lemma {:induction false} BoundsInReach(ms: seq<Monitor>, ox: int, oy: int)
    requires InReach(ms) && -3 * REACH <= ox <= 3 * REACH && -3 * REACH <= oy <= 3 * REACH
    ensures var b := Bounds(Screens(ms, ox, oy));
      |ms| > 0 ==> ox - REACH <= b.l && b.r <= ox + 2 * REACH && oy - REACH <= b.t && b.b <= oy + 2 * REACH
  {
    if |ms| > 0 {
      var n := |ms| - 1;
      BoundsInReach(ms[..n], ox, oy);
      BoundsGrow(ms, ox, oy, n);
      assert ms[..n + 1] == ms && MonitorInReach(ms[n]);
    }
  }

  /** clampToActiveClient: keep, teleport across the gap, or stop at the wall. */
  method ConfineCursor(vx: int32, vy: int32, ms: seq<Monitor>, ox: int32, oy: int32, serverMons: seq<Monitor>)
    returns (px: int32, py: int32)
    requires InReach(ms) && InReach(serverMons) && ShiftInReach(ox, oy)
    requires Within(vx, 10 * REACH) && Within(vy, 10 * REACH)
    ensures (px as int, py as int)
         == Confine(Screens(ms, ox as int, oy as int), Screens(serverMons, 0, 0), vx as int, vy as int)
    ensures OnDesk(px, py)
  {
    var onClient := Contains(ms, ox, oy, vx, vy);
    if onClient { return vx, vy; }
    var onServer := Contains(serverMons, 0, 0, vx, vy);
    if onServer { return vx, vy; }
    px, py := PullToServer(vx, vy, ms, ox, oy, serverMons);
  }

  /** A cursor that is neither on the client nor on the server. */
  method PullToServer(vx: int32, vy: int32, ms: seq<Monitor>, ox: int32, oy: int32, serverMons: seq<Monitor>)
    returns (px: int32, py: int32)
    requires InReach(ms) && InReach(serverMons) && ShiftInReach(ox, oy)
    requires Within(vx, 10 * REACH) && Within(vy, 10 * REACH)
    ensures OnDesk(px, py)
    ensures var cs, ss := Screens(ms, ox as int, oy as int), Screens(serverMons, 0, 0);
      (px as int, py as int)
        == if ExitsToward(Bounds(cs), Bounds(ss), vx as int, vy as int)
           then GapLanding(Bounds(cs), Bounds(ss), vx as int, vy as int)
           else WallPoint(cs, vx as int, vy as int)
  {
    var cL, cT, cR, cB := Extents(ms, ox, oy);
    var sL, sT, sR, sB := Extents(serverMons, 0, 0);
    BoundsInReach(serverMons, 0, 0);
    var jumpX, crossedX := GapJump(vx, cL, cR, sL, sR);
    var jumpY, crossedY := GapJump(vy, cT, cB, sT, sB);
    if crossedX || crossedY {
      px := InsetInto(jumpX, sL, sR);
      py := InsetInto(jumpY, sT, sB);
    } else {
      px, py := WallHit(ms, ox, oy, vx, vy);
    }
  }

  /** One axis of the teleport: the client spans cLo..cHi-1, the server sLo..sHi-1. */
  method GapJump(v: int32, cLo: int32, cHi: int32, sLo: int32, sHi: int32)
    returns (jump: int32, crossed: bool)
    requires Within(sLo, 2 * REACH) && Within(sHi, 2 * REACH)
    ensures crossed == ((v < cLo && sHi <= cLo) || (v >= cHi && sLo >= cHi))
    ensures jump as int == if v < cLo && sHi <= cLo then sHi as int - 1 - HYSTERESIS
                           else if v >= cHi && sLo >= cHi then sLo as int + HYSTERESIS
                           else v as int
  {
    jump, crossed := v, false;
    if v < cLo && sHi <= cLo {
      jump, crossed := sHi - 1 - HYSTERESIS_PX, true;
    } else if v >= cHi && sLo >= cHi {
      jump, crossed := sLo + HYSTERESIS_PX, true;
    }
  }
}
