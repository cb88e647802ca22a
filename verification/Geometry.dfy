/** Pixel geometry of monitors: the reference definitions the router's loops are
    proved against. Coordinates are unbounded integers here; RouterImpl shows that
    the 32-bit computation agrees with them. */
module Geometry {
  import opened Wire

  /** Half-open pixel rectangle: columns l..r-1, rows t..b-1. */
  datatype Rect = Rect(l: int, t: int, r: int, b: int)

  const HYSTERESIS := 30

  predicate Inside(q: Rect, x: int, y: int) {
    q.l <= x < q.r && q.t <= y < q.b
  }

  /** The rectangle of monitor m when its desktop's origin sits at (ox, oy). */
  function Screen(m: Monitor, ox: int, oy: int): Rect {
    Rect(ox + m.x as int, oy + m.y as int,
         ox + m.x as int + m.w as int, oy + m.y as int + m.h as int)
  }

  function Screens(ms: seq<Monitor>, ox: int, oy: int): (qs: seq<Rect>)
    ensures |qs| == |ms|
    ensures forall i :: 0 <= i < |ms| ==> qs[i] == Screen(ms[i], ox, oy)
  {
    seq(|ms|, i requires 0 <= i < |ms| => Screen(ms[i], ox, oy))
  }

  predicate OnAny(qs: seq<Rect>, x: int, y: int) {
    exists i :: 0 <= i < |qs| && Inside(qs[i], x, y)
  }

  /** No pixel in common, for rectangles that have pixels. */
  predicate Apart(p: Rect, q: Rect) {
    p.r <= q.l || q.r <= p.l || p.b <= q.t || q.b <= p.t
  }

  function Min(a: int, b: int): int { if b < a then b else a }
  function Max(a: int, b: int): int { if b > a then b else a }

  function Hull(p: Rect, q: Rect): Rect {
    Rect(Min(p.l, q.l), Min(p.t, q.t), Max(p.r, q.r), Max(p.b, q.b))
  }

  /** Smallest rectangle around all of qs; the zero rectangle when there are none. */
  function Bounds(qs: seq<Rect>): (b: Rect)
    ensures forall i :: 0 <= i < |qs| ==>
      b.l <= qs[i].l && b.t <= qs[i].t && qs[i].r <= b.r && qs[i].b <= b.b
  {
    if |qs| == 0 then Rect(0, 0, 0, 0)
    else if |qs| == 1 then qs[0]
    else
      var rest := qs[..|qs| - 1];
      assert forall i :: 0 <= i < |rest| ==> qs[i] == rest[i];
      Hull(Bounds(rest), qs[|qs| - 1])
  }

  /** Each side of the bounding box is the side of some rectangle. */
  lemma {:induction false} BoundsTight(qs: seq<Rect>)
    requires |qs| > 0
    ensures exists i :: 0 <= i < |qs| && qs[i].l == Bounds(qs).l
    ensures exists i :: 0 <= i < |qs| && qs[i].t == Bounds(qs).t
    ensures exists i :: 0 <= i < |qs| && qs[i].r == Bounds(qs).r
    ensures exists i :: 0 <= i < |qs| && qs[i].b == Bounds(qs).b
  {
    if |qs| > 1 {
      var rest := qs[..|qs| - 1];
      BoundsTight(rest);
      var last := |qs| - 1;
      var i :| 0 <= i < |rest| && rest[i].l == Bounds(rest).l;
      var j :| 0 <= j < |rest| && rest[j].t == Bounds(rest).t;
      var k :| 0 <= k < |rest| && rest[k].r == Bounds(rest).r;
      var n :| 0 <= n < |rest| && rest[n].b == Bounds(rest).b;
      assert qs[i].l == Bounds(qs).l || qs[last].l == Bounds(qs).l;
      assert qs[j].t == Bounds(qs).t || qs[last].t == Bounds(qs).t;
      assert qs[k].r == Bounds(qs).r || qs[last].r == Bounds(qs).r;
      assert qs[n].b == Bounds(qs).b || qs[last].b == Bounds(qs).b;
    } else {
      assert qs[0] == Bounds(qs);
    }
  }

  /** v moved to the nearest value of lo..hi, low bound first. */
  function Clamp(v: int, lo: int, hi: int): int {
    if v < lo then lo else if v > hi then hi else v
  }

  /** The pixel of q nearest to (x, y). */
  function Snap(q: Rect, x: int, y: int): (int, int) {
    (Clamp(x, q.l, q.r - 1), Clamp(y, q.t, q.b - 1))
  }

  function Dist2(x: int, y: int, p: (int, int)): int {
    (x - p.0) * (x - p.0) + (y - p.1) * (y - p.1)
  }

  /** Best snap over qs, the earliest rectangle winning ties. */
  function WallPoint(qs: seq<Rect>, x: int, y: int): (int, int) {
    if |qs| == 0 then (0, 0)
    else if |qs| == 1 then Snap(qs[0], x, y)
    else
      var best := WallPoint(qs[..|qs| - 1], x, y);
      var here := Snap(qs[|qs| - 1], x, y);
      if Dist2(x, y, here) < Dist2(x, y, best) then here else best
  }

  predicate HasPixels(q: Rect) { q.l < q.r && q.t < q.b }

  predicate AllHavePixels(qs: seq<Rect>) {
    forall i :: 0 <= i < |qs| ==> HasPixels(qs[i])
  }

  lemma SquareMonotone(a: int, b: int)
    requires -b <= a <= b
    ensures a * a <= b * b
  {
    assert (b - a) * (b + a) >= 0;
    assert (b - a) * (b + a) == b * b - a * a;
  }

  lemma SnapIsNearest(q: Rect, x: int, y: int, px: int, py: int)
    requires Inside(q, px, py)
    ensures Inside(q, Snap(q, x, y).0, Snap(q, x, y).1)
    ensures Dist2(x, y, Snap(q, x, y)) <= Dist2(x, y, (px, py))
  {
    var s := Snap(q, x, y);
    SquareMonotone(x - s.0, if x < px then px - x else x - px);
    SquareMonotone(y - s.1, if y < py then py - y else y - py);
    assert (px - x) * (px - x) == (x - px) * (x - px);
    assert (py - y) * (py - y) == (y - py) * (y - py);
  }

  /** A wall hit is the true projection onto the monitor union: it is a pixel of
      the union and no pixel of the union is closer. */
  lemma {:induction false} WallPointIsProjection(qs: seq<Rect>, x: int, y: int)
    requires |qs| > 0 && AllHavePixels(qs)
    ensures OnAny(qs, WallPoint(qs, x, y).0, WallPoint(qs, x, y).1)
    ensures forall px, py :: OnAny(qs, px, py) ==>
      Dist2(x, y, WallPoint(qs, x, y)) <= Dist2(x, y, (px, py))
  {
    var last := qs[|qs| - 1];
    var rest := qs[..|qs| - 1];
    var w := WallPoint(qs, x, y);
    SnapIsNearest(last, x, y, last.l, last.t);
    if |qs| > 1 {
      WallPointIsProjection(rest, x, y);
      var r := WallPoint(rest, x, y);
      var i :| 0 <= i < |rest| && Inside(rest[i], r.0, r.1);
      assert qs[i] == rest[i];
      assert w == r || w == Snap(last, x, y);
    }
    assert OnAny(qs, w.0, w.1);
    forall px, py | OnAny(qs, px, py)
      ensures Dist2(x, y, w) <= Dist2(x, y, (px, py))
    {
      var k :| 0 <= k < |qs| && Inside(qs[k], px, py);
      if k == |qs| - 1 {
        SnapIsNearest(last, x, y, px, py);
      } else {
        assert Inside(rest[k], px, py);
        assert OnAny(rest, px, py);
      }
    }
  }

  /** Where a raw cursor that left the client must be pulled across the gap:
      outside the client's box on a side beyond which the whole server box lies. */
  predicate ExitsToward(cb: Rect, sb: Rect, x: int, y: int) {
    || (x < cb.l && sb.r <= cb.l) || (x >= cb.r && sb.l >= cb.r)
    || (y < cb.t && sb.b <= cb.t) || (y >= cb.b && sb.t >= cb.b)
  }

  /** v pulled to HYSTERESIS pixels inside lo..hi-1, the upper limit applied last. */
  function Inset(v: int, lo: int, hi: int): int {
    var a := if v < lo + HYSTERESIS then lo + HYSTERESIS else v;
    if a > hi - 1 - HYSTERESIS then hi - 1 - HYSTERESIS else a
  }

  /** Landing point of the gap teleport, axis by axis. */
  function GapLanding(cb: Rect, sb: Rect, x: int, y: int): (int, int) {
    var jx := if x < cb.l && sb.r <= cb.l then sb.r - 1 - HYSTERESIS
              else if x >= cb.r && sb.l >= cb.r then sb.l + HYSTERESIS
              else x;
    var jy := if y < cb.t && sb.b <= cb.t then sb.b - 1 - HYSTERESIS
              else if y >= cb.b && sb.t >= cb.b then sb.t + HYSTERESIS
              else y;
    (Inset(jx, sb.l, sb.r), Inset(jy, sb.t, sb.b))
  }

  /** The grabbed cursor after a raw move to (x, y): kept on the client or on a
      server monitor, teleported across a gap, or stopped at the client's wall. */
  function Confine(cs: seq<Rect>, ss: seq<Rect>, x: int, y: int): (int, int) {
    if OnAny(cs, x, y) || OnAny(ss, x, y) then (x, y)
    else if ExitsToward(Bounds(cs), Bounds(ss), x, y) then GapLanding(Bounds(cs), Bounds(ss), x, y)
    else WallPoint(cs, x, y)
  }

  /** The first primary monitor, or the first monitor when none is primary. */
  function HomeFrom(ms: seq<Monitor>, k: nat): (i: nat)
    requires k <= |ms| && |ms| > 0
    ensures i < |ms|
    decreases |ms| - k
  {
    if k == |ms| then 0 else if ms[k].primary then k else HomeFrom(ms, k + 1)
  }

  function ClampToServer(ms: seq<Monitor>, x: int, y: int): (int, int) {
    if OnAny(Screens(ms, 0, 0), x, y) then (x, y)
    else if |ms| == 0 then (0, 0)
    else Snap(Screen(ms[HomeFrom(ms, 0)], 0, 0), x, y)
  }

  /** v pulled to HYSTERESIS pixels inside lo..hi-1, the lower limit applied last. */
  function Pad(v: int, lo: int, hi: int): int {
    var a := if v >= hi - 1 - HYSTERESIS then hi - 1 - HYSTERESIS else v;
    if a <= lo + HYSTERESIS then lo + HYSTERESIS else a
  }

  /** Centre of the last primary monitor, or of the first when none is primary. */
  function TrapOf(ms: seq<Monitor>): (int, int) {
    if |ms| == 0 then (0, 0)
    else
      var m := ms[|ms| - 1];
      if m.primary || |ms| == 1 then (m.x as int + m.w as int / 2, m.y as int + m.h as int / 2)
      else TrapOf(ms[..|ms| - 1])
  }

  // ---- Rays beyond the server's box, used when a push opens a grab ----

  datatype Dir = ToRight | ToLeft | ToBottom | ToTop

  /** The k-th pixel beyond box in direction d, along the row or column perp. */
  function RayPixel(box: Rect, d: Dir, perp: int, k: int): (int, int) {
    match d
    case ToRight => (box.r + k, perp)
    case ToLeft => (box.l - 1 - k, perp)
    case ToBottom => (perp, box.b + k)
    case ToTop => (perp, box.t - 1 - k)
  }

  /** How many pixels lie between box and q in direction d. */
  function Depth(box: Rect, d: Dir, q: Rect): int {
    match d
    case ToRight => q.l - box.r
    case ToLeft => box.l - q.r
    case ToBottom => q.t - box.b
    case ToTop => box.t - q.b
  }

  predicate Spans(d: Dir, q: Rect, perp: int) {
    match d
    case ToRight | ToLeft => q.t <= perp < q.b
    case ToBottom | ToTop => q.l <= perp < q.r
  }

  /** The coordinate that stays fixed along a ray in direction d. */
  function Across(d: Dir, x: int, y: int): int {
    if d.ToRight? || d.ToLeft? then y else x
  }

  function Neighbour(d: Dir, x: int, y: int): (int, int) {
    match d
    case ToRight => (x + 1, y)
    case ToLeft => (x - 1, y)
    case ToBottom => (x, y + 1)
    case ToTop => (x, y - 1)
  }

  /** One step further in direction d leaves every monitor. */
  predicate AtEdge(qs: seq<Rect>, d: Dir, x: int, y: int) {
    !OnAny(qs, Neighbour(d, x, y).0, Neighbour(d, x, y).1)
  }
}
