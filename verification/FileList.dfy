/** File lists on the Windows clipboard: a header followed by NUL-terminated UTF-16 paths
    and one more NUL (internal/platform/windows/clipboard.go). */
module FileList {
  import opened Wire
  import opened LittleEndian

  type Path = seq<uint16>

  /** Size of the drop header; its first word is the offset of the paths, its last says
      that they are wide characters. */
  const HEADER := 20
  const WIDE_AT := 16

  datatype Error = NoPaths | PayloadTooSmall | NarrowCharacters | OffsetOutOfBounds

  // ----- multi-strings -----

  predicate NulFree(p: Path) {
    forall i | 0 <= i < |p| :: p[i] != 0
  }

  function Terminated(ps: seq<Path>): seq<uint16> {
    if ps == [] then [] else ps[0] + [0] + Terminated(ps[1..])
  }

  function MultiSZ(ps: seq<Path>): seq<uint16> {
    Terminated(ps) + [0]
  }

  /** Index of the first NUL, or the length if there is none. */
  function FirstNul(src: seq<uint16>): (k: nat)
    ensures k <= |src| && NulFree(src[..k]) && (k < |src| ==> src[k] == 0)
  {
    if src == [] || src[0] == 0 then 0
    else
      var k := 1 + FirstNul(src[1..]);
      assert src[..k] == [src[0]] + src[1..][..k - 1];
      k
  }

  /** The strings up to the first empty one or the last NUL. */
  function Strings(src: seq<uint16>): seq<Path>
    decreases |src|, 1
  {
    CutAt(src, FirstNul(src))
  }

  /** The string before position k and those after it; none if it is empty or nothing ends it. */
  function CutAt(src: seq<uint16>, k: nat): seq<Path>
    requires k <= |src|
    decreases |src|, 0
  {
    if k == 0 || k == |src| then [] else [src[..k]] + Strings(src[k + 1..])
  }

  lemma PrefixNulFree(src: seq<uint16>, k: nat)
    requires k <= |src| && NulFree(src[..k])
    ensures forall i | 0 <= i < k :: src[i] != 0
  {
    forall i | 0 <= i < k ensures src[i] != 0 {
      assert src[..k][i] == src[i];
    }
  }

  lemma FirstNulIs(src: seq<uint16>, k: nat)
    requires k <= |src| && NulFree(src[..k]) && (k < |src| ==> src[k] == 0)
    ensures FirstNul(src) == k
  {
    PrefixNulFree(src, k);
    PrefixNulFree(src, FirstNul(src));
  }

  /** One more string, src[start..i], and what follows its NUL. */
  lemma NextString(src: seq<uint16>, start: nat, i: nat)
    requires start <= i <= |src| && NulFree(src[start..i]) && (i < |src| ==> src[i] == 0)
    ensures Strings(src[start..]) == if i == start || i == |src| then [] else [src[start..i]] + Strings(src[i + 1..])
  {
    var rest, k := src[start..], i - start;
    assert rest[..k] == src[start..i];
    FirstNulIs(rest, k);
    assert Strings(rest) == CutAt(rest, k);
    if k < |rest| {
      assert rest[k + 1..] == src[i + 1..];
    }
  }

  /** The strings still to come when i has run ahead of start without meeting a NUL. */
  ghost function Ahead(src: seq<uint16>, start: nat, i: nat): seq<Path>
    requires start <= i <= |src|
    decreases |src| - i
  {
    if i == |src| then []
    else if src[i] != 0 then Ahead(src, start, i + 1)
    else if i == start then []
    else [src[start..i]] + Ahead(src, i + 1, i + 1)
  }

  lemma AheadAtNul(src: seq<uint16>, start: nat, i: nat)
    requires start <= i < |src| && NulFree(src[start..i]) && src[i] == 0
    requires start < i ==> Ahead(src, i + 1, i + 1) == Strings(src[i + 1..])
    ensures Ahead(src, start, i) == Strings(src[start..])
  {
    NextString(src, start, i);
  }

  lemma {:induction false} AheadIsStrings(src: seq<uint16>, start: nat, i: nat)
    requires start <= i <= |src| && NulFree(src[start..i])
    ensures Ahead(src, start, i) == Strings(src[start..])
    decreases |src| - i
  {
    if i == |src| {
      NextString(src, start, i);
    } else if src[i] != 0 {
      assert src[start..i + 1] == src[start..i] + [src[i]];
      AheadIsStrings(src, start, i + 1);
    } else {
      if start < i {
        AheadIsStrings(src, i + 1, i + 1);
      }
      AheadAtNul(src, start, i);
    }
  }

  /** A loop over the code units that cuts a string off at every NUL. */
  method ParseMultiSZ(src: seq<uint16>) returns (out: seq<Path>)
    ensures out == Strings(src)
  {
    AheadIsStrings(src, 0, 0);
    assert src[0..] == src;
    out := [];
    var start, i := 0, 0;
    while i < |src|
      invariant 0 <= start <= i <= |src|
      invariant out + Ahead(src, start, i) == Strings(src)
    {
      if src[i] == 0 {
        if i == start {
          return;
        }
        out := out + [src[start..i]];
        start := i + 1;
      }
      i := i + 1;
    }
  }

  predicate Plain(ps: seq<Path>) {
    forall p | p in ps :: p != [] && NulFree(p)
  }

  lemma {:induction false} StringsArePlain(src: seq<uint16>)
    ensures Plain(Strings(src))
    decreases |src|
  {
    var k := FirstNul(src);
    if k != 0 && k != |src| {
      StringsArePlain(src[k + 1..]);
    }
  }

  lemma {:induction false} PlainComesBack(ps: seq<Path>, tail: seq<uint16>)
    requires Plain(ps)
    ensures Strings(MultiSZ(ps) + tail) == ps
  {
    var src := MultiSZ(ps) + tail;
    if ps == [] {
      assert src[0] == 0;
    } else {
      var n := |ps[0]|;
      assert src == ps[0] + [0] + (MultiSZ(ps[1..]) + tail);
      assert src[..n] == ps[0];
      FirstNulIs(src, n);
      assert src[n + 1..] == MultiSZ(ps[1..]) + tail;
      PlainComesBack(ps[1..], tail);
    }
  }

  /** Packing a list of paths and parsing it back, whatever code units follow, gives the
      same list exactly when every path is non-empty and free of NULs. */
  lemma MultiSZRoundTripIff(ps: seq<Path>, tail: seq<uint16>)
    ensures Strings(MultiSZ(ps) + tail) == ps <==> Plain(ps)
  {
    StringsArePlain(MultiSZ(ps) + tail);
    if Plain(ps) {
      PlainComesBack(ps, tail);
    }
  }

  // ----- the clipboard payload -----

  /** The code units in raw; a last odd byte is ignored. */
  function Units(raw: seq<byte>): (us: seq<uint16>)
    ensures |us| == |raw| / 2
    ensures forall k | 0 <= k < |us| :: us[k] as int == Le16(raw, 2 * k)
  {
    seq(|raw| / 2, k requires 0 <= k < |raw| / 2 => Le16(raw, 2 * k) as uint16)
  }

  /** What a reader makes of a payload. */
  function FilesIn(raw: seq<byte>): Result<seq<Path>, Error> {
    if |raw| < HEADER then Err(PayloadTooSmall)
    else if Le32(raw, WIDE_AT) == 0 then Err(NarrowCharacters)
    else if Le32(raw, 0) >= |raw| then Err(OffsetOutOfBounds)
    else Ok(Strings(Units(raw[Le32(raw, 0)..])))
  }

  /** What a writer makes of a list of paths. */
  ghost predicate Holds(raw: seq<byte>, ps: seq<Path>) {
    && |raw| >= HEADER
    && Le32(raw, 0) == HEADER
    && Le32(raw, WIDE_AT) == 1
    && (forall i | 4 <= i < WIDE_AT :: raw[i] == 0)
    && |raw| == HEADER + 2 * |MultiSZ(ps)|
    && Units(raw[HEADER..]) == MultiSZ(ps)
  }

  method ReadFiles(raw: seq<byte>) returns (r: Result<seq<Path>, Error>)
    ensures r == FilesIn(raw)
  {
    if |raw| < HEADER {
      return Err(PayloadTooSmall);
    }
    if Le32(raw, WIDE_AT) == 0 {
      return Err(NarrowCharacters);
    }
    var start := Le32(raw, 0);
    if start >= |raw| {
      return Err(OffsetOutOfBounds);
    }
    var u16: seq<uint16> := [];
    var i := start;
    while i + 1 < |raw|
      invariant start <= i <= |raw| && i == start + 2 * |u16|
      invariant forall k | 0 <= k < |u16| :: u16[k] as int == Le16(raw, start + 2 * k)
    {
      u16 := u16 + [Le16(raw, i) as uint16];
      i := i + 2;
    }
    forall k | 0 <= k < |u16| ensures u16[k] == Units(raw[start..])[k] {
      assert Le16(raw, start + 2 * k) == Le16(raw[start..], 2 * k);
    }
    assert u16 == Units(raw[start..]);
    var paths := ParseMultiSZ(u16);
    r := Ok(paths);
  }

  lemma {:induction false} TerminatedAppend(ps: seq<Path>, p: Path)
    ensures Terminated(ps + [p]) == Terminated(ps) + p + [0]
  {
    if ps == [] {
      assert ps + [p] == [p];
    } else {
      assert (ps + [p])[1..] == ps[1..] + [p];
      TerminatedAppend(ps[1..], p);
    }
  }

  method JoinPaths(ps: seq<Path>) returns (sz: seq<uint16>)
    ensures sz == MultiSZ(ps)
  {
    sz := [];
    for n := 0 to |ps|
      invariant sz == Terminated(ps[..n])
    {
      assert ps[..n + 1] == ps[..n] + [ps[n]];
      TerminatedAppend(ps[..n], ps[n]);
      sz := sz + ps[n];
      sz := sz + [0];
    }
    assert ps[..|ps|] == ps;
    sz := sz + [0];
  }

  method WriteFiles(ps: seq<Path>) returns (r: Result<seq<byte>, Error>)
    ensures r.Ok? <==> ps != []
    ensures r.Err? ==> r.error == NoPaths
    ensures r.Ok? ==> Holds(r.value, ps)
  {
    if |ps| == 0 {
      return Err(NoPaths);
    }
    var sz := JoinPaths(ps);
    var buf := new byte[HEADER + 2 * |sz|](_ => 0);
    PutUint32(buf, 0, HEADER);
    PutUint32(buf, WIDE_AT, 1);
    PutUnits(buf, sz);
    r := Ok(buf[..]);
  }

  method PutUnits(buf: array<byte>, sz: seq<uint16>)
    requires buf.Length == HEADER + 2 * |sz|
    modifies buf
    ensures buf[..HEADER] == old(buf[..HEADER])
    ensures Units(buf[HEADER..]) == sz
  {
    var pos := HEADER;
    for n := 0 to |sz|
      invariant pos == HEADER + 2 * n
      invariant buf[..HEADER] == old(buf[..HEADER])
      invariant forall k | 0 <= k < n :: Le16(buf[..], HEADER + 2 * k) == sz[k] as int
    {
      PutUint16(buf, pos, sz[n] as int);
      pos := pos + 2;
    }
    forall k | 0 <= k < |sz| ensures Units(buf[HEADER..])[k] == sz[k] {
      assert Le16(buf[..], HEADER + 2 * k) == Le16(buf[HEADER..], 2 * k);
    }
  }

  /** Writing paths to the clipboard and reading them back, whatever bytes the allocator
      left behind them, gives the same paths exactly when each is non-empty and NUL-free. */
  lemma FilesRoundTripIff(ps: seq<Path>, raw: seq<byte>, tail: seq<byte>)
    requires Holds(raw, ps)
    ensures FilesIn(raw + tail) == Ok(ps) <==> Plain(ps)
  {
    var all := raw + tail;
    assert Le32(all, 0) == Le32(raw, 0) && Le32(all, WIDE_AT) == Le32(raw, WIDE_AT);
    assert all[HEADER..] == raw[HEADER..] + tail;
    UnitsAppend(raw[HEADER..], tail);
    MultiSZRoundTripIff(ps, Units(tail));
  }

  lemma UnitsAppend(raw: seq<byte>, tail: seq<byte>)
    requires |raw| % 2 == 0
    ensures Units(raw + tail) == Units(raw) + Units(tail)
  {
    var us := Units(raw + tail);
    forall k | 0 <= k < |us| ensures us[k] == (Units(raw) + Units(tail))[k] {
      if 2 * k < |raw| {
        assert Le16(raw + tail, 2 * k) == Le16(raw, 2 * k);
      } else {
        assert Le16(raw + tail, 2 * k) == Le16(tail, 2 * (k - |raw| / 2));
      }
    }
  }

  // ----- byte for byte -----

  /** Two bytes of raw, low byte first. */
  predicate UnitAt(raw: seq<byte>, at: nat, u: uint16) {
    at + 2 <= |raw| && u as int == raw[at] as int + 256 * raw[at + 1] as int
  }

  /** us are the code units from there to the end, a last odd byte left out. */
  predicate FillsFrom(raw: seq<byte>, at: nat, us: seq<uint16>) {
    at <= |raw| && |us| == (|raw| - at) / 2 && forall k | 0 <= k < |us| :: UnitAt(raw, at + 2 * k, us[k])
  }

  ghost predicate ReadsAs(raw: seq<byte>, at: nat, us: seq<uint16>) {
    FillsFrom(raw, at, us) && FilesIn(raw) == Ok(Strings(us))
  }

  /** A written payload: offset 20, twelve zero bytes, the wide flag 1, then the code units. */
  lemma WrittenBytes(raw: seq<byte>, ps: seq<Path>)
    requires Holds(raw, ps)
    ensures |raw| == 20 + 2 * |MultiSZ(ps)|
    ensures raw[..20] == [20, 0, 0, 0, 0, 0, 0, 0, 0, 0, 0, 0, 0, 0, 0, 0, 1, 0, 0, 0]
    ensures forall k | 0 <= k < |MultiSZ(ps)| :: UnitAt(raw, 20 + 2 * k, MultiSZ(ps)[k])
  {
    forall k | 0 <= k < |MultiSZ(ps)| ensures UnitAt(raw, 20 + 2 * k, MultiSZ(ps)[k]) {
      assert Units(raw[20..])[k] as int == Le16(raw[20..], 2 * k);
    }
  }

  /** What a reader takes a payload for: the flag is in bytes 16 to 19, the offset in the first
      four, and the code units fill the rest. */
  lemma ReadBytes(raw: seq<byte>)
    ensures |raw| < 20 ==> FilesIn(raw) == Err(PayloadTooSmall)
    ensures |raw| >= 20 && raw[16] == raw[17] == raw[18] == raw[19] == 0 ==> FilesIn(raw) == Err(NarrowCharacters)
    ensures |raw| >= 20 && !(raw[16] == raw[17] == raw[18] == raw[19] == 0) ==>
      var at := raw[0] as int + 256 * raw[1] as int + 65536 * raw[2] as int + 16777216 * raw[3] as int;
      if at >= |raw| then FilesIn(raw) == Err(OffsetOutOfBounds)
      else exists us: seq<uint16> :: ReadsAs(raw, at, us)
  {
    if |raw| >= 20 {
      var at := raw[0] as int + 256 * raw[1] as int + 65536 * raw[2] as int + 16777216 * raw[3] as int;
      assert Le32(raw, 0) == at;
      assert Le32(raw, 16) == 0 <==> raw[16] == raw[17] == raw[18] == raw[19] == 0;
      if at < |raw| {
        UnitsFill(raw, at);
        assert Le32(raw, 16) != 0 ==> ReadsAs(raw, at, Units(raw[at..]));
      }
    }
  }

  lemma UnitsFill(raw: seq<byte>, at: nat)
    requires at <= |raw|
    ensures FillsFrom(raw, at, Units(raw[at..]))
  {
    var us := Units(raw[at..]);
    forall k | 0 <= k < |us| ensures UnitAt(raw, at + 2 * k, us[k]) {
      assert us[k] as int == Le16(raw[at..], 2 * k);
    }
  }
}
