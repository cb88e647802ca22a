/** The clipboard history a GUI keeps: a bounded list with adjacent duplicates collapsed
    (internal/clipboardhistory/history.go). */
module ClipboardHistory {
  import opened Wire

  const DEFAULT_CAPACITY := 30

  datatype Entry = Entry(format: byte, data: seq<byte>, origin: string)

  datatype Item = Item(id: uint64, format: byte, data: seq<byte>, origin: string)

  datatype Op = Add(entry: Entry) | Clear

  // ----- what the history should hold -----

  predicate SameContent(a: Entry, b: Entry) {
    a.format == b.format && a.data == b.data
  }

  /** The non-empty snapshots added since the last Clear. */
  ghost function SinceClear(ops: seq<Op>): seq<Entry> {
    if ops == [] then []
    else
      var op := ops[|ops| - 1];
      if op.Clear? then []
      else if op.entry.data == [] then SinceClear(ops[..|ops| - 1])
      else SinceClear(ops[..|ops| - 1]) + [op.entry]
  }

  predicate NoneEmpty(rs: seq<seq<Entry>>) {
    forall k | 0 <= k < |rs| :: |rs[k]| > 0
  }

  /** Adds one snapshot to the last run if it repeats it, and starts a run otherwise. */
  ghost function Extend(rs: seq<seq<Entry>>, e: Entry): (r: seq<seq<Entry>>)
    requires NoneEmpty(rs)
    ensures NoneEmpty(r)
  {
    var n := |rs| - 1;
    if n >= 0 && SameContent(rs[n][0], e) then rs[n := rs[n] + [e]] else rs + [[e]]
  }

  ghost function Runs(es: seq<Entry>): (rs: seq<seq<Entry>>)
    ensures NoneEmpty(rs)
  {
    if es == [] then [] else Extend(Runs(es[..|es| - 1]), es[|es| - 1])
  }

  ghost function Flatten(rs: seq<seq<Entry>>): seq<Entry> {
    if rs == [] then [] else Flatten(rs[..|rs| - 1]) + rs[|rs| - 1]
  }

  /** rs cuts es into consecutive pieces of one content each, and the content changes from
      each piece to the next. */
  ghost predicate AreMaximalRuns(rs: seq<seq<Entry>>, es: seq<Entry>) {
    && NoneEmpty(rs)
    && Flatten(rs) == es
    && (forall k, i | 0 <= k < |rs| && 0 <= i < |rs[k]| :: SameContent(rs[k][0], rs[k][i]))
    && (forall k | 0 < k < |rs| :: !SameContent(rs[k - 1][0], rs[k][0]))
  }

  lemma ExtendKeepsMaximal(rs: seq<seq<Entry>>, es: seq<Entry>, e: Entry)
    requires AreMaximalRuns(rs, es)
    ensures AreMaximalRuns(Extend(rs, e), es + [e])
  {
    var after := Extend(rs, e);
    var n := |after| - 1;
    assert after[..n] == rs[..n];
    if n == |rs| {
      assert rs[..n] == rs;
    } else {
      assert Flatten(after) == Flatten(rs[..n]) + (rs[n] + [e]) == es + [e];
    }
  }

  lemma {:induction false} RunsAreMaximal(es: seq<Entry>)
    ensures AreMaximalRuns(Runs(es), es)
  {
    if es != [] {
      var n := |es| - 1;
      RunsAreMaximal(es[..n]);
      ExtendKeepsMaximal(Runs(es[..n]), es[..n], es[n]);
      assert es == es[..n] + [es[n]];
    }
  }

  /** How many snapshots were stored before the last Clear. */
  ghost function Cleared(ops: seq<Op>): nat {
    if ops == [] then 0
    else
      var before := ops[..|ops| - 1];
      Cleared(before) + if ops[|ops| - 1].Clear? then |Runs(SinceClear(before))| else 0
  }

  ghost function Stored(ops: seq<Op>): nat {
    Cleared(ops) + |Runs(SinceClear(ops))|
  }

  /** The item that stands for a run: its content, and the origin of its latest snapshot. */
  ghost function ItemOf(run: seq<Entry>, number: nat): Item
    requires |run| > 0
  {
    Item((number % TWO64) as uint64, run[0].format, run[0].data, run[|run| - 1].origin)
  }

  ghost function Listed(rs: seq<seq<Entry>>, first: nat): (items: seq<Item>)
    requires NoneEmpty(rs)
    ensures |items| == |rs|
  {
    if rs == [] then []
    else
      var n := |rs| - 1;
      Listed(rs[..n], first) + [ItemOf(rs[n], first + n + 1)]
  }

  /** Every item since the last Clear, had the history no capacity. */
  ghost function Unbounded(ops: seq<Op>): seq<Item> {
    Listed(Runs(SinceClear(ops)), Cleared(ops))
  }

  function Latest(items: seq<Item>, n: nat): (r: seq<Item>)
    ensures |r| == if |items| <= n then |items| else n
  {
    if |items| <= n then items else items[|items| - n..]
  }

  lemma LatestOfAppend(items: seq<Item>, n: nat, x: Item)
    requires n > 0
    ensures var r := Latest(items, n) + [x]; Latest(items + [x], n) == if |r| > n then r[|r| - n..] else r
  {}

  // ----- one more operation -----

  predicate EndsWith(items: seq<Item>, e: Entry) {
    items != [] && items[|items| - 1].format == e.format && items[|items| - 1].data == e.data
  }

  lemma AddEmpty(ops: seq<Op>, e: Entry)
    requires e.data == []
    ensures Unbounded(ops + [Add(e)]) == Unbounded(ops) && Stored(ops + [Add(e)]) == Stored(ops)
  {
    assert (ops + [Add(e)])[..|ops|] == ops;
  }

  lemma AddRepeat(ops: seq<Op>, e: Entry)
    requires e.data != [] && EndsWith(Unbounded(ops), e)
    ensures var items := Unbounded(ops);
      Unbounded(ops + [Add(e)]) == items[|items| - 1 := items[|items| - 1].(origin := e.origin)]
    ensures Stored(ops + [Add(e)]) == Stored(ops)
  {
    var es := SinceClear(ops);
    assert (ops + [Add(e)])[..|ops|] == ops;
    assert (es + [e])[..|es|] == es;
  }

  lemma AddNew(ops: seq<Op>, e: Entry)
    requires e.data != [] && !EndsWith(Unbounded(ops), e)
    ensures Unbounded(ops + [Add(e)])
            == Unbounded(ops) + [Item(((Stored(ops) + 1) % TWO64) as uint64, e.format, e.data, e.origin)]
    ensures Stored(ops + [Add(e)]) == Stored(ops) + 1
  {
    var es := SinceClear(ops);
    assert (ops + [Add(e)])[..|ops|] == ops;
    assert (es + [e])[..|es|] == es;
  }

  lemma ClearAll(ops: seq<Op>)
    ensures Unbounded(ops + [Clear]) == [] && Stored(ops + [Clear]) == Stored(ops)
  {
    assert (ops + [Clear])[..|ops|] == ops;
  }

  // ----- identifiers -----

  lemma NumbersApart(a: nat, b: nat)
    requires a < b < a + TWO64
    ensures a % TWO64 != b % TWO64
    ensures b < TWO64 ==> a % TWO64 < b % TWO64
  {
    var q := b / TWO64 - a / TWO64;
    assert b - a == TWO64 * q + (b % TWO64 - a % TWO64);
  }

  lemma {:induction false} ListedAt(rs: seq<seq<Entry>>, first: nat, i: nat)
    requires NoneEmpty(rs) && i < |rs|
    ensures Listed(rs, first)[i] == ItemOf(rs[i], first + i + 1)
  {
    var n := |rs| - 1;
    if i < n { ListedAt(rs[..n], first, i); }
  }

  lemma LatestListed(rs: seq<seq<Entry>>, first: nat, n: nat, i: nat)
    requires NoneEmpty(rs) && i < |Latest(Listed(rs, first), n)|
    ensures var k := |rs| - |Latest(Listed(rs, first), n)| + i;
      Latest(Listed(rs, first), n)[i] == ItemOf(rs[k], first + k + 1)
  {
    ListedAt(rs, first, |rs| - |Latest(Listed(rs, first), n)| + i);
  }

  /** The items are the latest runs, as many as the capacity allows, and item i stands for its
      run, numbered on from first. */
  ghost predicate StandsForRun(items: seq<Item>, rs: seq<seq<Entry>>, first: nat, capacity: nat, i: nat)
    requires NoneEmpty(rs) && i < |items|
  {
    && |items| == (if |rs| <= capacity then |rs| else capacity)
    && var k := |rs| - |items| + i; items[i] == ItemOf(rs[k], first + k + 1)
  }

  lemma LatestStandForRuns(rs: seq<seq<Entry>>, first: nat, capacity: nat, i: nat)
    requires NoneEmpty(rs) && i < |Latest(Listed(rs, first), capacity)|
    ensures StandsForRun(Latest(Listed(rs, first), capacity), rs, first, capacity, i)
  {
    LatestListed(rs, first, capacity, i);
  }

  /** A repeat keeps its identifier: adding a snapshot the history already ends with
      changes the origin of its last item and nothing else. */
  lemma RepeatKeepsId(ops: seq<Op>, e: Entry, capacity: nat)
    requires capacity > 0 && e.data != [] && EndsWith(Unbounded(ops), e)
    ensures var before, after := Latest(Unbounded(ops), capacity), Latest(Unbounded(ops + [Add(e)]), capacity);
      && |before| == |after| > 0
      && after == before[..|before| - 1] + [before[|before| - 1].(origin := e.origin)]
  {
    AddRepeat(ops, e);
  }

  // ----- the history itself -----

  /** The 64-bit successor. */
  function Next(n: uint64): uint64 {
    if n as int == TWO64 - 1 then 0 else n + 1
  }

  /** The fields of a history. */
  datatype Held = Held(items: seq<Item>, nextID: uint64)

  function Step(h: Held, capacity: nat, op: Op): Held {
    if op.Clear? then h.(items := [])
    else
      var e := op.entry;
      if e.data == [] then h
      else if EndsWith(h.items, e) then
        var n := |h.items| - 1;
        h.(items := h.items[n := h.items[n].(origin := e.origin)])
      else
        Held(Latest(h.items + [Item(Next(h.nextID), e.format, e.data, e.origin)], capacity), Next(h.nextID))
  }

  function After(ops: seq<Op>, capacity: nat): Held {
    if ops == [] then Held([], 0)
    else Step(After(ops[..|ops| - 1], capacity), capacity, ops[|ops| - 1])
  }

  lemma AfterOneMore(ops: seq<Op>, op: Op, capacity: nat)
    ensures After(ops + [op], capacity) == Step(After(ops, capacity), capacity, op)
  {
    assert (ops + [op])[..|ops|] == ops;
  }

  /** The fields of a history and the calls that led to them, in terms of the runs. */
  ghost predicate Refines(items: seq<Item>, nextID: uint64, capacity: nat, ops: seq<Op>) {
    && 0 < capacity
    && items == Latest(Unbounded(ops), capacity)
    && nextID as int == Stored(ops) % TWO64
  }

  lemma RefinesEmpty(items: seq<Item>, nextID: uint64, capacity: nat, ops: seq<Op>, e: Entry)
    requires Refines(items, nextID, capacity, ops) && e.data == []
    ensures Refines(items, nextID, capacity, ops + [Add(e)])
  {
    AddEmpty(ops, e);
  }

  lemma RefinesRepeat(items: seq<Item>, after: seq<Item>, nextID: uint64, capacity: nat, ops: seq<Op>, e: Entry)
    requires Refines(items, nextID, capacity, ops) && e.data != [] && EndsWith(items, e)
    requires after == items[|items| - 1 := items[|items| - 1].(origin := e.origin)]
    ensures Refines(after, nextID, capacity, ops + [Add(e)])
  {
    RepeatsLast(ops, e, capacity);
    RepeatKeepsId(ops, e, capacity);
    AddRepeat(ops, e);
  }

  lemma RefinesNew(items: seq<Item>, after: seq<Item>, nextID: uint64, capacity: nat, ops: seq<Op>, e: Entry)
    requires Refines(items, nextID, capacity, ops) && e.data != []
    requires !EndsWith(items, e)
    requires var r := items + [Item(Next(nextID), e.format, e.data, e.origin)];
      after == if |r| > capacity then r[|r| - capacity..] else r
    ensures Refines(after, Next(nextID), capacity, ops + [Add(e)])
  {
    var x := Item(Next(nextID), e.format, e.data, e.origin);
    NextStored(nextID, Stored(ops));
    RepeatsLast(ops, e, capacity);
    AddNew(ops, e);
    LatestOfAppend(Unbounded(ops), capacity, x);
  }

  lemma NextStored(nextID: uint64, n: nat)
    requires nextID as int == n % TWO64
    ensures Next(nextID) as int == (n + 1) % TWO64
  {}

  lemma RepeatsLast(ops: seq<Op>, e: Entry, capacity: nat)
    requires capacity > 0
    ensures var items := Latest(Unbounded(ops), capacity);
      EndsWith(Unbounded(ops), e) <==> EndsWith(items, e)
  {}

  lemma {:induction false} AfterRefines(ops: seq<Op>, capacity: nat)
    requires capacity > 0
    ensures var h := After(ops, capacity); Refines(h.items, h.nextID, capacity, ops)
  {
    if ops != [] {
      var n := |ops| - 1;
      AfterRefines(ops[..n], capacity);
      assert ops == ops[..n] + [ops[n]];
      StepRefines(After(ops[..n], capacity), capacity, ops[..n], ops[n]);
    }
  }

  /** What the history holds after ops: one item for each of the latest maximal runs of
      equal snapshots since the last Clear, numbered on from the items stored before. */
  lemma HoldsLatestRuns(ops: seq<Op>, capacity: nat, i: nat)
    requires capacity > 0 && i < |After(ops, capacity).items|
    ensures StandsForRun(After(ops, capacity).items, Runs(SinceClear(ops)), Cleared(ops), capacity, i)
  {
    AfterRefines(ops, capacity);
    LatestStandForRuns(Runs(SinceClear(ops)), Cleared(ops), capacity, i);
  }

  /** Identifiers are handed out in increasing order until the 64-bit counter wraps, and
      wrapped or not, no two retained items share one. */
  lemma IdsAreDistinct(ops: seq<Op>, capacity: nat, i: nat, j: nat)
    requires 0 < capacity < TWO64 && i < j < |After(ops, capacity).items|
    ensures var items := After(ops, capacity).items;
      && items[i].id != items[j].id
      && (Stored(ops) < TWO64 ==> items[i].id < items[j].id)
  {
    HoldsLatestRuns(ops, capacity, i);
    HoldsLatestRuns(ops, capacity, j);
    var n := Stored(ops) - |After(ops, capacity).items|;
    NumbersApart(n + i + 1, n + j + 1);
  }

  lemma StepRefines(h: Held, capacity: nat, ops: seq<Op>, op: Op)
    requires Refines(h.items, h.nextID, capacity, ops)
    ensures var t := Step(h, capacity, op); Refines(t.items, t.nextID, capacity, ops + [op])
  {
    var t := Step(h, capacity, op);
    if op.Clear? {
      ClearAll(ops);
    } else if op.entry.data == [] {
      RefinesEmpty(h.items, h.nextID, capacity, ops, op.entry);
    } else if EndsWith(h.items, op.entry) {
      RefinesRepeat(h.items, t.items, h.nextID, capacity, ops, op.entry);
    } else {
      RefinesNew(h.items, t.items, h.nextID, capacity, ops, op.entry);
    }
  }

  // ----- identifiers over whole histories -----

  lemma CounterGrows(ops: seq<Op>, capacity: nat, n: nat)
    requires n < |ops|
    ensures After(ops[..n + 1], capacity) == Step(After(ops[..n], capacity), capacity, ops[n])
  {
    assert ops[..n + 1] == ops[..n] + [ops[n]];
    AfterOneMore(ops[..n], ops[n], capacity);
  }

  predicate BelowCounter(h: Held) { forall i :: 0 <= i < |h.items| ==> h.items[i].id <= h.nextID }

  lemma StepBelowCounter(h: Held, capacity: nat, op: Op)
    requires BelowCounter(h) && h.nextID as int + 1 < TWO64
    ensures var t := Step(h, capacity, op); BelowCounter(t) && t.nextID as int <= h.nextID as int + 1
  {
    var t := Step(h, capacity, op);
    forall i | 0 <= i < |t.items| ensures t.items[i].id <= t.nextID {
      if op.Add? && op.entry.data != [] && !EndsWith(h.items, op.entry) {
        var all := h.items + [Item(Next(h.nextID), op.entry.format, op.entry.data, op.entry.origin)];
        assert t.items[i] == all[|all| - |t.items| + i];
      }
    }
  }

  /** The counter is at most the number of calls, and no retained identifier is above it. */
  lemma {:induction false} IdsBelowCounter(ops: seq<Op>, capacity: nat, n: nat)
    requires n <= |ops| < TWO64
    ensures var h := After(ops[..n], capacity);
      h.nextID as int <= n && BelowCounter(h)
  {
    if n > 0 {
      IdsBelowCounter(ops, capacity, n - 1);
      CounterGrows(ops, capacity, n - 1);
      StepBelowCounter(After(ops[..n - 1], capacity), capacity, ops[n - 1]);
    }
  }

  predicate SameSnapshot(a: Item, b: Item) { a.format == b.format && a.data == b.data }

  /** b is one of the items, but for its origin. */
  predicate Listing(items: seq<Item>, b: Item) {
    exists i :: 0 <= i < |items| && items[i].id == b.id && SameSnapshot(items[i], b)
  }

  lemma StepKeepsContent(h: Held, capacity: nat, op: Op, k: nat)
    requires capacity > 0 && k < |Step(h, capacity, op).items|
    ensures var b := Step(h, capacity, op).items[k];
      Listing(h.items, b) || (b.id == Next(h.nextID) && Step(h, capacity, op).nextID == Next(h.nextID))
  {
    var t := Step(h, capacity, op);
    var b := t.items[k];
    if op.Add? && op.entry.data != [] && !EndsWith(h.items, op.entry) {
      var all := h.items + [Item(Next(h.nextID), op.entry.format, op.entry.data, op.entry.origin)];
      var j := |all| - |t.items| + k;
      assert b == all[j];
      if j < |h.items| { assert SameSnapshot(h.items[j], b); }
    } else {
      assert SameSnapshot(h.items[k], b);
    }
  }

  /** b was listed then, or has been numbered since. */
  predicate ListedOrLater(was: Held, b: Item) { Listing(was.items, b) || b.id > was.nextID }

  predicate AllListedOrLater(was: Held, items: seq<Item>) {
    forall k :: 0 <= k < |items| ==> ListedOrLater(was, items[k])
  }

  lemma ListedTransitive(was: Held, h: Held, b: Item)
    requires AllListedOrLater(was, h.items) && Listing(h.items, b)
    ensures ListedOrLater(was, b)
  {
    var i :| 0 <= i < |h.items| && h.items[i].id == b.id && SameSnapshot(h.items[i], b);
    assert ListedOrLater(was, h.items[i]);
  }

  lemma StepListsOrNumbers(was: Held, h: Held, capacity: nat, op: Op)
    requires capacity > 0 && AllListedOrLater(was, h.items) && was.nextID <= h.nextID
    requires h.nextID as int + 1 < TWO64
    ensures AllListedOrLater(was, Step(h, capacity, op).items)
  {
    var t := Step(h, capacity, op);
    forall k | 0 <= k < |t.items| ensures ListedOrLater(was, t.items[k]) {
      StepKeepsContent(h, capacity, op, k);
      if Listing(h.items, t.items[k]) { ListedTransitive(was, h, t.items[k]); }
    }
  }

  lemma ItselfListed(was: Held)
    ensures AllListedOrLater(was, was.items)
  {
    forall k | 0 <= k < |was.items| ensures ListedOrLater(was, was.items[k]) {
      assert SameSnapshot(was.items[k], was.items[k]);
    }
  }

  lemma OneMorePersists(ops: seq<Op>, capacity: nat, was: Held, m: nat)
    requires capacity > 0 && m < |ops| < TWO64
    requires AllListedOrLater(was, After(ops[..m], capacity).items) && was.nextID <= After(ops[..m], capacity).nextID
    ensures AllListedOrLater(was, After(ops[..m + 1], capacity).items)
  {
    IdsBelowCounter(ops, capacity, m);
    CounterGrows(ops, capacity, m);
    StepListsOrNumbers(was, After(ops[..m], capacity), capacity, ops[m]);
  }

  /** Whatever is listed after m calls was listed after n already, or is numbered past them. */
  lemma {:induction false} ContentsPersist(ops: seq<Op>, capacity: nat, n: nat, m: nat)
    requires capacity > 0 && n <= m <= |ops| < TWO64
    ensures AllListedOrLater(After(ops[..n], capacity), After(ops[..m], capacity).items)
    decreases m
  {
    if n == m {
      ItselfListed(After(ops[..n], capacity));
    } else {
      ContentsPersist(ops, capacity, n, m - 1);
      CounterIsMonotone(ops, capacity, n, m - 1);
      OneMorePersists(ops, capacity, After(ops[..n], capacity), m - 1);
    }
  }

  lemma {:induction false} CounterIsMonotone(ops: seq<Op>, capacity: nat, n: nat, m: nat)
    requires n <= m <= |ops| < TWO64
    ensures After(ops[..n], capacity).nextID <= After(ops[..m], capacity).nextID
    decreases m
  {
    if n < m {
      CounterIsMonotone(ops, capacity, n, m - 1);
      CounterGrows(ops, capacity, m - 1);
      IdsBelowCounter(ops, capacity, m - 1);
    }
  }

  /** In fewer than 2^64 calls an identifier never comes to stand for another snapshot, not even
      when the history is cleared in between. */
  lemma IdsAreForever(ops: seq<Op>, capacity: nat, n: nat, m: nat, i: nat, k: nat)
    requires 0 < capacity < TWO64 && n <= m <= |ops| < TWO64
    requires i < |After(ops[..n], capacity).items| && k < |After(ops[..m], capacity).items|
    requires After(ops[..n], capacity).items[i].id == After(ops[..m], capacity).items[k].id
    ensures SameSnapshot(After(ops[..n], capacity).items[i], After(ops[..m], capacity).items[k])
  {
    var was, b := After(ops[..n], capacity).items, After(ops[..m], capacity).items[k];
    IdsBelowCounter(ops, capacity, n);
    ContentsPersist(ops, capacity, n, m);
    assert ListedOrLater(After(ops[..n], capacity), b);
    var j :| 0 <= j < |was| && was[j].id == b.id && SameSnapshot(was[j], b);
    if i < j { IdsAreDistinct(ops[..n], capacity, i, j); }
    if j < i { IdsAreDistinct(ops[..n], capacity, j, i); }
  }

  class History {
    var items: seq<Item>
    var nextID: uint64
    const capacity: nat

    /** The calls so far. */
    ghost var ops: seq<Op>

    ghost predicate Valid()
      reads this
    {
      capacity > 0 && Held(items, nextID) == After(ops, capacity)
    }

    constructor (capacity: int)
      ensures Valid() && ops == []
      ensures this.capacity == if capacity <= 0 then 30 else capacity
    {
      this.capacity := if capacity <= 0 then DEFAULT_CAPACITY else capacity;
      items, nextID := [], 0;
      ops := [];
    }

    /** The identifier returned is zero for an empty snapshot and otherwise that of the
        item which now stands for it. */
    method Add(format: byte, data: seq<byte>, origin: string) returns (id: uint64)
      requires Valid()
      modifies this
      ensures Valid() && ops == old(ops) + [Op.Add(Entry(format, data, origin))]
      ensures data == [] ==> id == 0
      ensures data != [] ==> items != [] && items[|items| - 1] == Item(id, format, data, origin)
    {
      ghost var was, e := Held(items, nextID), Entry(format, data, origin);
      ops := ops + [Op.Add(e)];
      if |data| == 0 {
        AfterOneMore(old(ops), Op.Add(e), capacity);
        return 0;
      }
      if |items| > 0 {
        var last := items[|items| - 1];
        var same := BytesEqual(last.data, data);
        if last.format == format && same {
          items := items[|items| - 1 := last.(origin := origin)];
          assert Held(items, nextID) == Step(was, capacity, Op.Add(e));
          AfterOneMore(old(ops), Op.Add(e), capacity);
          return last.id;
        }
      }
      nextID := Next(nextID);
      items := items + [Item(nextID, format, data, origin)];
      if |items| > capacity {
        var drop := |items| - capacity;
        items := items[drop..];
      }
      id := nextID;
      assert Held(items, nextID) == Step(was, capacity, Op.Add(e));
      AfterOneMore(old(ops), Op.Add(e), capacity);
    }

    method Clear()
      requires Valid()
      modifies this
      ensures Valid() && ops == old(ops) + [Op.Clear] && items == []
    {
      AfterOneMore(ops, Op.Clear, capacity);
      items := [];
      ops := ops + [Op.Clear];
    }

    /** Newest first. */
    method Snapshot() returns (out: array<Item>)
      ensures fresh(out) && out.Length == |items|
      ensures forall i | 0 <= i < |items| :: out[i] == items[|items| - 1 - i]
    {
      var n := |items|;
      out := new Item[n](_ => Item(0, 0, [], ""));
      for i := 0 to n
        invariant forall k | n - i <= k < n :: out[k] == items[n - 1 - k]
      {
        out[n - 1 - i] := items[i];
      }
    }

    /** Finds exactly the retained identifiers. */
    method Get(id: uint64) returns (found: Option<Item>)
      requires Valid() && capacity < TWO64
      ensures found.Some? <==> exists i :: 0 <= i < |items| && items[i].id == id
      ensures forall i | 0 <= i < |items| && items[i].id == id :: found == Some(items[i])
    {
      for n := 0 to |items|
        invariant forall i | 0 <= i < n :: items[i].id != id
      {
        if items[n].id == id {
          forall i | 0 <= i < |items| && items[i].id == id ensures i == n {
            if i > n { IdsAreDistinct(ops, capacity, n, i); }
          }
          return Some(items[n]);
        }
      }
      found := None;
    }
  }

  method BytesEqual(a: seq<byte>, b: seq<byte>) returns (equal: bool)
    ensures equal <==> a == b
  {
    if |a| != |b| {
      return false;
    }
    for i := 0 to |a|
      invariant a[..i] == b[..i]
    {
      if a[i] != b[i] {
        return false;
      }
    }
    assert a[..|a|] == a && b[..|b|] == b;
    equal := true;
  }
}
