/** Router, wire and client composed: what a whole run leaves pressed. */
module EndToEnd {
  import CodecLaws
  import CodecSpec
  import opened Wire
  import opened RouterModel
  import opened SessionLaws
  import opened InputLaws
  import opened Receiver

  // ---- No input stays stuck ----

  function Pressed(p: Session): (set<byte>, set<uint16>) {
    if p.Open? then (p.btns, p.keys) else ({}, {})
  }

  /** A client that follows an unbroken session holds pressed exactly what the
      session has open. */
  lemma {:induction false} ReplayFollowsScan(ms: seq<Monitor>, log: seq<Message>)
    requires !Scan(log).Broken?
    ensures var d := Replay(FRESH_DESK, ms, log, Faultless(|log|));
      (d.downBtns, d.downKeys) == Pressed(Scan(log)) && (d.btns, d.keys) == Pressed(Scan(log))
  {
    if |log| > 0 {
      var n := |log| - 1;
      ReplayFollowsScan(ms, log[..n]);
      assert Faultless(|log|)[..n] == Faultless(n);
      var d := Replay(FRESH_DESK, ms, log[..n], Faultless(n));
      assert d.downBtns - (d.btns - {}) == {} && d.downKeys - (d.keys - {}) == {};
    }
  }

  /** No stuck input, end to end: in every state of every run, a registered client
      that applied its session's messages holds pressed exactly the inputs the router
      forwarded and has not released while it is active, and nothing otherwise. */
  lemma NoStuckInput(r: Run, i: nat, id: ConnId, ms: seq<Monitor>)
    requires r.Valid() && i < |r.states| && id in r.states[i].clients
    ensures var s := r.states[i];
      var log := s.clients[id].sent;
      var d := Replay(FRESH_DESK, ms, log, Faultless(|log|));
      && d.downBtns == (if s.active == Some(id) then s.btnsOn else {})
      && d.downKeys == (if s.active == Some(id) then s.keysOn else {})
  {
    RunKeepsProtocol(r, i);
    ReplayFollowsScan(ms, r.states[i].clients[id].sent);
  }

  /** And while it is active that is what the user pressed since it took the cursor, and has not
      released. */
  lemma PressedFollowsUser(r: Run, g: nat, n: nat, id: ConnId, ms: seq<Monitor>)
    requires HoldsSince(r, g, n, id) && id in r.states[n].clients
    ensures var log := r.states[n].clients[id].sent;
      var d := Replay(FRESH_DESK, ms, log, Faultless(|log|));
      && (forall b :: b in d.downBtns <==> ButtonDown(r.events[g + 1..n], b))
      && (forall k :: k in d.downKeys <==> KeyDown(r.events[g + 1..n], k))
  {
    NoStuckInput(r, n, id, ms);
    ForwardsExactly(r, g, n, id);
  }

  // ---- Every wheel turn arrives ----

  /** The wheel messages of a log. */
  function Turns(log: seq<Message>): seq<(int16, int16)> {
    if log == [] then []
    else
      var n := |log| - 1;
      Turns(log[..n]) + if log[n].MouseWheel? then [(log[n].dx, log[n].dy)] else []
  }

  /** The wheel events among es. */
  function Scrolled(es: seq<Event>): seq<(int16, int16)> {
    if es == [] then []
    else
      var n := |es| - 1;
      Scrolled(es[..n]) + if es[n].Wheel? then [(es[n].dx, es[n].dy)] else []
  }

  lemma {:induction false} ReplayTurns(ms: seq<Monitor>, log: seq<Message>, fs: seq<Faults>)
    requires |fs| == |log|
    ensures Replay(FRESH_DESK, ms, log, fs).turns == Turns(log)
  {
    if |log| > 0 {
      var n := |log| - 1;
      ReplayTurns(ms, log[..n], fs[..n]);
    }
  }

  lemma {:induction false} TurnsAppend(a: seq<Message>, b: seq<Message>)
    ensures Turns(a + b) == Turns(a) + Turns(b)
  {
    if b == [] {
      assert a + b == a;
    } else {
      var n := |b| - 1;
      TurnsAppend(a, b[..n]);
      assert (a + b)[..|a| + n] == a + b[..n];
    }
  }

  lemma {:induction false} TurnsAreInputs(log: seq<Message>)
    ensures Turns(InputsOf(log)) == Turns(log)
  {
    if log != [] {
      var n := |log| - 1;
      TurnsAreInputs(log[..n]);
      var last := if CarriesInput(log[n]) then [log[n]] else [];
      TurnsAppend(InputsOf(log[..n]), last);
      OneTurn(log[n]);
    }
  }

  lemma OneTurn(m: Message)
    ensures Turns([m]) == if m.MouseWheel? then [(m.dx, m.dy)] else []
  {
    assert [m][..0] == [];
  }

  lemma EchoTurns(es: seq<Event>, e: Event)
    ensures Turns(Echo(es, e)) == if e.Wheel? then [(e.dx, e.dy)] else []
  {
    var echo := Echo(es, e);
    if echo != [] {
      assert echo == [echo[0]];
      OneTurn(echo[0]);
    }
  }

  lemma TurnsHeardOneMore(es: seq<Event>, n: nat)
    requires es != [] && n == |es| - 1 && Turns(Heard(es[..n])) == Scrolled(es[..n])
    ensures Turns(Heard(es)) == Scrolled(es)
  {
    EchoTurns(es[..n], es[n]);
    TurnsAppend(Heard(es[..n]), Echo(es[..n], es[n]));
    assert Heard(es) == Heard(es[..n]) + Echo(es[..n], es[n]);
  }

  lemma {:induction false} TurnsHeard(es: seq<Event>)
    ensures Turns(Heard(es)) == Scrolled(es)
  {
    if es != [] {
      var n := |es| - 1;
      TurnsHeard(es[..n]);
      TurnsHeardOneMore(es, n);
    }
  }

  /** All through its grab, the turns a client has injected are those it had injected before and
      then exactly the wheel events captured since, in order. */
  lemma WheelFollows(r: Run, g: nat, n: nat, id: ConnId, ms: seq<Monitor>, fs: seq<Faults>)
    requires HoldsSince(r, g, n, id) && id in r.states[n].clients && |fs| == |r.states[n].clients[id].sent|
    ensures id in r.states[g].clients
    ensures var before := r.states[g].clients[id].sent;
      && |before| <= |fs|
      && Replay(FRESH_DESK, ms, r.states[n].clients[id].sent, fs).turns
         == Replay(FRESH_DESK, ms, before, fs[..|before|]).turns + Scrolled(r.events[g + 1..n])
  {
    ForwardsExactly(r, g, n, id);
    var before, log, es := r.states[g].clients[id].sent, r.states[n].clients[id].sent, r.events[g + 1..n];
    ReplayTurns(ms, log, fs);
    ReplayTurns(ms, before, fs[..|before|]);
    var since := log[|before|..];
    assert log == before + since;
    TurnsAppend(before, since);
    TurnsAreInputs(since);
    TurnsHeard(es);
  }

  // ---- Refused injections ----

  /** No release sweep in the log was refused. */
  predicate SweepsWork(log: seq<Message>, fs: seq<Faults>)
    requires |fs| == |log|
  {
    forall i :: 0 <= i < |log| && log[i] == Grab(false) ==> fs[i] == NO_FAULTS
  }

  /** As long as no release sweep is refused, memory and reality agree, whatever
      other injections the client's system refused. */
  lemma {:induction false} MemoryMatchesReality(ms: seq<Monitor>, log: seq<Message>, fs: seq<Faults>)
    requires |fs| == |log| && SweepsWork(log, fs)
    ensures var d := Replay(FRESH_DESK, ms, log, fs); d.btns == d.downBtns && d.keys == d.downKeys
  {
    if |log| > 0 {
      var n := |log| - 1;
      MemoryMatchesReality(ms, log[..n], fs[..n]);
    }
  }

  /** A session that dies after any messages at all, sent by anyone, leaves pressed exactly
      the remembered inputs that the last sweep is refused: nothing, if it is refused none. */
  lemma SessionDeathReleasesAll(ms: seq<Monitor>, log: seq<Message>, fs: seq<Faults>, last: Faults)
    requires |fs| == |log| && SweepsWork(log, fs)
    ensures var d := Replay(FRESH_DESK, ms, log, fs);
      var e := ReleaseAll(d, last);
      && e.downBtns == d.btns * last.btns && e.downKeys == d.keys * last.keys
      && (last == NO_FAULTS ==> e.downBtns == {} && e.downKeys == {})
  {
    MemoryMatchesReality(ms, log, fs);
  }

  /** A session whose brackets are all closed leaves nothing pressed, whatever the client's
      system refused outside the sweeps. */
  lemma ClosedLeavesNothing(ms: seq<Monitor>, log: seq<Message>, fs: seq<Faults>)
    requires |fs| == |log| && SweepsWork(log, fs) && Scan(log) == Closed
    ensures var d := Replay(FRESH_DESK, ms, log, fs); d.downBtns == {} && d.downKeys == {}
  {
    MemoryMatchesReality(ms, log, fs);
    if |log| > 0 {
      assert log[|log| - 1] == Grab(false);
    }
  }

  /** So does every registered client that is not active, in every state of every run. */
  lemma NoStuckInputDespiteRefusals(r: Run, i: nat, id: ConnId, ms: seq<Monitor>, fs: seq<Faults>)
    requires r.Valid() && i < |r.states| && id in r.states[i].clients && r.states[i].active != Some(id)
    requires var log := r.states[i].clients[id].sent; |fs| == |log| && SweepsWork(log, fs)
    ensures var d := Replay(FRESH_DESK, ms, r.states[i].clients[id].sent, fs);
      d.downBtns == {} && d.downKeys == {}
  {
    RunKeepsProtocol(r, i);
    ClosedLeavesNothing(ms, r.states[i].clients[id].sent, fs);
  }

  // ---- Refused sweeps ----

  predicate AcceptsButton(m: Message, f: Faults, b: byte) {
    m.MouseButton? && m.button == b && b !in f.btns
  }

  /** A button the client remembered when release sweep i was refused for it, and of which
      it has accepted nothing since. */
  ghost predicate ButtonLostAt(ms: seq<Monitor>, log: seq<Message>, fs: seq<Faults>, b: byte, i: nat)
    requires |fs| == |log|
  {
    && i < |log| && log[i] == Grab(false) && b in fs[i].btns
    && b in Replay(FRESH_DESK, ms, log[..i], fs[..i]).btns
    && forall j :: i < j < |log| ==> !AcceptsButton(log[j], fs[j], b)
  }

  lemma ButtonLostOneMore(ms: seq<Monitor>, log: seq<Message>, fs: seq<Faults>, b: byte, i: nat)
    requires |fs| == |log| > 0 && i < |log| - 1
    ensures var n := |log| - 1;
      ButtonLostAt(ms, log, fs, b, i) <==>
        ButtonLostAt(ms, log[..n], fs[..n], b, i) && !AcceptsButton(log[n], fs[n], b)
  {
    var n := |log| - 1;
    assert log[..n][..i] == log[..i] && fs[..n][..i] == fs[..i];
    assert forall j :: 0 <= j < n ==> log[..n][j] == log[j] && fs[..n][j] == fs[j];
  }

  /** After any messages and any refusals, a button is pressed and forgotten exactly when
      some refused sweep lost it. */
  lemma {:induction false} StuckButtonIff(ms: seq<Monitor>, log: seq<Message>, fs: seq<Faults>, b: byte)
    requires |fs| == |log|
    ensures var d := Replay(FRESH_DESK, ms, log, fs);
      && d.btns <= d.downBtns
      && (b in d.downBtns - d.btns <==> exists i :: ButtonLostAt(ms, log, fs, b, i))
  {
    if |log| > 0 {
      var n := |log| - 1;
      StuckButtonIff(ms, log[..n], fs[..n], b);
      forall i | 0 <= i < n
        ensures ButtonLostAt(ms, log, fs, b, i) <==>
          ButtonLostAt(ms, log[..n], fs[..n], b, i) && !AcceptsButton(log[n], fs[n], b)
      {
        ButtonLostOneMore(ms, log, fs, b, i);
      }
      assert ButtonLostAt(ms, log, fs, b, n) <==>
        log[n] == Grab(false) && b in fs[n].btns && b in Replay(FRESH_DESK, ms, log[..n], fs[..n]).btns;
    }
  }

  predicate AcceptsKey(m: Message, f: Faults, k: uint16) {
    m.KeyEvent? && m.code == k && k !in f.keys
  }

  ghost predicate KeyLostAt(ms: seq<Monitor>, log: seq<Message>, fs: seq<Faults>, k: uint16, i: nat)
    requires |fs| == |log|
  {
    && i < |log| && log[i] == Grab(false) && k in fs[i].keys
    && k in Replay(FRESH_DESK, ms, log[..i], fs[..i]).keys
    && forall j :: i < j < |log| ==> !AcceptsKey(log[j], fs[j], k)
  }

  lemma KeyLostOneMore(ms: seq<Monitor>, log: seq<Message>, fs: seq<Faults>, k: uint16, i: nat)
    requires |fs| == |log| > 0 && i < |log| - 1
    ensures var n := |log| - 1;
      KeyLostAt(ms, log, fs, k, i) <==>
        KeyLostAt(ms, log[..n], fs[..n], k, i) && !AcceptsKey(log[n], fs[n], k)
  {
    var n := |log| - 1;
    assert log[..n][..i] == log[..i] && fs[..n][..i] == fs[..i];
    assert forall j :: 0 <= j < n ==> log[..n][j] == log[j] && fs[..n][j] == fs[j];
  }

  /** And likewise for a key. */
  lemma {:induction false} StuckKeyIff(ms: seq<Monitor>, log: seq<Message>, fs: seq<Faults>, k: uint16)
    requires |fs| == |log|
    ensures var d := Replay(FRESH_DESK, ms, log, fs);
      && d.keys <= d.downKeys
      && (k in d.downKeys - d.keys <==> exists i :: KeyLostAt(ms, log, fs, k, i))
  {
    if |log| > 0 {
      var n := |log| - 1;
      StuckKeyIff(ms, log[..n], fs[..n], k);
      forall i | 0 <= i < n
        ensures KeyLostAt(ms, log, fs, k, i) <==>
          KeyLostAt(ms, log[..n], fs[..n], k, i) && !AcceptsKey(log[n], fs[n], k)
      {
        KeyLostOneMore(ms, log, fs, k, i);
      }
      assert KeyLostAt(ms, log, fs, k, n) <==>
        log[n] == Grab(false) && k in fs[n].keys && k in Replay(FRESH_DESK, ms, log[..n], fs[..n]).keys;
    }
  }

  /** The log is at p of the protocol, and the client that applied it at d. */
  ghost predicate Stands(ms: seq<Monitor>, log: seq<Message>, fs: seq<Faults>, p: Session, d: Desk) {
    |fs| == |log| && Scan(log) == p && Replay(FRESH_DESK, ms, log, fs) == d
  }

  lemma OneMessageMore(ms: seq<Monitor>, log: seq<Message>, fs: seq<Faults>, p: Session, d: Desk, m: Message, f: Faults)
    returns (longer: seq<Message>, faults: seq<Faults>)
    requires Stands(ms, log, fs, p, d)
    ensures Stands(ms, longer, faults, Advance(p, m), Dispatch(d, ms, m, f))
  {
    longer, faults := log + [m], fs + [f];
    ScanOne(log, m);
    assert longer[..|log|] == log && faults[..|fs|] == fs;
  }

  lemma Pressing(ms: seq<Monitor>, b: byte, k: uint16) returns (log: seq<Message>, fs: seq<Faults>, d: Desk)
    ensures Stands(ms, log, fs, Open({b}, {k}), d)
    ensures d.btns == d.downBtns == {b} && d.keys == d.downKeys == {k}
  {
    log, fs := OneMessageMore(ms, [], [], Closed, FRESH_DESK, Grab(true), NO_FAULTS);
    d := Dispatch(FRESH_DESK, ms, MouseAbs(0, 0, 0), NO_FAULTS);
    log, fs := OneMessageMore(ms, log, fs, Opening, FRESH_DESK, MouseAbs(0, 0, 0), NO_FAULTS);
    log, fs := OneMessageMore(ms, log, fs, Open({}, {}), d, MouseButton(b, true), NO_FAULTS);
    d := Dispatch(d, ms, MouseButton(b, true), NO_FAULTS);
    log, fs := OneMessageMore(ms, log, fs, Open({b}, {}), d, KeyEvent(k, true), NO_FAULTS);
    d := Dispatch(d, ms, KeyEvent(k, true), NO_FAULTS);
  }

  /** Inputs do get lost so: for any button and any key there is a complete session that leaves
      both pressed and forgotten, if the system refuses their UPs and the sweep. */
  lemma RefusedSweepStrands(ms: seq<Monitor>, b: byte, k: uint16) returns (log: seq<Message>, fs: seq<Faults>)
    ensures |fs| == |log| && Scan(log) == Closed
    ensures var d := Replay(FRESH_DESK, ms, log, fs); b in d.downBtns - d.btns && k in d.downKeys - d.keys
  {
    var f := Faults({b}, {k});
    var d: Desk;
    log, fs, d := Pressing(ms, b, k);
    log, fs := OneMessageMore(ms, log, fs, Open({b}, {k}), d, MouseButton(b, false), f);
    log, fs := OneMessageMore(ms, log, fs, Open({}, {k}), d, KeyEvent(k, false), f);
    log, fs := OneMessageMore(ms, log, fs, Open({}, {}), d, Grab(false), f);
  }

  // ---- The same over the wire ----

  predicate IsInput(m: Message) {
    m.Grab? || m.MouseAbs? || m.MouseButton? || m.MouseWheel? || m.KeyEvent?
  }

  lemma {:induction false} UnbrokenIsInput(log: seq<Message>, i: nat)
    requires !Scan(log).Broken? && i < |log|
    ensures IsInput(log[i])
    decreases |log|
  {
    if i < |log| - 1 { UnbrokenIsInput(log[..|log| - 1], i); }
  }

  lemma InputTravelsUnchanged(m: Message)
    requires IsInput(m)
    ensures CodecSpec.Fits(m) && CodecSpec.Normal(m) == m
  {
  }

  /** Whatever the router has put on a session arrives: reading the session's frames
      gives back exactly the messages sent, in order, and nothing is left over. */
  lemma SessionArrivesIntact(r: Run, i: nat, id: ConnId, tail: seq<byte>)
    requires r.Valid() && i < |r.states| && id in r.states[i].clients
    ensures var log := r.states[i].clients[id].sent;
      CodecSpec.TakeMany(CodecLaws.TakeFrame,
                         CodecSpec.Left(CodecLaws.PutMany(CodecSpec.Frame, log) + tail), |log|)
        == (log, CodecSpec.Left(tail))
  {
    var log := r.states[i].clients[id].sent;
    RunKeepsProtocol(r, i);
    forall k | 0 <= k < |log| ensures CodecSpec.Fits(log[k]) && CodecSpec.Normal(log[k]) == log[k] {
      UnbrokenIsInput(log, k);
      InputTravelsUnchanged(log[k]);
    }
    CodecLaws.StreamRoundTrip(log, tail);
    assert CodecLaws.MapMany(CodecSpec.Normal, log) == log;
  }
}
