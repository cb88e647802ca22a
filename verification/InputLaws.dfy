/** What becomes of the user's buttons, keys and wheel, told by the captured events alone:
    what the active client is sent, what the host sees, and what nobody else hears. */
module InputLaws {
  import opened Wire
  import opened RouterModel
  import opened SessionLaws

  // ---- Captured events ----

  predicate IsButton(e: Event, b: byte) { e.Button? && e.button == b }

  predicate IsKey(e: Event, k: uint16) { e.Key? && e.code == k }

  predicate LastPress(es: seq<Event>, b: byte, i: nat) {
    i < |es| && es[i] == Button(b, true) && forall j :: i < j < |es| ==> !IsButton(es[j], b)
  }

  /** The last event of button b was a press. */
  predicate ButtonDown(es: seq<Event>, b: byte) { exists i :: 0 <= i < |es| && LastPress(es, b, i) }

  predicate LastStroke(es: seq<Event>, k: uint16, i: nat) {
    i < |es| && es[i] == Key(k, true) && forall j :: i < j < |es| ==> !IsKey(es[j], k)
  }

  predicate KeyDown(es: seq<Event>, k: uint16) { exists i :: 0 <= i < |es| && LastStroke(es, k, i) }

  /** What a client should hear of e after the events es of its grab: presses and wheel turns,
      and the releases of what was pressed since. */
  function Echo(es: seq<Event>, e: Event): seq<Message> {
    match e
    case Button(b, down) => if down || ButtonDown(es, b) then [MouseButton(b, down)] else []
    case Wheel(dx, dy) => [MouseWheel(dx, dy)]
    case Key(k, down) => if down || KeyDown(es, k) then [KeyEvent(k, down)] else []
    case _ => []
  }

  function Heard(es: seq<Event>): seq<Message> {
    if es == [] then [] else Heard(es[..|es| - 1]) + Echo(es[..|es| - 1], es[|es| - 1])
  }

  lemma ButtonDownOneMore(es: seq<Event>, e: Event, b: byte)
    ensures ButtonDown(es + [e], b) <==> if IsButton(e, b) then e.down else ButtonDown(es, b)
  {
    var more := es + [e];
    if IsButton(e, b) && e.down {
      assert LastPress(more, b, |es|);
    }
    if !IsButton(e, b) && ButtonDown(es, b) {
      var i :| 0 <= i < |es| && LastPress(es, b, i);
      assert LastPress(more, b, i);
    }
    if ButtonDown(more, b) {
      var i :| 0 <= i < |more| && LastPress(more, b, i);
      if i < |es| {
        assert !IsButton(more[|es|], b);
        assert forall j :: i < j < |es| ==> more[j] == es[j];
        assert LastPress(es, b, i);
      }
    }
  }

  lemma KeyDownOneMore(es: seq<Event>, e: Event, k: uint16)
    ensures KeyDown(es + [e], k) <==> if IsKey(e, k) then e.down else KeyDown(es, k)
  {
    var more := es + [e];
    if IsKey(e, k) && e.down {
      assert LastStroke(more, k, |es|);
    }
    if !IsKey(e, k) && KeyDown(es, k) {
      var i :| 0 <= i < |es| && LastStroke(es, k, i);
      assert LastStroke(more, k, i);
    }
    if KeyDown(more, k) {
      var i :| 0 <= i < |more| && LastStroke(more, k, i);
      if i < |es| {
        assert !IsKey(more[|es|], k);
        assert forall j :: i < j < |es| ==> more[j] == es[j];
        assert LastStroke(es, k, i);
      }
    }
  }

  // ---- What the active client is sent ----

  predicate CarriesInput(m: Message) { m.MouseButton? || m.MouseWheel? || m.KeyEvent? }

  /** The button, wheel and key messages of a log, in order. */
  function InputsOf(log: seq<Message>): seq<Message> {
    if log == [] then []
    else
      var n := |log| - 1;
      InputsOf(log[..n]) + if CarriesInput(log[n]) then [log[n]] else []
  }

  lemma {:induction false} InputsAppend(a: seq<Message>, b: seq<Message>)
    ensures InputsOf(a + b) == InputsOf(a) + InputsOf(b)
  {
    if b == [] {
      assert a + b == a;
    } else {
      var n := |b| - 1;
      InputsAppend(a, b[..n]);
      assert (a + b)[..|a| + n] == a + b[..n];
    }
  }

  lemma {:induction false} PositionsCarryNoInput(log: seq<Message>)
    requires forall i :: 0 <= i < |log| ==> !CarriesInput(log[i])
    ensures InputsOf(log) == []
  {
    if log != [] { PositionsCarryNoInput(log[..|log| - 1]); }
  }

  lemma OneInput(m: Message)
    requires CarriesInput(m)
    ensures InputsOf([m]) == [m]
  {
    assert [m][..0] == [];
  }

  /** log begins with before, and these are the inputs that follow. */
  predicate Adds(before: seq<Message>, log: seq<Message>, inputs: seq<Message>) {
    before <= log && InputsOf(log[|before|..]) == inputs
  }

  lemma AddsMore(a: seq<Message>, b: seq<Message>, ms: seq<Message>, x: seq<Message>)
    requires Adds(a, b, x)
    ensures Adds(a, b + ms, x + InputsOf(ms))
  {
    assert (b + ms)[|a|..] == b[|a|..] + ms;
    InputsAppend(b[|a|..], ms);
  }

  /** What is forwarded in s is what the user pressed in es and has not released. */
  ghost predicate ForwardedIs(s: State, es: seq<Event>) {
    && (forall b :: b in s.btnsOn <==> ButtonDown(es, b))
    && (forall k :: k in s.keysOn <==> KeyDown(es, k))
  }

  /** How e changes what is forwarded. */
  ghost predicate ForwardsBy(s: State, t: State, e: Event) {
    && t.btnsOn == (if e.Button? then Toggle(s.btnsOn, e.button, e.down) else s.btnsOn)
    && t.keysOn == (if e.Key? then Toggle(s.keysOn, e.code, e.down) else s.keysOn)
  }

  lemma ForwardedOneMore(s: State, t: State, e: Event, es: seq<Event>)
    requires ForwardedIs(s, es) && ForwardsBy(s, t, e)
    ensures ForwardedIs(t, es + [e])
  {
    forall b ensures b in t.btnsOn <==> ButtonDown(es + [e], b) {
      ButtonDownOneMore(es, e, b);
    }
    forall k ensures k in t.keysOn <==> KeyDown(es + [e], k) {
      KeyDownOneMore(es, e, k);
    }
  }

  lemma HeldMove(s: State, x: int, y: int, ch: Choice, id: ConnId) returns (ms: seq<Message>)
    requires s.ActiveKnown() && LegalMove(s, x, y, ch) && s.active == Some(id)
    requires MoveStep(s, x, y, ch).active == Some(id)
    ensures var t := MoveStep(s, x, y, ch);
      && t.clients.Keys == s.clients.Keys && t.clients[id].sent == s.clients[id].sent + ms && InputsOf(ms) == []
      && t.btnsOn == s.btnsOn && t.keysOn == s.keysOn
  {
    if Drives(s, x, y) {
      var a := Aimed(s, x, y, ch);
      assert ch.target == Some(id);
      ms := AbsMessages(a.clients[id], a.v);
      PositionsCarryNoInput(ms);
      assert MoveStep(s, x, y, ch) == Deliver(a, id, ms);
    } else {
      ms := [];
    }
  }

  /** What e adds to a log is ms. */
  ghost predicate SendsBy(s: State, t: State, id: ConnId, ms: seq<Message>) {
    id in s.clients && id in t.clients && t.clients[id].sent == s.clients[id].sent + ms
  }

  lemma HeldButton(s: State, b: byte, down: bool, id: ConnId, es: seq<Event>)
    requires s.active == Some(id) && id in s.clients && ForwardedIs(s, es)
    ensures var t, e := ButtonStep(s, b, down), Button(b, down);
      SendsBy(s, t, id, Echo(es, e)) && ForwardsBy(s, t, e)
  {
  }

  lemma HeldKey(s: State, k: uint16, down: bool, id: ConnId, es: seq<Event>)
    requires s.active == Some(id) && id in s.clients && ForwardedIs(s, es)
    ensures var t, e := KeyStep(s, k, down), Key(k, down);
      SendsBy(s, t, id, Echo(es, e)) && ForwardsBy(s, t, e)
  {
  }

  lemma HeldOther(s: State, e: Event, ch: Choice, id: ConnId, es: seq<Event>)
    requires Protocol(s) && Legal(s, e, ch) && !e.Move? && !e.Button? && !e.Key? && s.active == Some(id)
    requires Step(s, e, ch).active == Some(id)
    ensures SendsBy(s, Step(s, e, ch), id, Echo(es, e)) && ForwardsBy(s, Step(s, e, ch), e)
  {
    assert s.clients[id].sent + [] == s.clients[id].sent;
  }

  lemma EchoIsInput(es: seq<Event>, e: Event)
    ensures InputsOf(Echo(es, e)) == Echo(es, e)
  {
    if Echo(es, e) != [] { OneInput(Echo(es, e)[0]); }
  }

  /** One event while the same client keeps the grab: what it is sent, and what is
      remembered as forwarded. */
  lemma HeldStep(s: State, e: Event, ch: Choice, id: ConnId, es: seq<Event>) returns (ms: seq<Message>)
    requires Protocol(s) && Legal(s, e, ch) && s.active == Some(id) && ForwardedIs(s, es)
    requires Step(s, e, ch).active == Some(id)
    ensures SendsBy(s, Step(s, e, ch), id, ms) && InputsOf(ms) == Echo(es, e)
    ensures ForwardsBy(s, Step(s, e, ch), e)
  {
    ms := Echo(es, e);
    EchoIsInput(es, e);
    match e
    case Move(x, y) => ms := HeldMove(s, x, y, ch, id);
    case Button(b, down) => HeldButton(s, b, down, id, es);
    case Key(k, down) => HeldKey(s, k, down, id, es);
    case _ => HeldOther(s, e, ch, id, es);
  }

  // ---- Whole grabs ----

  /** Step g gives client id the grab, and it keeps it through state n. */
  ghost predicate HoldsSince(r: Run, g: nat, n: nat, id: ConnId) {
    && r.Valid() && g < n < |r.states|
    && r.states[g].active != Some(id) && forall j :: g < j <= n ==> r.states[j].active == Some(id)
  }

  lemma ResolveOpens(a: State, ch: Choice, id: ConnId)
    requires a.ActiveKnown() && (ch.target.Some? ==> ch.target.value in a.clients)
    requires a.active != Some(id) && Resolve(a, ch).active == Some(id)
    ensures id in a.clients && SendsBy(a, Resolve(a, ch), id, [Grab(true)] + AbsMessages(a.clients[id], a.v))
    ensures Resolve(a, ch).btnsOn == {} && Resolve(a, ch).keysOn == {}
  {
    assert ch.target == Some(id);
  }

  lemma OnlyMotionOpens(s: State, e: Event, ch: Choice, id: ConnId)
    requires Legal(s, e, ch) && s.active != Some(id) && Step(s, e, ch).active == Some(id)
    ensures e.Move? && (PushesOut(s, e.x, e.y) || Drives(s, e.x, e.y))
  {
  }

  lemma OpeningAdds(before: seq<Message>, log: seq<Message>, c: Client, v: (int, int))
    requires log == before + ([Grab(true)] + AbsMessages(c, v))
    ensures Adds(before, log, [])
  {
    assert log[|before|..] == [Grab(true)] + AbsMessages(c, v);
    PositionsCarryNoInput([Grab(true)] + AbsMessages(c, v));
  }

  lemma GrabOpens(s: State, e: Event, ch: Choice, id: ConnId)
    requires Legal(s, e, ch) && s.active != Some(id) && Step(s, e, ch).active == Some(id)
    ensures var t := Step(s, e, ch);
      && id in s.clients && id in t.clients
      && Adds(s.clients[id].sent, t.clients[id].sent, []) && t.btnsOn == {} && t.keysOn == {}
  {
    OnlyMotionOpens(s, e, ch, id);
    var a := Aimed(s, e.x, e.y, ch);
    ResolveOpens(a, ch, id);
    OpeningAdds(a.clients[id].sent, Resolve(a, ch).clients[id].sent, a.clients[id], a.v);
  }

  /** In s client id has been sent, after before, exactly what the user did in es, and what
      counts as forwarded is what is still down of that. */
  ghost predicate Echoes(before: seq<Message>, s: State, id: ConnId, es: seq<Event>) {
    id in s.clients && Adds(before, s.clients[id].sent, Heard(es)) && ForwardedIs(s, es)
  }

  /** So it is in state n for what the user did since step g. */
  ghost predicate ForwardedSince(r: Run, g: nat, n: nat, id: ConnId)
    requires g < n < |r.states| == |r.events| + 1
  {
    id in r.states[g].clients && Echoes(r.states[g].clients[id].sent, r.states[n], id, r.events[g + 1..n])
  }

  lemma ForwardedFromStart(r: Run, g: nat, id: ConnId)
    requires HoldsSince(r, g, g + 1, id)
    ensures ForwardedSince(r, g, g + 1, id)
  {
    RunStep(r, g);
    GrabOpens(r.states[g], r.events[g], r.choices[g], id);
    assert r.events[g + 1..g + 1] == [];
  }

  /** All through its grab a client is sent exactly what the user does: every press and wheel
      turn captured since it took the cursor, in order, and every release of something pressed
      since. */
  lemma {:induction false} ForwardsExactly(r: Run, g: nat, n: nat, id: ConnId)
    requires HoldsSince(r, g, n, id)
    ensures ForwardedSince(r, g, n, id)
    decreases n
  {
    if n == g + 1 {
      ForwardedFromStart(r, g, id);
    } else {
      ForwardsExactly(r, g, n - 1, id);
      ForwardedOneStep(r, g, n, id);
    }
  }

  lemma ForwardedOneStep(r: Run, g: nat, n: nat, id: ConnId)
    requires HoldsSince(r, g, n, id) && g + 1 < n && ForwardedSince(r, g, n - 1, id)
    ensures ForwardedSince(r, g, n, id)
  {
    var before, es := r.states[g].clients[id].sent, r.events[g + 1..n - 1];
    assert r.states[n - 1].active == Some(id) && r.states[n].active == Some(id);
    ForwardsOneMore(r, n - 1, before, es, id);
    SliceGrows(r.events, g + 1, n);
  }

  lemma SliceGrows(es: seq<Event>, a: nat, n: nat)
    requires a < n <= |es|
    ensures es[a..n] == es[a..n - 1] + [es[n - 1]]
  {
  }

  lemma ForwardsOneMore(r: Run, n: nat, before: seq<Message>, es: seq<Event>, id: ConnId)
    requires r.Valid() && n < |r.events| && r.states[n].active == r.states[n + 1].active == Some(id)
    requires Echoes(before, r.states[n], id, es)
    ensures Echoes(before, r.states[n + 1], id, es + [r.events[n]])
  {
    var s, t, e := r.states[n], r.states[n + 1], r.events[n];
    RunStep(r, n);
    RunKeepsProtocol(r, n);
    var ms := HeldStep(s, e, r.choices[n], id, es);
    AddsMore(before, s.clients[id].sent, ms, Heard(es));
    ForwardedOneMore(s, t, e, es);
    assert (es + [e])[..|es|] == es;
  }

  // ---- Letting go ----

  /** An UP for each button and key still down of what was pressed in es, each once, the
      buttons first. */
  ghost predicate LetsGo(ups: seq<Message>, es: seq<Event>, nb: nat) {
    && nb <= |ups|
    && (forall i :: 0 <= i < nb ==> ups[i].MouseButton? && !ups[i].down && ButtonDown(es, ups[i].button))
    && (forall i :: nb <= i < |ups| ==> ups[i].KeyEvent? && !ups[i].down && KeyDown(es, ups[i].code))
    && (forall b :: ButtonDown(es, b) ==> MouseButton(b, false) in ups)
    && (forall k :: KeyDown(es, k) ==> KeyEvent(k, false) in ups)
    && (forall i, j :: 0 <= i < j < |ups| ==> ups[i] != ups[j])
  }

  lemma ReleasesLetGo(s: State, ch: Choice, es: seq<Event>)
    requires ForwardedIs(s, es) && Enumerates(ch.btns, s.btnsOn) && Enumerates(ch.keys, s.keysOn)
    ensures LetsGo(Releases(ch), es, |ch.btns|)
  {
    var ups, nb := Releases(ch), |ch.btns|;
    assert forall i :: 0 <= i < nb ==> ups[i] == MouseButton(ch.btns[i], false);
    assert forall i :: nb <= i < |ups| ==> ups[i] == KeyEvent(ch.keys[i - nb], false);
    forall b | ButtonDown(es, b) ensures MouseButton(b, false) in ups {
      assert b in ch.btns;
      var i :| 0 <= i < nb && ch.btns[i] == b;
      assert ups[i] == MouseButton(b, false);
    }
    forall k | KeyDown(es, k) ensures KeyEvent(k, false) in ups {
      assert k in ch.keys;
      var i :| 0 <= i < |ch.keys| && ch.keys[i] == k;
      assert ups[nb + i] == KeyEvent(k, false);
    }
  }

  /** A motion that takes the grab away ends it, on the client's session, with just that and
      Grab off. */
  lemma GrabCloses(r: Run, g: nat, n: nat, id: ConnId) returns (ups: seq<Message>, nb: nat)
    requires HoldsSince(r, g, n, id) && n < |r.events| && r.events[n].Move? && r.states[n + 1].active != Some(id)
    ensures LetsGo(ups, r.events[g + 1..n], nb)
    ensures SendsBy(r.states[n], r.states[n + 1], id, ups + [Grab(false)])
  {
    var s, e, ch := r.states[n], r.events[n], r.choices[n];
    RunStep(r, n);
    ForwardsExactly(r, g, n, id);
    var a := Aimed(s, e.x, e.y, ch);
    ReleasesLetGo(s, ch, r.events[g + 1..n]);
    ups, nb := Releases(ch), |ch.btns|;
    assert Resolve(a, ch).clients[id].sent == s.clients[id].sent + (ups + [Grab(false)]);
  }

  // ---- Everybody else ----

  lemma ResolveIsPrivate(a: State, ch: Choice, id: ConnId)
    requires a.ActiveKnown() && (ch.target.Some? ==> ch.target.value in a.clients) && id in a.clients
    requires a.active != Some(id) && Resolve(a, ch).active != Some(id)
    ensures id in Resolve(a, ch).clients && Resolve(a, ch).clients[id].sent == a.clients[id].sent
  {
  }

  lemma MotionIsPrivate(s: State, x: int, y: int, ch: Choice, id: ConnId)
    requires s.ActiveKnown() && LegalMove(s, x, y, ch) && id in s.clients
    requires s.active != Some(id) && MoveStep(s, x, y, ch).active != Some(id)
    ensures id in MoveStep(s, x, y, ch).clients && MoveStep(s, x, y, ch).clients[id].sent == s.clients[id].sent
  {
    if PushesOut(s, x, y) || Drives(s, x, y) { ResolveIsPrivate(Aimed(s, x, y, ch), ch, id); }
  }

  lemma OthersHearNothing(s: State, e: Event, ch: Choice, id: ConnId)
    requires Legal(s, e, ch) && id in s.clients && id in Step(s, e, ch).clients
    requires s.active != Some(id) && Step(s, e, ch).active != Some(id)
    ensures Step(s, e, ch).clients[id].sent == s.clients[id].sent
  {
    if e.Move? { MotionIsPrivate(s, e.x, e.y, ch, id); } else { InputIsPrivate(s, e, ch, id); }
  }

  lemma InputIsPrivate(s: State, e: Event, ch: Choice, id: ConnId)
    requires Legal(s, e, ch) && !e.Move? && id in s.clients && id in Step(s, e, ch).clients && s.active != Some(id)
    ensures Step(s, e, ch).clients[id].sent == s.clients[id].sent
  {
  }

  /** A client that stays registered without the grab is sent nothing at all. */
  lemma {:induction false} SilentWithoutGrab(r: Run, i: nat, j: nat, id: ConnId)
    requires r.Valid() && i <= j < |r.states|
    requires forall k :: i <= k <= j ==> id in r.states[k].clients && r.states[k].active != Some(id)
    ensures r.states[j].clients[id].sent == r.states[i].clients[id].sent
    decreases j
  {
    if i < j {
      SilentWithoutGrab(r, i, j - 1, id);
      RunStep(r, j - 1);
      OthersHearNothing(r.states[j - 1], r.events[j - 1], r.choices[j - 1], id);
    }
  }

  // ---- What the user holds and what the host sees ----

  ghost predicate HeldIs(s: State, es: seq<Event>) {
    && (forall b :: b in s.heldBtns <==> ButtonDown(es, b))
    && (forall k :: k in s.heldKeys <==> KeyDown(es, k))
  }

  /** A step changes what is held, and what the host sees while nobody has the grab, as the
      event says. */
  ghost predicate HoldsBy(s: State, t: State, e: Event) {
    && t.heldBtns == (if e.Button? then Toggle(s.heldBtns, e.button, e.down) else s.heldBtns)
    && t.heldKeys == (if e.Key? then Toggle(s.heldKeys, e.code, e.down) else s.heldKeys)
    && (t.active.None? ==>
          && t.host.btns == (if s.active.None? && e.Button? then Toggle(s.host.btns, e.button, e.down) else s.host.btns)
          && t.host.keys == (if s.active.None? && e.Key? then Toggle(s.host.keys, e.code, e.down) else s.host.keys))
  }

  lemma ResolveHolds(a: State, ch: Choice)
    requires a.ActiveKnown() && (ch.target.Some? ==> ch.target.value in a.clients)
    ensures var t := Resolve(a, ch);
      && t.heldBtns == a.heldBtns && t.heldKeys == a.heldKeys
      && (t.active.None? ==> t.host.btns == a.host.btns && t.host.keys == a.host.keys)
  {
  }

  lemma MotionHolds(s: State, x: int, y: int, ch: Choice)
    requires s.ActiveKnown() && LegalMove(s, x, y, ch)
    ensures HoldsBy(s, MoveStep(s, x, y, ch), Move(x, y))
  {
    if PushesOut(s, x, y) || Drives(s, x, y) { ResolveHolds(Aimed(s, x, y, ch), ch); }
  }

  lemma HoldStep(s: State, e: Event, ch: Choice)
    requires Protocol(s) && Legal(s, e, ch)
    ensures HoldsBy(s, Step(s, e, ch), e)
  {
    if e.Move? { MotionHolds(s, e.x, e.y, ch); } else { OtherHolds(s, e, ch); }
  }

  lemma OtherHolds(s: State, e: Event, ch: Choice)
    requires Protocol(s) && Legal(s, e, ch) && !e.Move?
    ensures HoldsBy(s, Step(s, e, ch), e)
  {
  }

  /** At any time the user holds what was pressed last of all its events. */
  lemma {:induction false} HeldIsWhatIsDown(r: Run, n: nat)
    requires r.Valid() && n < |r.states|
    ensures HeldIs(r.states[n], r.events[..n])
  {
    if n > 0 {
      var es, e := r.events[..n - 1], r.events[n - 1];
      HeldIsWhatIsDown(r, n - 1);
      RunStep(r, n - 1);
      RunKeepsProtocol(r, n - 1);
      HoldStep(r.states[n - 1], e, r.choices[n - 1]);
      assert r.events[..n] == es + [e];
      forall b ensures b in r.states[n].heldBtns <==> ButtonDown(es + [e], b) {
        ButtonDownOneMore(es, e, b);
      }
      forall k ensures k in r.states[n].heldKeys <==> KeyDown(es + [e], k) {
        KeyDownOneMore(es, e, k);
      }
    }
  }

  /** Nobody has had the grab from state i through state n. */
  ghost predicate FreeSince(r: Run, i: nat, n: nat)
    requires n < |r.states|
  {
    forall j :: i <= j <= n ==> r.states[j].active.None?
  }

  /** The host's own system saw the press, nothing of the button since, and no grab since. */
  ghost predicate HostButton(r: Run, n: nat, b: byte)
    requires n < |r.states| == |r.events| + 1
  {
    exists i :: 0 <= i < n && LastPress(r.events[..n], b, i) && FreeSince(r, i, n)
  }

  ghost predicate HostKey(r: Run, n: nat, k: uint16)
    requires n < |r.states| == |r.events| + 1
  {
    exists i :: 0 <= i < n && LastStroke(r.events[..n], k, i) && FreeSince(r, i, n)
  }

  lemma HostButtonOneMore(r: Run, n: nat, b: byte)
    requires 0 < n < |r.states| == |r.events| + 1
    ensures HostButton(r, n, b) <==>
      && r.states[n].active.None? && r.states[n - 1].active.None?
      && if IsButton(r.events[n - 1], b) then r.events[n - 1].down else HostButton(r, n - 1, b)
  {
    var es, e := r.events[..n - 1], r.events[n - 1];
    assert r.events[..n] == es + [e];
    if HostButton(r, n, b) {
      var i :| 0 <= i < n && LastPress(es + [e], b, i) && FreeSince(r, i, n);
      if i < n - 1 {
        assert !IsButton((es + [e])[n - 1], b);
        assert forall j :: i < j < n - 1 ==> (es + [e])[j] == es[j];
        assert LastPress(es, b, i) && FreeSince(r, i, n - 1);
      }
    }
    if r.states[n].active.None? && r.states[n - 1].active.None? {
      if IsButton(e, b) && e.down {
        assert LastPress(es + [e], b, n - 1) && FreeSince(r, n - 1, n);
      } else if !IsButton(e, b) && HostButton(r, n - 1, b) {
        var i :| 0 <= i < n - 1 && LastPress(es, b, i) && FreeSince(r, i, n - 1);
        assert LastPress(es + [e], b, i) && FreeSince(r, i, n);
      }
    }
  }

  lemma HostKeyOneMore(r: Run, n: nat, k: uint16)
    requires 0 < n < |r.states| == |r.events| + 1
    ensures HostKey(r, n, k) <==>
      && r.states[n].active.None? && r.states[n - 1].active.None?
      && if IsKey(r.events[n - 1], k) then r.events[n - 1].down else HostKey(r, n - 1, k)
  {
    var es, e := r.events[..n - 1], r.events[n - 1];
    assert r.events[..n] == es + [e];
    if HostKey(r, n, k) {
      var i :| 0 <= i < n && LastStroke(es + [e], k, i) && FreeSince(r, i, n);
      if i < n - 1 {
        assert !IsKey((es + [e])[n - 1], k);
        assert forall j :: i < j < n - 1 ==> (es + [e])[j] == es[j];
        assert LastStroke(es, k, i) && FreeSince(r, i, n - 1);
      }
    }
    if r.states[n].active.None? && r.states[n - 1].active.None? {
      if IsKey(e, k) && e.down {
        assert LastStroke(es + [e], k, n - 1) && FreeSince(r, n - 1, n);
      } else if !IsKey(e, k) && HostKey(r, n - 1, k) {
        var i :| 0 <= i < n - 1 && LastStroke(es, k, i) && FreeSince(r, i, n - 1);
        assert LastStroke(es + [e], k, i) && FreeSince(r, i, n);
      }
    }
  }

  ghost predicate HostIs(r: Run, n: nat)
    requires n < |r.states| == |r.events| + 1
  {
    && (forall b :: b in r.states[n].host.btns <==> HostButton(r, n, b))
    && (forall k :: k in r.states[n].host.keys <==> HostKey(r, n, k))
  }

  lemma HostIsOneMore(r: Run, n: nat)
    requires r.Valid() && 0 < n < |r.states| && HostIs(r, n - 1)
    ensures HostIs(r, n)
  {
    RunStep(r, n - 1);
    RunKeepsProtocol(r, n - 1);
    RunKeepsProtocol(r, n);
    HoldStep(r.states[n - 1], r.events[n - 1], r.choices[n - 1]);
    forall b ensures b in r.states[n].host.btns <==> HostButton(r, n, b) {
      HostButtonOneMore(r, n, b);
    }
    forall k ensures k in r.states[n].host.keys <==> HostKey(r, n, k) {
      HostKeyOneMore(r, n, k);
    }
  }

  /** The host's own system holds pressed exactly what was pressed last while nobody had the
      grab, nobody having taken it since: input reaches the host whenever it should, and a grab
      lifts it all. */
  lemma {:induction false} HostSeesExactly(r: Run, n: nat)
    requires r.Valid() && n < |r.states|
    ensures HostIs(r, n)
  {
    if n > 0 {
      HostSeesExactly(r, n - 1);
      HostIsOneMore(r, n);
    }
  }
}
