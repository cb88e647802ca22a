/** Who is registered, with which monitors and under which placement: told, over whole runs,
    by the events alone. */
module RosterLaws {
  import opened Wire
  import opened Geometry
  import opened RouterModel
  import opened RunLaws

  // ---- Registration ----

  predicate Names(e: Event, id: ConnId) { (e.Register? || e.Unregister?) && e.id == id }

  /** The last registration or departure of id is a registration. */
  predicate LastIn(es: seq<Event>, id: ConnId, i: nat) {
    i < |es| && es[i].Register? && es[i].id == id && forall j :: i < j < |es| ==> !Names(es[j], id)
  }

  lemma ClientsAfter(s: State, e: Event, ch: Choice)
    requires Legal(s, e, ch)
    ensures Step(s, e, ch).clients.Keys
         == if e.Register? then s.clients.Keys + {e.id} else if e.Unregister? then s.clients.Keys - {e.id} else s.clients.Keys
  {
    if e.Move? { MoveKeepsScreens(s, e.x, e.y, ch); }
    if e.Button? || e.Key? || e.Wheel? { InputKeepsScreens(s, e, ch); }
  }

  lemma LastInOneMore(es: seq<Event>, e: Event, id: ConnId)
    ensures (exists i: nat :: LastIn(es + [e], id, i))
       <==> if Names(e, id) then e.Register? else exists i: nat :: LastIn(es, id, i)
  {
    var more := es + [e];
    if Names(e, id) && e.Register? { assert LastIn(more, id, |es|); }
    if !Names(e, id) && exists i: nat :: LastIn(es, id, i) {
      var i: nat :| LastIn(es, id, i);
      assert LastIn(more, id, i);
    }
    if i: nat :| LastIn(more, id, i) {
      if i < |es| {
        assert !Names(more[|es|], id);
        assert forall j :: i < j < |es| ==> more[j] == es[j];
        assert LastIn(es, id, i);
      }
    }
  }

  /** A client is registered exactly when it registered and has not left since. */
  lemma {:induction false} RegisteredIff(r: Run, n: nat, id: ConnId)
    requires r.Valid() && n < |r.states|
    ensures id in r.states[n].clients <==> exists i: nat :: LastIn(r.events[..n], id, i)
  {
    if n > 0 {
      RegisteredIff(r, n - 1, id);
      RunStep(r, n - 1);
      ClientsAfter(r.states[n - 1], r.events[n - 1], r.choices[n - 1]);
      LastInOneMore(r.events[..n - 1], r.events[n - 1], id);
      assert r.events[..n] == r.events[..n - 1] + [r.events[n - 1]];
      assert id in r.states[n].clients <==> id in r.states[n].clients.Keys;
    }
  }

  // ---- Monitors ----

  predicate Announces(e: Event, id: ConnId) { (e.Register? || e.ClientMonitors?) && e.id == id }

  /** Event i is the last in which id announces its monitors. */
  predicate LastAnnounced(es: seq<Event>, id: ConnId, i: nat) {
    i < |es| && Announces(es[i], id) && forall j :: i < j < |es| ==> !Announces(es[j], id)
  }

  lemma SameScreensClient(s: State, t: State, id: ConnId)
    requires SameScreens(s, t) && id in t.clients
    ensures id in s.clients && t.clients[id].monitors == s.clients[id].monitors && t.clients[id].name == s.clients[id].name
  {
  }

  /** What one event does to the monitors and the name of a client. */
  lemma ClientAfter(s: State, e: Event, ch: Choice, id: ConnId)
    requires Legal(s, e, ch) && id in Step(s, e, ch).clients
    ensures var c := Step(s, e, ch).clients[id];
      && (Announces(e, id) ==> c.monitors == e.monitors)
      && (!Announces(e, id) ==> id in s.clients && c.monitors == s.clients[id].monitors)
      && (e.Register? && e.id == id ==> c.name == e.name)
      && (!(e.Register? && e.id == id) ==> id in s.clients && c.name == s.clients[id].name)
  {
    if e.Move? {
      MoveKeepsScreens(s, e.x, e.y, ch);
      SameScreensClient(s, Step(s, e, ch), id);
    } else if e.Button? || e.Key? || e.Wheel? {
      InputKeepsScreens(s, e, ch);
      SameScreensClient(s, Step(s, e, ch), id);
    }
  }

  lemma LastAnnouncedOneMore(es: seq<Event>, e: Event, id: ConnId, i: nat)
    requires LastAnnounced(es, id, i) && !Announces(e, id)
    ensures LastAnnounced(es + [e], id, i)
  {
  }

  /** A registered client's monitors are those it announced last, on connecting or later. */
  lemma {:induction false} MonitorsAreLatest(r: Run, n: nat, id: ConnId) returns (i: nat)
    requires r.Valid() && n < |r.states| && id in r.states[n].clients
    ensures LastAnnounced(r.events[..n], id, i) && r.states[n].clients[id].monitors == r.events[i].monitors
  {
    assert n > 0;
    var es, e := r.events[..n - 1], r.events[n - 1];
    RunStep(r, n - 1);
    ClientAfter(r.states[n - 1], e, r.choices[n - 1], id);
    assert r.events[..n] == es + [e];
    if Announces(e, id) {
      i := n - 1;
    } else {
      i := MonitorsAreLatest(r, n - 1, id);
      LastAnnouncedOneMore(es, e, id, i);
    }
  }

  predicate LastRegistered(es: seq<Event>, id: ConnId, i: nat) {
    i < |es| && es[i].Register? && es[i].id == id && forall j :: i < j < |es| ==> !(es[j].Register? && es[j].id == id)
  }

  /** And its name is the one it registered under. */
  lemma {:induction false} NameIsRegistered(r: Run, n: nat, id: ConnId) returns (i: nat)
    requires r.Valid() && n < |r.states| && id in r.states[n].clients
    ensures LastRegistered(r.events[..n], id, i) && r.states[n].clients[id].name == r.events[i].name
  {
    assert n > 0;
    var es, e := r.events[..n - 1], r.events[n - 1];
    RunStep(r, n - 1);
    ClientAfter(r.states[n - 1], e, r.choices[n - 1], id);
    assert r.events[..n] == es + [e];
    if e.Register? && e.id == id {
      i := n - 1;
    } else {
      i := NameIsRegistered(r, n - 1, id);
    }
  }

  predicate LastServer(es: seq<Event>, i: nat) {
    i < |es| && es[i].ServerMonitors? && forall j :: i < j < |es| ==> !es[j].ServerMonitors?
  }

  predicate NoServer(es: seq<Event>) { forall j :: 0 <= j < |es| ==> !es[j].ServerMonitors? }

  lemma ServerAfter(s: State, e: Event, ch: Choice)
    requires Legal(s, e, ch)
    ensures Step(s, e, ch).serverMons == if e.ServerMonitors? then e.monitors else s.serverMons
  {
    if e.Move? { MoveKeepsScreens(s, e.x, e.y, ch); }
    if e.Button? || e.Key? || e.Wheel? { InputKeepsScreens(s, e, ch); }
  }

  /** ms is what the last hotplug in es says, or first if there is none. */
  ghost predicate ServerIs(es: seq<Event>, first: seq<Monitor>, ms: seq<Monitor>) {
    (NoServer(es) ==> ms == first) && forall i: nat :: LastServer(es, i) ==> ms == es[i].monitors
  }

  lemma ServerIsOneMore(es: seq<Event>, e: Event, first: seq<Monitor>, ms: seq<Monitor>)
    requires ServerIs(es, first, ms)
    ensures ServerIs(es + [e], first, if e.ServerMonitors? then e.monitors else ms)
  {
    var more, n := es + [e], |es|;
    assert more[n] == e;
    if NoServer(more) {
      assert forall j :: 0 <= j < n ==> more[j] == es[j];
      assert NoServer(es) && !e.ServerMonitors?;
    }
    forall i: nat | LastServer(more, i) ensures more[i].monitors == if e.ServerMonitors? then e.monitors else ms {
      if i < n {
        assert !more[n].ServerMonitors?;
        assert forall j :: i < j < n ==> more[j] == es[j];
        assert LastServer(es, i);
      }
    }
  }

  lemma PrefixGrows(es: seq<Event>, n: nat)
    requires 0 < n <= |es|
    ensures es[..n] == es[..n - 1] + [es[n - 1]]
  {
  }

  /** The server's monitors are those of its last hotplug, or the initial ones; box and trap
      point always follow them. */
  lemma {:induction false} ServerMonitorsAreLatest(r: Run, n: nat)
    requires r.Valid() && n < |r.states|
    ensures var s := r.states[n];
      && ServerIs(r.events[..n], r.states[0].serverMons, s.serverMons)
      && s.box == Bounds(Screens(s.serverMons, 0, 0)) && s.trap == TrapOf(s.serverMons)
  {
    RunKeepsOffsets(r, n);
    if n > 0 {
      var es, e := r.events[..n - 1], r.events[n - 1];
      ServerMonitorsAreLatest(r, n - 1);
      RunStep(r, n - 1);
      ServerAfter(r.states[n - 1], e, r.choices[n - 1]);
      ServerIsOneMore(es, e, r.states[0].serverMons, r.states[n - 1].serverMons);
      PrefixGrows(r.events, n);
    }
  }

  // ---- Placements ----

  predicate Drags(e: Event, name: Name) { e.Place? && e.name == name }

  predicate LastDrag(es: seq<Event>, name: Name, i: nat) {
    i < |es| && Drags(es[i], name) && forall j :: i < j < |es| ==> !Drags(es[j], name)
  }

  /** A name that was ever dragged is placed where it was dragged last. */
  lemma PlacementIsLastDrag(r: Run, n: nat, name: Name, i: nat)
    requires r.Valid() && n < |r.states| && LastDrag(r.events[..n], name, i)
    ensures name in r.states[n].placements
    ensures r.states[n].placements[name] == Placement(r.events[i].x, r.events[i].y)
  {
    RunStep(r, i);
    forall k | i + 1 <= k < n && r.events[k].Place? ensures r.events[k].name != name {
      assert !Drags(r.events[..n][k], name);
    }
    PlacementsPersist(r, i + 1, n, name);
  }

  /** A name without a placement gets one on registering: at the server's top, as far right as
      the server's right edge and every stored placement, and no further. */
  lemma FirstPlacement(s: State, id: ConnId, name: Name, ms: seq<Monitor>, ch: Choice)
    requires Legal(s, Register(id, name, ms), ch) && name !in s.placements
    ensures var ps := Step(s, Register(id, name, ms), ch).placements;
      && ps.Keys == s.placements.Keys + {name} && (forall n :: n in s.placements ==> ps[n] == s.placements[n])
      && ps[name].y == s.box.t && ps[name].x >= s.box.r && (forall n :: n in s.placements ==> ps[name].x >= s.placements[n].x)
      && (ps[name].x == s.box.r || exists n :: n in s.placements && s.placements[n].x == ps[name].x)
  {
    assert IsRightmost(s.box.r, s.placements, Rightmost(s.box.r, s.placements));
  }

  // ---- Which monitor is which ----

  /** Monitor i is the one whose centre pointers are trapped at: the last primary one, or the
      first if none is primary. */
  predicate IsTrapMonitor(ms: seq<Monitor>, i: nat) {
    i < |ms| && (if ms[i].primary then forall j :: i < j < |ms| ==> !ms[j].primary
                 else i == 0 && forall j :: 0 <= j < |ms| ==> !ms[j].primary)
  }

  lemma {:induction false} TrapIsItsCentre(ms: seq<Monitor>, i: nat)
    requires IsTrapMonitor(ms, i)
    ensures TrapOf(ms) == (ms[i].x as int + ms[i].w as int / 2, ms[i].y as int + ms[i].h as int / 2)
  {
    var n := |ms| - 1;
    if i < n {
      assert !ms[n].primary;
      assert ms[..n][i] == ms[i];
      TrapIsItsCentre(ms[..n], i);
    }
  }

  /** Monitor i is the one cursors are clamped to: the first primary one, or the first if none
      is primary. */
  predicate IsHomeMonitor(ms: seq<Monitor>, i: nat) {
    i < |ms| && (if ms[i].primary then forall j :: 0 <= j < i ==> !ms[j].primary
                 else i == 0 && forall j :: 0 <= j < |ms| ==> !ms[j].primary)
  }

  lemma {:induction false} HomeIsChosen(ms: seq<Monitor>, k: nat, i: nat)
    requires k <= |ms| && IsHomeMonitor(ms, i) && (forall j :: 0 <= j < k ==> !ms[j].primary)
    ensures HomeFrom(ms, k) == i
    decreases |ms| - k
  {
    if k < |ms| && !ms[k].primary { HomeIsChosen(ms, k + 1, i); }
  }
}
