/** Every connection runs one handler; this is how handlers interleave. */
module RelayRuns {
  import opened Wire
  import opened Relay

  /** Where a connection's handler is: about to look for a peer; found none; queued;
      its timer fired but its remover has not run; or finished one of three ways. */
  datatype Stage = Arrived | Missed | Waiting | Expired | Paired | Claimed | TimedOut

  datatype Conn = Conn(key: Key, stage: Stage)

  /** queues and closed are the hub; the rest is history: pairs made (newcomer, waiter),
      per key the connections ever enqueued and ever claimed, in order, and those a
      remover found still queued. */
  datatype State = State(
    queues: Queues, closed: set<ConnId>, conns: map<ConnId, Conn>,
    pairs: seq<(ConnId, ConnId)>, enqueued: Queues, claimed: Queues, removed: set<ConnId>)

  datatype Event =
    | Arrive(c: ConnId, key: Key)
    | LookForPeer(c: ConnId)
    | JoinQueue(c: ConnId)
    | SeeClaim(c: ConnId)
    | TimerFires(c: ConnId)
    | RunRemover(c: ConnId)

  const EMPTY := State(map[], {}, map[], [], map[], map[], {})

  predicate InStage(s: State, c: ConnId, g: Stage) { c in s.conns && s.conns[c].stage == g }

  /** A handler waiting on its claim channel and its timer may take either when both
      are ready. */
  predicate Legal(s: State, e: Event) {
    match e
    case Arrive(c, _) => c !in s.conns
    case LookForPeer(c) => InStage(s, c, Arrived)
    case JoinQueue(c) => InStage(s, c, Missed)
    case SeeClaim(c) => InStage(s, c, Waiting) && c in s.closed
    case TimerFires(c) => InStage(s, c, Waiting)
    case RunRemover(c) => InStage(s, c, Expired)
  }

  function MoveTo(s: State, c: ConnId, g: Stage): State
    requires c in s.conns
  {
    s.(conns := s.conns[c := s.conns[c].(stage := g)])
  }

  function PairUp(s: State, c: ConnId): State
    requires c in s.conns && QueueAt(s.queues, Opposite(s.conns[c].key)) != []
  {
    var opp := Opposite(s.conns[c].key);
    var q := QueueAt(s.queues, opp);
    MoveTo(s, c, Paired).(
      queues := WithQueue(s.queues, opp, q[1..]), closed := s.closed + {q[0]},
      pairs := s.pairs + [(c, q[0])],
      claimed := s.claimed[opp := QueueAt(s.claimed, opp) + [q[0]]])
  }

  function Step(s: State, e: Event): State
    requires Legal(s, e)
  {
    match e
    case Arrive(c, key) => s.(conns := s.conns[c := Conn(key, Arrived)])
    case LookForPeer(c) =>
      if QueueAt(s.queues, Opposite(s.conns[c].key)) == [] then MoveTo(s, c, Missed) else PairUp(s, c)
    case JoinQueue(c) =>
      var k := s.conns[c].key;
      MoveTo(s, c, Waiting).(
        queues := WithQueue(s.queues, k, QueueAt(s.queues, k) + [c]),
        enqueued := s.enqueued[k := QueueAt(s.enqueued, k) + [c]])
    case SeeClaim(c) => MoveTo(s, c, Claimed)
    case TimerFires(c) => MoveTo(s, c, Expired)
    case RunRemover(c) =>
      var k := s.conns[c].key;
      if c in QueueAt(s.queues, k)
      then MoveTo(s, c, TimedOut).(
             queues := WithQueue(s.queues, k, Without(QueueAt(s.queues, k), c)),
             removed := s.removed + {c})
      else MoveTo(s, c, TimedOut)
  }

  // ---- Invariants ----

  predicate NoRepeats(q: seq<ConnId>) {
    forall i, j :: 0 <= i < j < |q| ==> q[i] != q[j]
  }

  /** Everything in q that is not in gone, in order. */
  function Keep(q: seq<ConnId>, gone: set<ConnId>): (r: seq<ConnId>)
    ensures forall c :: c in r <==> c in q && c !in gone
  {
    if q == [] then []
    else if q[0] in gone then Keep(q[1..], gone) else [q[0]] + Keep(q[1..], gone)
  }

  /** No key maps to an empty queue, and a queue holds only connections of its key
      that are waiting, unclaimed and not removed, each once. */
  ghost predicate QueuesSound(s: State) {
    forall k :: k in s.queues ==>
      && s.queues[k] != [] && NoRepeats(s.queues[k])
      && forall c :: c in s.queues[k] ==>
           && c in s.conns && s.conns[c].key == k
           && (s.conns[c].stage.Waiting? || s.conns[c].stage.Expired?)
           && c !in s.closed && c !in s.removed
  }

  /** What was claimed on key k followed by what still waits is exactly what was ever
      enqueued, in order, less what removers took out. */
  ghost predicate InOrder(s: State, k: Key) {
    Keep(QueueAt(s.enqueued, k), s.removed) == QueueAt(s.claimed, k) + QueueAt(s.queues, k)
  }

  ghost predicate FirstInFirstOut(s: State) { forall k :: InOrder(s, k) }

  /** A connection is enqueued at most once, on its own key, and not before it missed. */
  ghost predicate EnqueuedOnce(s: State) {
    forall k :: k in s.enqueued ==>
      && NoRepeats(s.enqueued[k])
      && forall c :: c in s.enqueued[k] ==>
           c in s.conns && s.conns[c].key == k
           && !s.conns[c].stage.Arrived? && !s.conns[c].stage.Missed? && !s.conns[c].stage.Paired?
  }

  /** A waiter was enqueued, on its own key: no connection waits without having joined. */
  ghost predicate WaitersEnqueued(s: State) {
    forall c :: c in s.conns && (s.conns[c].stage.Waiting? || s.conns[c].stage.Expired?) ==>
      c in QueueAt(s.enqueued, s.conns[c].key)
  }

  /** Claims and removals exclude each other, and concern enqueued connections. */
  ghost predicate ClaimsSound(s: State) {
    && s.closed !! s.removed
    && (forall c :: c in s.closed ==> c in s.conns && c in QueueAt(s.claimed, s.conns[c].key))
    && (forall c :: c in s.removed ==> c in s.conns && s.conns[c].stage.TimedOut?)
    && (forall k :: k in s.claimed ==> forall c :: c in s.claimed[k] ==> c in s.closed)
  }

  predicate SameSession(k: Key, j: Key) { j.sid == k.sid && j.side != k.side }

  /** The pairs are a matching: same session, opposite sides, nobody twice; a pair's
      waiter is exactly a claimed connection, its newcomer one that found a peer. */
  ghost predicate PairsMatch(s: State) {
    && (forall i :: 0 <= i < |s.pairs| ==>
          && s.pairs[i].0 in s.conns && s.conns[s.pairs[i].0].stage.Paired?
          && s.pairs[i].1 in s.closed && s.pairs[i].1 in s.conns
          && SameSession(s.conns[s.pairs[i].0].key, s.conns[s.pairs[i].1].key))
    && (forall i, j :: 0 <= i < j < |s.pairs| ==>
          s.pairs[i].0 != s.pairs[j].0 && s.pairs[i].1 != s.pairs[j].1)
  }

  ghost predicate Inv(s: State) {
    && QueuesSound(s) && FirstInFirstOut(s) && EnqueuedOnce(s) && WaitersEnqueued(s)
    && ClaimsSound(s) && PairsMatch(s)
  }

  // ---- Lemmas on queues ----

  lemma {:induction false} KeepAppend(q: seq<ConnId>, c: ConnId, gone: set<ConnId>)
    ensures Keep(q + [c], gone) == Keep(q, gone) + (if c in gone then [] else [c])
  {
    if q == [] {
      assert [c][1..] == [];
    } else {
      assert (q + [c])[1..] == q[1..] + [c];
      KeepAppend(q[1..], c, gone);
    }
  }

  lemma {:induction false} KeepRemoves(q: seq<ConnId>, c: ConnId, gone: set<ConnId>)
    requires NoRepeats(q)
    ensures Keep(q, gone + {c}) == Without(Keep(q, gone), c)
  {
    if q != [] {
      KeepRemoves(q[1..], c, gone);
      if q[0] == c {
        KeepSame(q[1..], c, gone);
      }
    }
  }

  lemma {:induction false} KeepSame(q: seq<ConnId>, c: ConnId, gone: set<ConnId>)
    requires c !in q
    ensures Keep(q, gone + {c}) == Keep(q, gone)
  {
    if q != [] { KeepSame(q[1..], c, gone); }
  }

  lemma {:induction false} WithoutSound(q: seq<ConnId>, c: ConnId)
    requires NoRepeats(q)
    ensures NoRepeats(Without(q, c)) && forall x :: x in Without(q, c) <==> x in q && x != c
  {
    if q != [] && q[0] != c {
      WithoutSound(q[1..], c);
      assert forall x :: x in q <==> x == q[0] || x in q[1..];
      assert q[0] !in q[1..];
    } else if q != [] {
      assert forall x :: x in q <==> x == q[0] || x in q[1..];
      assert q[0] !in q[1..];
    }
  }

  lemma {:induction false} KeepNoRepeats(q: seq<ConnId>, gone: set<ConnId>)
    requires NoRepeats(q)
    ensures NoRepeats(Keep(q, gone))
  {
    if q != [] {
      KeepNoRepeats(q[1..], gone);
      assert q[0] !in q[1..];
    }
  }

  // ---- Each step keeps the invariants ----

  /** A handler moves on without touching the hub. */
  ghost predicate Moves(s: State, c: ConnId, g: Stage) {
    && c in s.conns
    && match s.conns[c].stage
       case Arrived => g.Missed?
       case Waiting => g.Expired? || (g.Claimed? && c in s.closed)
       case Expired => g.TimedOut? && c !in QueueAt(s.queues, s.conns[c].key)
       case _ => false
  }

  lemma QuietStep(s: State, c: ConnId, g: Stage)
    requires Inv(s) && Moves(s, c, g)
    ensures Inv(MoveTo(s, c, g))
  {
    assert WaitersEnqueued(MoveTo(s, c, g));
    SameQueuesInOrder(s, MoveTo(s, c, g));
  }

  lemma SameQueuesInOrder(s: State, t: State)
    requires FirstInFirstOut(s)
    requires t.enqueued == s.enqueued && t.removed == s.removed && t.claimed == s.claimed && t.queues == s.queues
    ensures FirstInFirstOut(t)
  {
    forall k ensures InOrder(t, k) {
      assert InOrder(s, k);
    }
  }

  lemma JoinKeepsInv(s: State, c: ConnId)
    requires Inv(s) && InStage(s, c, Missed)
    ensures Inv(Step(s, JoinQueue(c)))
  {
    JoinKeepsOrder(s, c);
    JoinKeepsQueues(s, c);
    JoinKeepsHistory(s, c);
  }

  lemma JoinKeepsOrder(s: State, c: ConnId)
    requires FirstInFirstOut(s) && ClaimsSound(s) && InStage(s, c, Missed)
    ensures FirstInFirstOut(Step(s, JoinQueue(c)))
  {
    var t := Step(s, JoinQueue(c));
    var k := s.conns[c].key;
    forall j ensures InOrder(t, j) {
      assert InOrder(s, j);
      KeepAppend(QueueAt(s.enqueued, k), c, s.removed);
    }
  }

  lemma JoinKeepsHistory(s: State, c: ConnId)
    requires EnqueuedOnce(s) && WaitersEnqueued(s) && InStage(s, c, Missed)
    ensures EnqueuedOnce(Step(s, JoinQueue(c))) && WaitersEnqueued(Step(s, JoinQueue(c)))
  {}

  lemma MissedIsUnclaimed(s: State, c: ConnId)
    requires ClaimsSound(s) && EnqueuedOnce(s) && FirstInFirstOut(s) && InStage(s, c, Missed)
    ensures c !in s.closed
  {
    var k := s.conns[c].key;
    assert InOrder(s, k);
    assert c !in Keep(QueueAt(s.enqueued, k), s.removed);
    assert c !in QueueAt(s.claimed, k) + QueueAt(s.queues, k);
  }

  lemma JoinKeepsQueues(s: State, c: ConnId)
    requires QueuesSound(s) && ClaimsSound(s) && EnqueuedOnce(s) && FirstInFirstOut(s) && InStage(s, c, Missed)
    ensures QueuesSound(Step(s, JoinQueue(c)))
  {
    var t := Step(s, JoinQueue(c));
    MissedIsUnclaimed(s, c);
    forall j | j in t.queues ensures NoRepeats(t.queues[j]) {
      if j in s.queues { assert NoRepeats(s.queues[j]); }
    }
  }

  lemma PairKeepsOrder(s: State, c: ConnId)
    requires FirstInFirstOut(s) && InStage(s, c, Arrived)
    requires QueueAt(s.queues, Opposite(s.conns[c].key)) != []
    ensures FirstInFirstOut(PairUp(s, c))
  {
    var t := PairUp(s, c);
    forall j ensures InOrder(t, j) {
      assert InOrder(s, j);
    }
  }

  lemma PairKeepsMatching(s: State, c: ConnId)
    requires QueuesSound(s) && PairsMatch(s) && InStage(s, c, Arrived)
    requires QueueAt(s.queues, Opposite(s.conns[c].key)) != []
    ensures PairsMatch(PairUp(s, c))
  {
    var q := s.queues[Opposite(s.conns[c].key)];
    assert q[0] in q;
  }

  lemma PairKeepsHistory(s: State, c: ConnId)
    requires QueuesSound(s) && EnqueuedOnce(s) && WaitersEnqueued(s) && InStage(s, c, Arrived)
    requires QueueAt(s.queues, Opposite(s.conns[c].key)) != []
    ensures EnqueuedOnce(PairUp(s, c)) && WaitersEnqueued(PairUp(s, c))
  {
  }

  lemma PairKeepsClaims(s: State, c: ConnId)
    requires QueuesSound(s) && ClaimsSound(s) && InStage(s, c, Arrived)
    requires QueueAt(s.queues, Opposite(s.conns[c].key)) != []
    ensures ClaimsSound(PairUp(s, c))
  {
    var opp := Opposite(s.conns[c].key);
    assert s.queues[opp][0] in s.queues[opp];
  }

  lemma PairKeepsInv(s: State, c: ConnId)
    requires Inv(s) && InStage(s, c, Arrived) && QueueAt(s.queues, Opposite(s.conns[c].key)) != []
    ensures Inv(PairUp(s, c))
  {
    PairKeepsQueues(s, c);
    PairKeepsOrder(s, c);
    PairKeepsMatching(s, c);
    PairKeepsHistory(s, c);
    PairKeepsClaims(s, c);
  }

  lemma PairKeepsQueues(s: State, c: ConnId)
    requires QueuesSound(s) && InStage(s, c, Arrived) && QueueAt(s.queues, Opposite(s.conns[c].key)) != []
    ensures QueuesSound(PairUp(s, c))
  {
    var opp := Opposite(s.conns[c].key);
    var q := s.queues[opp];
    assert forall x :: x in q[1..] ==> x in q && x != q[0];
  }

  lemma RemoveInOrder(e: seq<ConnId>, claimed: seq<ConnId>, q: seq<ConnId>, c: ConnId, gone: set<ConnId>)
    requires NoRepeats(e) && Keep(e, gone) == claimed + q && c !in claimed
    ensures Keep(e, gone + {c}) == claimed + Without(q, c)
  {
    KeepRemoves(e, c, gone);
    WithoutTail(claimed, q, c);
  }

  lemma RemoveKeepsOwnOrder(s: State, c: ConnId, k: Key)
    requires InStage(s, c, Expired) && k == s.conns[c].key && c in QueueAt(s.queues, k)
    requires InOrder(s, k) && NoRepeats(QueueAt(s.enqueued, k)) && c !in QueueAt(s.claimed, k)
    ensures InOrder(Step(s, RunRemover(c)), k)
  {
    var q := QueueAt(s.queues, k);
    RemoveInOrder(QueueAt(s.enqueued, k), QueueAt(s.claimed, k), q, c, s.removed);
  }

  lemma RemoveKeepsOtherOrder(s: State, c: ConnId, j: Key)
    requires InStage(s, c, Expired) && j != s.conns[c].key && c in QueueAt(s.queues, s.conns[c].key)
    requires InOrder(s, j) && c !in QueueAt(s.enqueued, j)
    ensures InOrder(Step(s, RunRemover(c)), j)
  {
    var k := s.conns[c].key;
    KeepSame(QueueAt(s.enqueued, j), c, s.removed);
  }

  lemma RemoveKeepsOrder(s: State, c: ConnId)
    requires Inv(s) && InStage(s, c, Expired) && c in QueueAt(s.queues, s.conns[c].key)
    ensures FirstInFirstOut(Step(s, RunRemover(c)))
  {
    var t, k := Step(s, RunRemover(c)), s.conns[c].key;
    forall j ensures InOrder(t, j) {
      assert InOrder(s, j);
      if j == k { RemoveKeepsOwnOrder(s, c, k); } else { RemoveKeepsOtherOrder(s, c, j); }
    }
  }

  lemma RemoveKeepsQueues(s: State, c: ConnId)
    requires QueuesSound(s) && InStage(s, c, Expired) && c in QueueAt(s.queues, s.conns[c].key)
    ensures QueuesSound(Step(s, RunRemover(c)))
  {
    var q := s.queues[s.conns[c].key];
    assert NoRepeats(q);
    WithoutSound(q, c);
  }

  lemma RemoveKeepsInv(s: State, c: ConnId)
    requires Inv(s) && InStage(s, c, Expired) && c in QueueAt(s.queues, s.conns[c].key)
    ensures Inv(Step(s, RunRemover(c)))
  {
    RemoveKeepsOrder(s, c);
    RemoveKeepsQueues(s, c);
  }

  lemma ArriveKeepsInv(s: State, c: ConnId, key: Key)
    requires Inv(s) && c !in s.conns
    ensures Inv(Step(s, Arrive(c, key)))
  {
    var t := Step(s, Arrive(c, key));
    SameQueuesInOrder(s, t);
    assert QueuesSound(t);
    assert EnqueuedOnce(t) && WaitersEnqueued(t);
    assert ClaimsSound(t);
    assert PairsMatch(t);
  }

  lemma StepKeepsInv(s: State, e: Event)
    requires Inv(s) && Legal(s, e)
    ensures Inv(Step(s, e))
  {
    match e
    case Arrive(c, key) => ArriveKeepsInv(s, c, key);
    case LookForPeer(c) =>
      if QueueAt(s.queues, Opposite(s.conns[c].key)) == [] {
        QuietStep(s, c, Missed);
      } else {
        PairKeepsInv(s, c);
      }
    case JoinQueue(c) => JoinKeepsInv(s, c);
    case SeeClaim(c) => QuietStep(s, c, Claimed);
    case TimerFires(c) => QuietStep(s, c, Expired);
    case RunRemover(c) =>
      if c in QueueAt(s.queues, s.conns[c].key) {
        RemoveKeepsInv(s, c);
      } else {
        QuietStep(s, c, TimedOut);
      }
  }

  // ---- Runs ----

  datatype Run = Run(states: seq<State>, events: seq<Event>) {
    ghost predicate StepsAt(i: nat)
      requires |states| == |events| + 1 && i < |events|
    {
      Legal(states[i], events[i]) && states[i + 1] == Step(states[i], events[i])
    }

    ghost predicate Valid() {
      && |states| == |events| + 1 && states[0] == EMPTY
      && forall i :: 0 <= i < |events| ==> StepsAt(i)
    }
  }

  lemma {:induction false} RunKeepsInv(r: Run, i: nat)
    requires r.Valid() && i < |r.states|
    ensures Inv(r.states[i])
  {
    if i > 0 {
      RunKeepsInv(r, i - 1);
      assert r.StepsAt(i - 1);
      StepKeepsInv(r.states[i - 1], r.events[i - 1]);
    }
  }

  /** Under every interleaving the relay makes a matching: paired connections share a
      session and sit on opposite sides, and no connection is in two pairs or in one
      pair twice. */
  lemma PairsAreAMatching(r: Run, n: nat, i: nat, j: nat)
    requires r.Valid() && n < |r.states| && i < |r.states[n].pairs| && j < |r.states[n].pairs|
    ensures var s := r.states[n];
      && s.pairs[i].0 in s.conns && s.pairs[i].1 in s.conns
      && s.conns[s.pairs[i].1].key.sid == s.conns[s.pairs[i].0].key.sid
      && s.conns[s.pairs[i].1].key.side != s.conns[s.pairs[i].0].key.side
      && s.pairs[i].0 != s.pairs[j].1
      && (i != j ==> s.pairs[i].0 != s.pairs[j].0 && s.pairs[i].1 != s.pairs[j].1)
  {
    var s := r.states[n];
    RunKeepsInv(r, n);
    ClaimedWasEnqueued(s, s.pairs[j].1);
  }

  lemma ClaimedWasEnqueued(s: State, c: ConnId)
    requires Inv(s) && c in s.closed
    ensures c in s.conns && c in QueueAt(s.enqueued, s.conns[c].key) && !s.conns[c].stage.Paired?
  {
    var k := s.conns[c].key;
    assert InOrder(s, k);
    assert c in QueueAt(s.claimed, k) + QueueAt(s.queues, k);
  }

  /** A claim never closes a channel twice, and never claims a connection whose
      remover took it out of the queue. */
  lemma ClaimsAreFresh(r: Run, n: nat, m: nat, c: ConnId)
    requires r.Valid() && n <= m < |r.states|
    ensures c in r.states[n].removed ==> c !in r.states[m].closed
    ensures forall k :: k in r.states[n].queues && r.states[n].queues[k] != [] ==>
      r.states[n].queues[k][0] !in r.states[n].closed
  {
    RunKeepsInv(r, n);
    RunKeepsInv(r, m);
    RemovedStaysRemoved(r, n, m, c);
    forall k | k in r.states[n].queues && r.states[n].queues[k] != []
      ensures r.states[n].queues[k][0] !in r.states[n].closed
    {
      assert r.states[n].queues[k][0] in r.states[n].queues[k];
    }
  }

  lemma {:induction false} RemovedStaysRemoved(r: Run, n: nat, m: nat, c: ConnId)
    requires r.Valid() && n <= m < |r.states|
    ensures c in r.states[n].removed ==> c in r.states[m].removed
    decreases m
  {
    if n < m {
      RemovedStaysRemoved(r, n, m - 1, c);
      assert r.StepsAt(m - 1);
    }
  }

  /** First in, first out: of two connections enqueued on one key, neither removed, the
      earlier one is claimed whenever the later one is. */
  lemma EarlierIsClaimedFirst(r: Run, n: nat, k: Key, i: nat, j: nat)
    requires r.Valid() && n < |r.states|
    requires var q := QueueAt(r.states[n].enqueued, k);
      i < j < |q| && q[i] !in r.states[n].removed && q[j] in r.states[n].closed
    ensures QueueAt(r.states[n].enqueued, k)[i] in r.states[n].closed
  {
    var s := r.states[n];
    RunKeepsInv(r, n);
    var q := QueueAt(s.enqueued, k);
    var claimed, waiting := QueueAt(s.claimed, k), QueueAt(s.queues, k);
    assert InOrder(s, k);
    var a, b := KeepOrder(q, s.removed, i, j);
    assert (claimed + waiting)[a] == q[i] && (claimed + waiting)[b] == q[j];
    assert q[j] !in waiting;
    assert claimed[a] in claimed;
  }

  /** Where two kept elements of q end up: in the same order. */
  lemma {:induction false} KeepOrder(q: seq<ConnId>, gone: set<ConnId>, i: nat, j: nat)
    returns (a: nat, b: nat)
    requires i < j < |q| && q[i] !in gone && q[j] !in gone
    ensures a < b < |Keep(q, gone)| && Keep(q, gone)[a] == q[i] && Keep(q, gone)[b] == q[j]
  {
    if i > 0 {
      a, b := KeepOrder(q[1..], gone, i - 1, j - 1);
      if q[0] !in gone { a, b := a + 1, b + 1; }
    } else {
      var m :| 0 <= m < |Keep(q[1..], gone)| && Keep(q[1..], gone)[m] == q[j];
      a, b := 0, m + 1;
    }
  }

  // ---- Nobody is lost ----

  /** A waiter is still queued or has been claimed, and never both. */
  lemma QueuedOrClaimed(s: State, c: ConnId)
    requires Inv(s) && c in s.conns && (s.conns[c].stage.Waiting? || s.conns[c].stage.Expired?)
    ensures c in s.closed <==> c !in QueueAt(s.queues, s.conns[c].key)
  {
    var k := s.conns[c].key;
    assert c !in s.removed;
    assert InOrder(s, k);
    assert c in Keep(QueueAt(s.enqueued, k), s.removed);
    assert c in QueueAt(s.claimed, k) + QueueAt(s.queues, k);
  }

  /** On its timeout a handler closes a connection that has already been handed to a peer
      exactly when its remover finds nothing to remove. */
  lemma TimeoutClosesClaimedIff(r: Run, n: nat)
    requires r.Valid() && n < |r.events| && r.events[n].RunRemover?
    ensures var s, c := r.states[n], r.events[n].c;
      && InStage(s, c, Expired) && InStage(r.states[n + 1], c, TimedOut)
      && (c in r.states[n + 1].closed <==> c !in QueueAt(s.queues, s.conns[c].key))
  {
    RunKeepsInv(r, n);
    assert r.StepsAt(n);
    QueuedOrClaimed(r.states[n], r.events[n].c);
  }

  // ---- Both sides waiting ----

  ghost predicate BothWait(s: State, sid: seq<byte>) {
    QueueAt(s.queues, Key(sid, ServerSide)) != [] && QueueAt(s.queues, Key(sid, ClientSide)) != []
  }

  /** No session has waiters on both sides. */
  ghost predicate Uncrossed(s: State) { forall sid :: !BothWait(s, sid) }

  /** Somebody waits on the other side of k's session. */
  ghost predicate WaitsAcross(s: State, k: Key) {
    exists j: Key :: j.sid == k.sid && j.side != k.side && QueueAt(s.queues, j) != []
  }

  lemma AcrossIsOpposite(s: State, k: Key)
    ensures WaitsAcross(s, k) <==> QueueAt(s.queues, Opposite(k)) != []
    ensures BothWait(s, k.sid) <==> QueueAt(s.queues, k) != [] && QueueAt(s.queues, Opposite(k)) != []
  {
    assert forall j: Key :: j.sid == k.sid && j.side != k.side ==> j == Opposite(k);
  }

  /** A connection joins its queue while somebody waits on the other side. */
  ghost predicate JoinsLate(s: State, e: Event) {
    e.JoinQueue? && e.c in s.conns && WaitsAcross(s, s.conns[e.c].key)
  }

  ghost predicate JoinsLateAt(r: Run, m: nat)
    requires |r.states| == |r.events| + 1
  {
    m < |r.events| && JoinsLate(r.states[m], r.events[m])
  }

  lemma JoinKeepsUncrossed(s: State, c: ConnId)
    requires Uncrossed(s) && InStage(s, c, Missed)
    ensures Uncrossed(Step(s, JoinQueue(c))) <==> !JoinsLate(s, JoinQueue(c))
  {
    var t, k := Step(s, JoinQueue(c)), s.conns[c].key;
    AcrossIsOpposite(s, k);
    AcrossIsOpposite(t, k);
    if JoinsLate(s, JoinQueue(c)) {
      assert BothWait(t, k.sid);
    } else {
      forall sid ensures !BothWait(t, sid) {
        assert !BothWait(s, sid);
      }
    }
  }

  lemma ShrinkKeepsUncrossed(s: State, t: State, k: Key, q: seq<ConnId>)
    requires Uncrossed(s) && t.queues == WithQueue(s.queues, k, q) && QueueAt(s.queues, k) != []
    ensures Uncrossed(t)
  {
    forall sid ensures !BothWait(t, sid) {
      assert !BothWait(s, sid);
    }
  }

  lemma StepKeepsUncrossed(s: State, e: Event)
    requires Legal(s, e) && Uncrossed(s)
    ensures Uncrossed(Step(s, e)) <==> !JoinsLate(s, e)
  {
    var t := Step(s, e);
    match e
    case JoinQueue(c) => JoinKeepsUncrossed(s, c);
    case LookForPeer(c) =>
      var opp := Opposite(s.conns[c].key);
      if QueueAt(s.queues, opp) != [] {
        ShrinkKeepsUncrossed(s, t, opp, QueueAt(s.queues, opp)[1..]);
      } else {
        SameQueuesUncrossed(s, t);
      }
    case RunRemover(c) =>
      var k := s.conns[c].key;
      if c in QueueAt(s.queues, k) {
        ShrinkKeepsUncrossed(s, t, k, Without(QueueAt(s.queues, k), c));
      } else {
        SameQueuesUncrossed(s, t);
      }
    case Arrive(_, _) => SameQueuesUncrossed(s, t);
    case SeeClaim(_) => SameQueuesUncrossed(s, t);
    case TimerFires(_) => SameQueuesUncrossed(s, t);
  }

  lemma SameQueuesUncrossed(s: State, t: State)
    requires Uncrossed(s) && t.queues == s.queues
    ensures Uncrossed(t)
  {
    forall sid ensures !BothWait(t, sid) {
      assert !BothWait(s, sid);
    }
  }

  lemma {:induction false} UncrossedUntilLateJoin(r: Run, n: nat)
    requires r.Valid() && n < |r.states|
    requires forall m :: 0 <= m < n ==> !JoinsLateAt(r, m)
    ensures Uncrossed(r.states[n])
  {
    if n > 0 {
      UncrossedUntilLateJoin(r, n - 1);
      assert r.StepsAt(n - 1) && !JoinsLateAt(r, n - 1);
      StepKeepsUncrossed(r.states[n - 1], r.events[n - 1]);
    }
  }

  lemma LateJoinCrosses(r: Run, m: nat)
    requires r.Valid() && m < |r.events| && JoinsLateAt(r, m)
    ensures !Uncrossed(r.states[m + 1])
  {
    assert r.StepsAt(m);
    var k := r.states[m].conns[r.events[m].c].key;
    AcrossIsOpposite(r.states[m], k);
    AcrossIsOpposite(r.states[m + 1], k);
    assert BothWait(r.states[m + 1], k.sid);
  }

  /** Both sides of a session ever wait at once exactly when some connection joins its
      queue while the other side already waits. */
  lemma BothWaitIff(r: Run)
    requires r.Valid()
    ensures (exists n :: 0 <= n < |r.states| && !Uncrossed(r.states[n]))
       <==> (exists m :: 0 <= m < |r.events| && JoinsLateAt(r, m))
  {
    if m :| 0 <= m < |r.events| && JoinsLateAt(r, m) {
      LateJoinCrosses(r, m);
    } else {
      forall n | 0 <= n < |r.states| ensures Uncrossed(r.states[n]) {
        UncrossedUntilLateJoin(r, n);
      }
    }
  }

  // ---- How a late join comes about ----

  /** Step q is c's own look at an empty opposite queue, and c stays undecided until m. */
  ghost predicate MissedAt(r: Run, q: nat, m: nat, c: ConnId)
    requires r.Valid() && q < m < |r.states|
  {
    && r.events[q] == LookForPeer(c) && c in r.states[q].conns
    && !WaitsAcross(r.states[q], r.states[q].conns[c].key)
    && forall j :: q < j <= m ==> InStage(r.states[j], c, Missed) && r.states[j].conns[c].key == r.states[q].conns[c].key
  }

  lemma {:induction false} MissIsFound(r: Run, m: nat, c: ConnId) returns (q: nat)
    requires r.Valid() && m < |r.states| && InStage(r.states[m], c, Missed)
    ensures q < m && MissedAt(r, q, m, c)
  {
    assert m > 0;
    assert r.StepsAt(m - 1);
    if InStage(r.states[m - 1], c, Missed) {
      q := MissIsFound(r, m - 1, c);
    } else {
      q := m - 1;
    }
  }

  /** Step j joins the queue of the other side of k's session. */
  ghost predicate JoinsAcross(r: Run, j: nat, k: Key)
    requires |r.states| == |r.events| + 1 && j < |r.events|
  {
    r.events[j].JoinQueue? && r.events[j].c in r.states[j].conns
    && var key := r.states[j].conns[r.events[j].c].key; key.sid == k.sid && key.side != k.side
  }

  ghost predicate JoinsKey(r: Run, j: nat, k: Key)
    requires |r.states| == |r.events| + 1 && j < |r.events|
  {
    r.events[j].JoinQueue? && r.events[j].c in r.states[j].conns && r.states[j].conns[r.events[j].c].key == k
  }

  lemma {:induction false} StaysEmpty(r: Run, q: nat, m: nat, k: Key)
    requires r.Valid() && q <= m < |r.states| && QueueAt(r.states[q].queues, k) == []
    requires forall j :: q <= j < m ==> !JoinsKey(r, j, k)
    ensures QueueAt(r.states[m].queues, k) == []
    decreases m
  {
    if q < m {
      StaysEmpty(r, q, m - 1, k);
      assert r.StepsAt(m - 1) && !JoinsKey(r, m - 1, k);
    }
  }

  /** A late join takes somebody of the other side joining between the connection's own
      look and its own join: the window between the two critical sections. */
  lemma LateJoinHasWindow(r: Run, m: nat) returns (q: nat, j: nat)
    requires r.Valid() && m < |r.events| && JoinsLateAt(r, m)
    ensures var c := r.events[m].c;
      && q < j < m && MissedAt(r, q, m, c)
      && JoinsAcross(r, j, r.states[m].conns[c].key)
  {
    var c := r.events[m].c;
    assert r.StepsAt(m);
    q := MissIsFound(r, m, c);
    var k := Opposite(r.states[m].conns[c].key);
    AcrossIsOpposite(r.states[q], r.states[q].conns[c].key);
    AcrossIsOpposite(r.states[m], r.states[m].conns[c].key);
    if forall i :: q <= i < m ==> !JoinsKey(r, i, k) {
      StaysEmpty(r, q, m, k);
      assert false;
    }
    j :| q <= j < m && JoinsKey(r, j, k);
  }

  /** So were each handler's two critical sections adjacent, both sides never waited. */
  lemma AdjacentSectionsSuffice(r: Run, n: nat)
    requires r.Valid() && n < |r.states|
    requires forall m :: 0 <= m < |r.events| && r.events[m].JoinQueue? ==>
      m > 0 && r.events[m - 1] == LookForPeer(r.events[m].c)
    ensures Uncrossed(r.states[n])
  {
    forall m | 0 <= m < n ensures !JoinsLateAt(r, m) {
      if r.events[m].JoinQueue? {
        AdjacentIsNotLate(r, m);
      }
    }
    UncrossedUntilLateJoin(r, n);
  }

  lemma AdjacentIsNotLate(r: Run, m: nat)
    requires r.Valid() && 0 < m < |r.events|
    requires r.events[m].JoinQueue? && r.events[m - 1] == LookForPeer(r.events[m].c)
    ensures !JoinsLateAt(r, m)
  {
    assert r.StepsAt(m - 1) && r.StepsAt(m);
  }

  // ---- The hub's methods are these steps ----

  ghost predicate Mirrors(hub: Hub, s: State)
    reads hub
  {
    hub.queues == s.queues && hub.closed == s.closed
  }

  /** The fast path of a handler. */
  method Look(hub: Hub, ghost s: State, c: ConnId, k: Key) returns (peer: Option<ConnId>)
    requires Inv(s) && Legal(s, LookForPeer(c)) && s.conns[c].key == k && Mirrors(hub, s)
    modifies hub
    ensures Mirrors(hub, Step(s, LookForPeer(c)))
    ensures Step(s, LookForPeer(c)).pairs == if peer.Some? then s.pairs + [(c, peer.value)] else s.pairs
  {
    peer := hub.TryPair(k);
  }

  /** The slow path: joining the queue. */
  method Join(hub: Hub, ghost s: State, c: ConnId, k: Key)
    requires Legal(s, JoinQueue(c)) && s.conns[c].key == k && Mirrors(hub, s)
    modifies hub
    ensures Mirrors(hub, Step(s, JoinQueue(c)))
  {
    hub.Enqueue(k, c);
  }

  /** And leaving it on a timeout. */
  method Expire(hub: Hub, ghost s: State, c: ConnId, k: Key)
    requires Legal(s, RunRemover(c)) && s.conns[c].key == k && Mirrors(hub, s)
    modifies hub
    ensures Mirrors(hub, Step(s, RunRemover(c)))
  {
    hub.Remove(k, c);
  }

  // ---- Two runs that happen ----

  ghost function Last(r: Run): State
    requires |r.states| > 0
  {
    r.states[|r.states| - 1]
  }

  lemma OneMore(r: Run, e: Event) returns (t: Run)
    requires r.Valid() && Legal(Last(r), e)
    ensures t.Valid() && Last(t) == Step(Last(r), e)
  {
    t := Run(r.states + [Step(Last(r), e)], r.events + [e]);
    forall i | 0 <= i < |t.events| ensures t.StepsAt(i) {
      if i < |r.events| { assert r.StepsAt(i); }
    }
  }

  ghost predicate BothMissed(s: State, sid: seq<byte>) {
    && s.queues == map[]
    && InStage(s, 0, Missed) && s.conns[0].key == Key(sid, ServerSide)
    && InStage(s, 1, Missed) && s.conns[1].key == Key(sid, ClientSide)
  }

  lemma BothCanMiss(sid: seq<byte>) returns (r: Run)
    ensures r.Valid() && BothMissed(Last(r), sid)
  {
    r := Run([EMPTY], []);
    r := OneMore(r, Arrive(0, Key(sid, ServerSide)));
    r := OneMore(r, Arrive(1, Key(sid, ClientSide)));
    r := OneMore(r, LookForPeer(0));
    r := OneMore(r, LookForPeer(1));
  }

  /** A handler that missed joins its queue in a second critical section, so two
      opposite connections of one session can each miss the other and both wait. */
  lemma BothSidesCanWait(sid: seq<byte>)
    ensures exists r: Run :: r.Valid() && EndsBothWaiting(r, sid)
  {
    var r := BothCanMiss(sid);
    r := OneMore(r, JoinQueue(0));
    r := OneMore(r, JoinQueue(1));
    assert EndsBothWaiting(r, sid);
  }

  ghost predicate EndsBothWaiting(r: Run, sid: seq<byte>) {
    && |r.states| > 0
    && QueueAt(Last(r).queues, Key(sid, ServerSide)) == [0]
    && QueueAt(Last(r).queues, Key(sid, ClientSide)) == [1]
  }

  /** The pair's waiter hung up on its own timer. */
  ghost predicate EndsPairedAndTimedOut(r: Run) {
    && |r.states| > 0
    && Last(r).pairs == [(1, 0)]
    && InStage(Last(r), 0, TimedOut) && InStage(Last(r), 1, Paired)
  }

  /** A timer that fires just before a claim is not undone by it: the remover finds
      nothing left to remove, and the waiter's handler closes a connection that has
      already been handed to a peer. */
  lemma TimeoutCanRaceClaim(sid: seq<byte>)
    ensures exists r: Run :: r.Valid() && EndsPairedAndTimedOut(r)
  {
    var r := Run([EMPTY], []);
    r := OneMore(r, Arrive(0, Key(sid, ServerSide)));
    r := OneMore(r, LookForPeer(0));
    r := OneMore(r, JoinQueue(0));
    r := OneMore(r, TimerFires(0));
    r := OneMore(r, Arrive(1, Key(sid, ClientSide)));
    assert QueueAt(Last(r).queues, Opposite(Key(sid, ClientSide))) == [0];
    r := OneMore(r, LookForPeer(1));
    assert Last(r).pairs == [(1, 0)] && QueueAt(Last(r).queues, Key(sid, ServerSide)) == [];
    assert InStage(Last(r), 1, Paired);
    r := OneMore(r, RunRemover(0));
    assert EndsPairedAndTimedOut(r);
  }
}
