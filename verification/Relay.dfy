/** The rendezvous relay: connections that name the same session from opposite sides
    are paired, oldest waiter first. The hub's three lock-protected operations come
    first, then every interleaving of them. */
module Relay {
  import opened Wire

  type ConnId = nat
  datatype Side = ServerSide | ClientSide
  datatype Key = Key(sid: seq<byte>, side: Side)

  function Opposite(k: Key): Key {
    k.(side := if k.side.ServerSide? then ClientSide else ServerSide)
  }

  type Queues = map<Key, seq<ConnId>>

  function QueueAt(qs: Queues, k: Key): seq<ConnId> { if k in qs then qs[k] else [] }

  /** Empty queues are dropped from the map. */
  function WithQueue(qs: Queues, k: Key, q: seq<ConnId>): Queues {
    if q == [] then qs - {k} else qs[k := q]
  }

  function Without(q: seq<ConnId>, c: ConnId): (r: seq<ConnId>)
    ensures c !in q ==> r == q
  {
    if q == [] then [] else if q[0] == c then q[1..] else [q[0]] + Without(q[1..], c)
  }

  /** The hub's shared state. A connection's claim channel is in closed once a peer
      has claimed it; closing it a second time would be a fault. */
  class Hub {
    var queues: Queues
    var closed: set<ConnId>

    constructor ()
      ensures queues == map[] && closed == {}
    {
      queues, closed := map[], {};
    }

    /** Claims the oldest waiter of the same session's other side, if there is one. */
    method TryPair(k: Key) returns (peer: Option<ConnId>)
      requires forall j :: j in queues && queues[j] != [] ==> queues[j][0] !in closed
      modifies this
      ensures forall j: Key :: j.sid == k.sid && j.side != k.side && QueueAt(old(queues), j) == [] ==>
        peer == None && queues == old(queues) && closed == old(closed)
      ensures forall j: Key :: j.sid == k.sid && j.side != k.side && QueueAt(old(queues), j) != [] ==>
        var q := QueueAt(old(queues), j);
        && peer == Some(q[0]) && q[0] !in old(closed) && closed == old(closed) + {q[0]}
        && queues == WithQueue(old(queues), j, q[1..])
    {
      var opp := Opposite(k);
      if opp !in queues || |queues[opp]| == 0 { return None; }
      var q := queues[opp];
      queues := queues[opp := q[1..]];
      if |queues[opp]| == 0 { queues := queues - {opp}; }
      closed := closed + {q[0]};
      peer := Some(q[0]);
    }

    method Enqueue(k: Key, c: ConnId)
      modifies this`queues
      ensures queues == WithQueue(old(queues), k, QueueAt(old(queues), k) + [c])
    {
      var q := if k in queues then queues[k] else [];
      queues := queues[k := q + [c]];
    }

    /** The remover run on a timeout: takes c out of its queue if it is still there. */
    method Remove(k: Key, c: ConnId)
      modifies this`queues
      ensures queues == if c in QueueAt(old(queues), k)
        then WithQueue(old(queues), k, Without(QueueAt(old(queues), k), c)) else old(queues)
    {
      var q := if k in queues then queues[k] else [];
      var i := IndexOf(q, c);
      if i < |q| {
        queues := queues[k := q[..i] + q[i + 1..]];
        if |queues[k]| == 0 { queues := queues - {k}; }
      }
    }
  }

  lemma {:induction false} WithoutTail(a: seq<ConnId>, b: seq<ConnId>, c: ConnId)
    requires c !in a
    ensures Without(a + b, c) == a + Without(b, c)
  {
    if a == [] {
      assert a + b == b;
    } else {
      assert (a + b)[0] == a[0] && (a + b)[1..] == a[1..] + b;
      WithoutTail(a[1..], b, c);
      assert Without(a + b, c) == [a[0]] + (a[1..] + Without(b, c));
    }
  }

  lemma WithoutAt(q: seq<ConnId>, i: nat, c: ConnId)
    requires i < |q| && q[i] == c && c !in q[..i]
    ensures Without(q, c) == q[..i] + q[i + 1..]
  {
    assert q == q[..i] + q[i..] && q[i..][1..] == q[i + 1..];
    WithoutTail(q[..i], q[i..], c);
  }

  /** The first position of c in q, or |q|. */
  method IndexOf(q: seq<ConnId>, c: ConnId) returns (i: nat)
    ensures i <= |q| && (i < |q| <==> c in q)
    ensures i < |q| ==> q[i] == c && Without(q, c) == q[..i] + q[i + 1..]
  {
    i := 0;
    while i < |q| && q[i] != c
      invariant 0 <= i <= |q| && c !in q[..i]
    {
      i := i + 1;
    }
    if i < |q| { WithoutAt(q, i, c); }
  }
}
