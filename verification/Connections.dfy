/**
  Counting a member's open connections: every dial is counted once and given back once, however
  often the connection is closed.
 */
module Connections {

  datatype Phase = Dialing | Open | Refused | Closed

  datatype Conn = Conn(member: nat, phase: Phase)

  // The connections of a member that count.
  function Counted(conns: map<nat, Conn>, member: nat): set<nat> {
    set id | id in conns && conns[id].member == member && conns[id].phase in {Dialing, Open}
  }

  function CountIn(active: map<nat, int>, member: nat): int {
    if member in active then active[member] else 0
  }

  function Bumped(active: map<nat, int>, member: nat, delta: int): (r: map<nat, int>)
    ensures forall m: nat {:trigger CountIn(r, m)} :: CountIn(r, m) == CountIn(active, m) + if m == member then delta else 0
  {
    active[member := CountIn(active, member) + delta]
  }

  // Each member's count is the number of its dials in progress and open connections.
  ghost predicate Exact(active: map<nat, int>, conns: map<nat, Conn>) {
    forall member: nat {:trigger CountIn(active, member)} :: CountIn(active, member) == |Counted(conns, member)|
  }

  lemma StaysExact(active: map<nat, int>, conns: map<nat, Conn>, active': map<nat, int>, id: nat, conn: Conn)
    requires Exact(active, conns)
    requires forall m: nat {:trigger CountIn(active', m)} ::
               CountIn(active', m) == CountIn(active, m) - One(conns, id, m) + One(conns[id := conn], id, m)
    ensures Exact(active', conns[id := conn])
  {
    hide Counted, CountIn, One;
    forall m: nat {:trigger CountIn(active', m)} ensures CountIn(active', m) == |Counted(conns[id := conn], m)| {
      CountedStep(conns, id, conn, m);
      assert CountIn(active, m) == |Counted(conns, m)|;
    }
  }

  class ActiveConnections {
    var active: map<nat, int>
    var conns: map<nat, Conn>

    constructor ()
      ensures Exact(active, conns) && conns == map[]
    {
      active, conns := map[], map[];
    }

    // The member was picked.
    method BeginDial(id: nat, member: nat)
      requires Exact(active, conns) && id !in conns
      modifies this
      ensures Exact(active, conns) && conns == old(conns)[id := Conn(member, Dialing)]
    {
      hide Exact, Counted;
      active := Bumped(active, member, 1);
      StaysExact(old(active), conns, active, id, Conn(member, Dialing));
      conns := conns[id := Conn(member, Dialing)];
    }

    method EndDial(id: nat, ok: bool)
      requires Exact(active, conns) && id in conns && conns[id].phase == Dialing
      modifies this
      ensures Exact(active, conns) && conns == old(conns)[id := Conn(old(conns)[id].member, if ok then Open else Refused)]
    {
      hide Exact, Counted;
      var member := conns[id].member;
      if !ok {
        active := Bumped(active, member, -1);
      }
      StaysExact(old(active), conns, active, id, Conn(member, if ok then Open else Refused));
      conns := conns[id := Conn(member, if ok then Open else Refused)];
    }

    // Any number of times, by anyone who holds the connection.
    method CloseConn(id: nat)
      requires Exact(active, conns) && id in conns && conns[id].phase in {Open, Closed}
      modifies this
      ensures Exact(active, conns) && conns == old(conns)[id := Conn(old(conns)[id].member, Closed)]
    {
      hide Exact, Counted;
      var member := conns[id].member;
      if conns[id].phase == Open {
        active := Bumped(active, member, -1);
      }
      StaysExact(old(active), conns, active, id, Conn(member, Closed));
      conns := conns[id := Conn(member, Closed)];
    }
  }

  function One(conns: map<nat, Conn>, id: nat, member: nat): nat {
    if id in conns && conns[id].member == member && conns[id].phase in {Dialing, Open} then 1 else 0
  }

  // One connection more or less, of its own member only.
  lemma CountedStep(conns: map<nat, Conn>, id: nat, conn: Conn, member: nat)
    ensures |Counted(conns[id := conn], member)| == |Counted(conns, member)| - One(conns, id, member) + One(conns[id := conn], id, member)
  {
    var before, after := Counted(conns, member), Counted(conns[id := conn], member);
    assert after - {id} == before - {id};
    Without(before, id);
    Without(after, id);
  }

  lemma Without(s: set<nat>, id: nat)
    ensures |s| == |s - {id}| + if id in s then 1 else 0
  {
  }
}
