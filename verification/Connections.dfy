/** The registry of connections: one current connection per peer id. */
module Connections {
  import opened Bytes

  /** A connection by its stable id, and the id of the endpoint at its other end. */
  datatype Conn = Conn(id: nat, remote: bytes)

  datatype Entry = Entry(conn: Conn, outbound: bool)

  datatype Outcome = Registered | ReplacedLive | Rejected

  /** `closed` are the connections known here to be closed, by either end. */
  datatype Registry = Registry(entries: map<string, Entry>, closed: set<nat>)

  function Dialer(local: bytes, remote: bytes, outbound: bool): bytes {
    if outbound then local else remote
  }

  /** A live connection of the other direction wins if its dialer has the smaller id. */
  predicate Loses(r: Registry, local: Option<bytes>, existing: Entry, conn: Conn, outbound: bool) {
    && existing.conn.id !in r.closed && existing.outbound != outbound && local.Some?
    && Less(Dialer(local.value, conn.remote, existing.outbound), Dialer(local.value, conn.remote, outbound))
  }

  function Register(r: Registry, local: Option<bytes>, peer: string, conn: Conn, outbound: bool): (Registry, Outcome) {
    if peer !in r.entries then (r.(entries := r.entries[peer := Entry(conn, outbound)]), Registered)
    else
      var existing := r.entries[peer];
      if existing.conn.id == conn.id then (r, Registered)
      else if Loses(r, local, existing, conn, outbound) then (r.(closed := r.closed + {conn.id}), Rejected)
      else
        (Registry(r.entries[peer := Entry(conn, outbound)], r.closed + {existing.conn.id}),
         if existing.conn.id !in r.closed && existing.outbound != outbound then ReplacedLive else Registered)
  }

  function Unregister(r: Registry, peer: string): Registry {
    if peer in r.entries then Registry(r.entries - {peer}, r.closed + {r.entries[peer].conn.id}) else r
  }

  function UnregisterIfCurrent(r: Registry, peer: string, id: nat): (Registry, bool) {
    if peer in r.entries && r.entries[peer].conn.id == id then (Unregister(r, peer), true) else (r, false)
  }

  function Rekey(r: Registry, oldId: string, newId: string): Registry {
    if oldId !in r.entries then r
    else
      var entry, rest := r.entries[oldId], r.entries - {oldId};
      var replaced := newId in rest && rest[newId].conn.id != entry.conn.id;
      Registry(rest[newId := entry], if replaced then r.closed + {rest[newId].conn.id} else r.closed)
  }

  class IrohTransport {
    const local: Option<bytes>
    var entries: map<string, Entry>
    var closed: set<nat>

    ghost function St(): Registry
      reads this
    {
      Registry(entries, closed)
    }

    constructor (local: Option<bytes>)
      ensures this.local == local && St() == Registry(map[], {})
    {
      this.local := local;
      entries, closed := map[], {};
    }

    method RegisterConnection(peer: string, conn: Conn, outbound: bool) returns (outcome: Outcome)
      modifies this
      ensures (St(), outcome) == Register(old(St()), local, peer, conn, outbound)
    {
      outcome := Registered;
      if peer in entries {
        var existing := entries[peer];
        if existing.conn.id == conn.id {
          return Registered;
        }
        var live := existing.conn.id !in closed;
        if live && existing.outbound != outbound {
          if local.Some? {
            var winner := Dialer(local.value, conn.remote, existing.outbound);
            var loser := Dialer(local.value, conn.remote, outbound);
            if Less(winner, loser) {
              closed := closed + {conn.id};
              return Rejected;
            }
          }
          outcome := ReplacedLive;
        }
        closed := closed + {existing.conn.id};
      }
      entries := entries[peer := Entry(conn, outbound)];
    }

    method UnregisterCurrent(peer: string, id: nat) returns (was: bool)
      modifies this
      ensures (St(), was) == UnregisterIfCurrent(old(St()), peer, id)
    {
      if peer in entries && entries[peer].conn.id == id {
        closed := closed + {id};
        entries := entries - {peer};
        return true;
      }
      return false;
    }

    method RekeyConnection(oldId: string, newId: string)
      modifies this
      ensures St() == Rekey(old(St()), oldId, newId)
    {
      if oldId in entries {
        var entry := entries[oldId];
        entries := entries - {oldId};
        if newId in entries && entries[newId].conn.id != entry.conn.id {
          closed := closed + {entries[newId].conn.id};
        }
        entries := entries[newId := entry];
      }
    }
  }

  // ---- No connection is forgotten ----

  datatype Op =
    | Add(peer: string, conn: Conn, outbound: bool)
    | Remove(peer: string)
    | RemoveIfCurrent(peer: string, id: nat)
    | Move(oldId: string, newId: string)
    | SeeClosed(id: nat)

  function Apply(r: Registry, local: Option<bytes>, op: Op): Registry {
    match op
    case Add(peer, conn, outbound) => Register(r, local, peer, conn, outbound).0
    case Remove(peer) => Unregister(r, peer)
    case RemoveIfCurrent(peer, id) => UnregisterIfCurrent(r, peer, id).0
    case Move(oldId, newId) => Rekey(r, oldId, newId)
    case SeeClosed(id) => r.(closed := r.closed + {id})
  }

  function ApplyAll(r: Registry, local: Option<bytes>, ops: seq<Op>): Registry
    decreases ops
  {
    if ops == [] then r else ApplyAll(Apply(r, local, ops[0]), local, ops[1..])
  }

  predicate Held(r: Registry, id: nat) {
    exists peer :: peer in r.entries && r.entries[peer].conn.id == id
  }

  lemma ApplyForgetsNothing(r: Registry, local: Option<bytes>, op: Op, id: nat)
    requires Held(r, id) || id in r.closed || (op.Add? && op.conn.id == id)
    ensures Held(Apply(r, local, op), id) || id in Apply(r, local, op).closed
  {
    var next := Apply(r, local, op);
    if op.Add? && op.conn.id == id && op.peer in next.entries && next.entries[op.peer].conn.id == id {
      assert Held(next, id);
    } else if Held(r, id) && id !in next.closed {
      var peer :| peer in r.entries && r.entries[peer].conn.id == id;
      var at := if op.Move? && peer == op.oldId then op.newId else peer;
      assert at in next.entries && next.entries[at].conn.id == id;
    }
  }

  /** However often connections are registered, replaced, moved and dropped: one that was handed to
      the registry is still held under some peer id, or it has been closed. */
  lemma {:induction false} NoConnectionForgotten(r: Registry, local: Option<bytes>, ops: seq<Op>, i: nat)
    requires i < |ops| && ops[i].Add?
    ensures var end := ApplyAll(r, local, ops);
      Held(end, ops[i].conn.id) || ops[i].conn.id in end.closed
    decreases ops
  {
    var next, id := Apply(r, local, ops[0]), ops[i].conn.id;
    if i == 0 {
      ApplyForgetsNothing(r, local, ops[0], id);
      StaysKnown(next, local, ops[1..], id);
    } else {
      NoConnectionForgotten(next, local, ops[1..], i - 1);
    }
  }

  lemma {:induction false} StaysKnown(r: Registry, local: Option<bytes>, ops: seq<Op>, id: nat)
    requires Held(r, id) || id in r.closed
    ensures var end := ApplyAll(r, local, ops);
      Held(end, id) || id in end.closed
    decreases ops
  {
    if ops != [] {
      ApplyForgetsNothing(r, local, ops[0], id);
      StaysKnown(Apply(r, local, ops[0]), local, ops[1..], id);
    }
  }

  // ---- Which one stays ----

  /** A second connection under an id that is taken: exactly one of the two stays and the other one is
      closed. The first one stays only if it is alive, has the other direction, and the smaller endpoint
      has dialed it; of two with the same direction the second one stays. */
  lemma OneOfTwoStays(r: Registry, local: Option<bytes>, peer: string, conn: Conn, outbound: bool)
    requires peer in r.entries && r.entries[peer].conn.id != conn.id
    ensures var first := r.entries[peer];
      var (end, outcome) := Register(r, local, peer, conn, outbound);
      var alive := first.conn.id !in r.closed;
      && end.entries.Keys == r.entries.Keys
      && (forall p :: p in r.entries && p != peer ==> end.entries[p] == r.entries[p])
      && (end.entries[peer] == first <==>
            && alive && first.outbound != outbound && local.Some?
            && if outbound then Less(conn.remote, local.value) else Less(local.value, conn.remote))
      && (end.entries[peer] == first ==> outcome == Rejected && end.closed == r.closed + {conn.id})
      && (end.entries[peer] != first ==>
            && end.entries[peer] == Entry(conn, outbound) && end.closed == r.closed + {first.conn.id}
            && outcome == if alive && first.outbound != outbound then ReplacedLive else Registered)
  {
  }

  /** Without moves a connection that is still open is held under the id it was registered with: one
      open connection to a peer id. */
  lemma {:induction false} OneOpenPerPeer(r: Registry, local: Option<bytes>, ops: seq<Op>, i: nat)
    requires i < |ops| && ops[i].Add? && forall j :: 0 <= j < |ops| ==> !ops[j].Move?
    ensures var end := ApplyAll(r, local, ops);
      ops[i].conn.id in end.closed || (ops[i].peer in end.entries && end.entries[ops[i].peer].conn.id == ops[i].conn.id)
    decreases ops
  {
    var next := Apply(r, local, ops[0]);
    assert forall j :: 0 <= j < |ops[1..]| ==> ops[1..][j] == ops[j + 1];
    if i == 0 {
      StaysUnder(next, local, ops[1..], ops[0].peer, ops[0].conn.id);
    } else {
      OneOpenPerPeer(next, local, ops[1..], i - 1);
    }
  }

  lemma {:induction false} StaysUnder(r: Registry, local: Option<bytes>, ops: seq<Op>, peer: string, id: nat)
    requires id in r.closed || (peer in r.entries && r.entries[peer].conn.id == id)
    requires forall j :: 0 <= j < |ops| ==> !ops[j].Move?
    ensures var end := ApplyAll(r, local, ops);
      id in end.closed || (peer in end.entries && end.entries[peer].conn.id == id)
    decreases ops
  {
    if ops != [] {
      assert forall j :: 0 <= j < |ops[1..]| ==> ops[1..][j] == ops[j + 1];
      StaysUnder(Apply(r, local, ops[0]), local, ops[1..], peer, id);
    }
  }

  /** Nothing is closed without a reason: what an operation closes was seen closed, held under an id it
      removes, replaces or moves to, or is the connection it rejects. */
  lemma ClosedForReason(r: Registry, local: Option<bytes>, op: Op, id: nat)
    requires id in Apply(r, local, op).closed && id !in r.closed
    ensures match op
            case Add(peer, conn, _) =>
              peer in r.entries && r.entries[peer].conn.id != conn.id && id in {r.entries[peer].conn.id, conn.id}
            case Remove(peer) => peer in r.entries && r.entries[peer].conn.id == id
            case RemoveIfCurrent(peer, current) => id == current && peer in r.entries && r.entries[peer].conn.id == id
            case Move(oldId, newId) =>
              && oldId in r.entries && newId in r.entries && oldId != newId
              && r.entries[newId].conn.id == id && r.entries[oldId].conn.id != id
            case SeeClosed(seen) => id == seen
  {
  }

  /** What goes: a removed id is free, one that has another connection by now stays as it is, and a moved
      connection is found under the new id only. */
  lemma GoneOrMoved(r: Registry, local: Option<bytes>, peer: string, id: nat, newId: string)
    requires peer in r.entries
    ensures Apply(r, local, Remove(peer)).entries == r.entries - {peer}
    ensures Apply(r, local, RemoveIfCurrent(peer, id))
         == if r.entries[peer].conn.id == id then Apply(r, local, Remove(peer)) else r
    ensures var moved := Apply(r, local, Move(peer, newId)).entries;
      && newId in moved && moved[newId] == r.entries[peer]
      && (forall p :: p in moved && p != newId <==> p in r.entries && p != newId && p != peer)
      && (forall p :: p in moved && p != newId ==> moved[p] == r.entries[p])
  {
  }
}
