/**
 Two endpoints that dial each other at the same time. Connection `BY_SMALL` was dialed by the one
 with the smaller id, `BY_BIG` by the other; either side registers either of them whenever it likes,
 and sees sooner or later what the other side has closed.
 */
module DialGlare {
  import opened Bytes
  import opened Connections

  const BY_SMALL := 0
  const BY_BIG := 1

  datatype Side = Side(reg: Registry, registered: set<nat>)

  datatype Net = Net(small: Side, big: Side)

  datatype Event = Add(byBig: bool) | HearClosed(id: nat) | Drop(id: nat)

  datatype Act = OnSmall(ev: Event) | OnBig(ev: Event)

  /** One side's step; `remote` is the other endpoint, of which `closedThere` are closed. */
  function React(local: bytes, remote: bytes, isBig: bool, peer: string, s: Side, closedThere: set<nat>,
          ev: Event): Side {
    match ev
    case Add(byBig) =>
      var id := if byBig then BY_BIG else BY_SMALL;
      Side(Register(s.reg, Some(local), peer, Conn(id, remote), byBig == isBig).0, s.registered + {id})
    case HearClosed(id) => if id in closedThere then s.(reg := s.reg.(closed := s.reg.closed + {id})) else s
    case Drop(id) => if id in s.reg.closed then s.(reg := UnregisterIfCurrent(s.reg, peer, id).0) else s
  }

  /** `peer` and `peer'` are the names under which the sides know each other. */
  function Step(small: bytes, big: bytes, peer: string, peer': string, net: Net, act: Act): Net {
    match act
    case OnSmall(ev) => net.(small := React(small, big, false, peer, net.small, net.big.reg.closed, ev))
    case OnBig(ev) => net.(big := React(big, small, true, peer', net.big, net.small.reg.closed, ev))
  }

  function Exec(small: bytes, big: bytes, peer: string, peer': string, net: Net, acts: seq<Act>): Net
    decreases acts
  {
    if acts == [] then net else Exec(small, big, peer, peer', Step(small, big, peer, peer', net, acts[0]), acts[1..])
  }

  const NewSide := Side(Registry(map[], {}), {})

  predicate Holds(s: Side, peer: string, id: nat) {
    peer in s.reg.entries && s.reg.entries[peer].conn.id == id
  }

  ghost predicate SideInv(s: Side, isBig: bool, peer: string) {
    && BY_SMALL !in s.reg.closed
    && (BY_SMALL in s.registered ==> Holds(s, peer, BY_SMALL))
    && (BY_SMALL in s.registered && BY_BIG in s.registered ==> BY_BIG in s.reg.closed)
    && (peer in s.reg.entries ==>
          var e := s.reg.entries[peer];
          (e.conn.id == BY_SMALL && e.outbound == !isBig) || (e.conn.id == BY_BIG && e.outbound == isBig))
    && (BY_BIG in s.registered ==> Holds(s, peer, BY_BIG) || BY_BIG in s.reg.closed)
  }

  lemma ReactKeeps(local: bytes, remote: bytes, isBig: bool, peer: string, s: Side, closedThere: set<nat>, ev: Event)
    requires if isBig then Less(remote, local) else Less(local, remote)
    requires SideInv(s, isBig, peer) && BY_SMALL !in closedThere
    ensures SideInv(React(local, remote, isBig, peer, s, closedThere, ev), isBig, peer)
  {
    LessTotal(local, remote);
  }

  lemma {:induction false} RunKeeps(small: bytes, big: bytes, peer: string, peer': string, net: Net, acts: seq<Act>)
    requires Less(small, big) && SideInv(net.small, false, peer) && SideInv(net.big, true, peer')
    ensures var end := Exec(small, big, peer, peer', net, acts);
      SideInv(end.small, false, peer) && SideInv(end.big, true, peer')
    decreases acts
  {
    if acts != [] {
      match acts[0] {
        case OnSmall(ev) => ReactKeeps(small, big, false, peer, net.small, net.big.reg.closed, ev);
        case OnBig(ev) => ReactKeeps(big, small, true, peer', net.big, net.small.reg.closed, ev);
      }
      RunKeeps(small, big, peer, peer', Step(small, big, peer, peer', net, acts[0]), acts[1..]);
    }
  }

  /** In every order of registrations and of news of closing, the connection dialed by the smaller
      endpoint is never closed; once both sides have registered it they hold it, and a side that has
      registered both has closed the other one. */
  lemma GlareConverges(small: bytes, big: bytes, peer: string, peer': string, acts: seq<Act>)
    requires Less(small, big)
    ensures var end := Exec(small, big, peer, peer', Net(NewSide, NewSide), acts);
      && BY_SMALL !in end.small.reg.closed && BY_SMALL !in end.big.reg.closed
      && (BY_SMALL in end.small.registered ==> Holds(end.small, peer, BY_SMALL))
      && (BY_SMALL in end.big.registered ==> Holds(end.big, peer', BY_SMALL))
      && (end.small.registered == {BY_SMALL, BY_BIG} ==> BY_BIG in end.small.reg.closed)
      && (end.big.registered == {BY_SMALL, BY_BIG} ==> BY_BIG in end.big.reg.closed)
  {
    RunKeeps(small, big, peer, peer', Net(NewSide, NewSide), acts);
  }

  /** The tie-break works per peer id: after the first connection has been moved, the second one meets
      it exactly when the move was to the same id; otherwise both stay open side by side. */
  lemma TieBreakSeesMovedIff(local: bytes, remote: bytes, oldId: string, newId: string, outbound: bool)
    ensures var first, second := Conn(BY_BIG, remote), Conn(BY_SMALL, remote);
      var moved := Rekey(Register(NewSide.reg, Some(local), oldId, first, outbound).0, oldId, newId);
      var (end, outcome) := Register(moved, Some(local), oldId, second, !outbound);
      && (outcome != Registered <==> oldId == newId)
      && (end.closed != {} <==> oldId == newId)
      && (oldId != newId ==>
            && oldId in end.entries && end.entries[oldId].conn == second
            && newId in end.entries && end.entries[newId].conn == first)
  {
  }
}
