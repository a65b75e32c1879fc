/** The engine's fields behind the gate of one peer, and its critical sections as methods. */
module PeerGates {
  import opened Bytes
  import opened Primitives
  import opened PeerCryptos
  import opened TrustGate

  /** The numbers of arrival and of handshakes are kept for the statements about order only. */
  class PeerGate {
    const crypto: PeerCrypto
    var session: nat
    var arrived: nat
    var heldInbound: seq<Numbered>
    var handled: seq<Numbered>
    ghost var confirmed: set<nat>

    /** The gate, given what the handlers under way hold in their hands. */
    ghost function St(tasks: seq<Task>, due: nat, releasing: seq<seq<Numbered>>): Gate
      reads this, crypto, crypto.transcript
    {
      Gate(crypto.St(), session, confirmed, arrived, tasks, heldInbound, due, releasing, handled)
    }

    constructor ()
      ensures St([], 0, []) == Closed && fresh(crypto) && fresh(crypto.transcript)
    {
      crypto := new PeerCrypto();
      session, arrived, heldInbound, handled, confirmed := 0, 0, [], [], {};
    }

    /** The first critical section of an encrypted frame. */
    method DecryptFrame(parse: Parser, plain: Option<bytes>, ghost tasks: seq<Task>, ghost due: nat,
                        ghost releasing: seq<seq<Numbered>>) returns (task: Option<Task>)
      modifies this`arrived, crypto`ratchet
      ensures St(tasks + if task.Some? then [task.value] else [], due, releasing)
        == OnArrive(parse, old(St(tasks, due, releasing)), plain)
    {
      assert tasks + [] == tasks;
      var decrypted := crypto.DecryptOpened(plain);
      if decrypted.Err? {
        return None;
      }
      match parse(decrypted.value) {
        case Some(App(content)) =>
          var m := Numbered(arrived, session, content);
          arrived := arrived + 1;
          return Some(Task(m, crypto.trust.Trusted?));
        case _ =>
          return None;
      }
    }

    /** The second one: hold the message, drop it or hand it on. */
    method SettleFrame(task: Task, ghost tasks: seq<Task>, ghost i: nat, ghost due: nat,
                       ghost releasing: seq<seq<Numbered>>)
      requires i < |tasks| && tasks[i] == task
      modifies this`heldInbound, this`handled
      ensures St(tasks[..i] + tasks[i + 1..], due, releasing) == OnSettle(old(St(tasks, due, releasing)), i)
    {
      if !task.trusted {
        if |heldInbound| < MAX_HELD_INBOUND {
          heldInbound := heldInbound + [task.m];
        }
        return;
      }
      handled := handled + [task.m];
    }

    /** The first critical section of a confirmation. */
    method ConfirmTrusted(ghost tasks: seq<Task>, ghost due: nat, ghost releasing: seq<seq<Numbered>>)
      returns (r: Result<Unit>)
      modifies this`confirmed, crypto`trust
      ensures (St(tasks, due, releasing), r) == OnConfirm(old(St(tasks, due, releasing)))
    {
      r := crypto.ConfirmTrusted();
      if r.Ok? {
        confirmed := confirmed + {session};
      }
    }

    /** The last one: take the queue. */
    method TakeHeldInbound(ghost tasks: seq<Task>, ghost due: nat, ghost releasing: seq<seq<Numbered>>)
      returns (queue: seq<Numbered>)
      requires due > 0
      modifies this`heldInbound
      ensures St(tasks, due - 1, releasing + [queue]) == OnTake(old(St(tasks, due, releasing)))
    {
      queue := heldInbound;
      heldInbound := [];
    }

    /** Handling what was taken, one message after another. */
    method HandleQueue(queue: seq<Numbered>)
      modifies this`handled
      ensures handled == old(handled) + queue
    {
      assert handled == old(handled) + queue[..0];
      for i := 0 to |queue|
        invariant handled == old(handled) + queue[..i]
      {
        handled := handled + [queue[i]];
        assert queue[..i + 1] == queue[..i] + [queue[i]];
      }
      assert queue[..|queue|] == queue;
    }
  }
}
