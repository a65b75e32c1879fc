/**
 The gate in front of the application: messages decrypted before the user has confirmed the peer are
 held back and released by the confirmation. Decrypting, holding, confirming and releasing are
 separate critical sections, so other steps may come in between.
 */
module TrustGate {
  import opened Bytes
  import opened Primitives
  import opened PeerCryptos
  import opened TrustFacts

  const MAX_HELD_INBOUND := 256

  /** What a decrypted frame says: a message for the application or the opening of the ratchet. */
  datatype Message = RatchetOpen | App(content: bytes)

  /** A message, its number of arrival, and the number of the handshake it was decrypted under. */
  datatype Numbered = Numbered(n: nat, session: nat, content: bytes)

  /** A message on its way from decryption, with the trust found there. */
  datatype Task = Task(m: Numbered, trusted: bool)

  /** `session` counts the handshakes started and `confirmed` holds those that were confirmed.
      `releasing` are the queues taken by confirmations and not handled to the end; `due` counts the
      confirmations that have yet to take the queue. */
  datatype Gate = Gate(
    crypto: State, session: nat, confirmed: set<nat>, arrived: nat, tasks: seq<Task>, held: seq<Numbered>,
    due: nat, releasing: seq<seq<Numbered>>, handled: seq<Numbered>)

  const Closed := Gate(NewConnected, 0, {}, 0, [], [], 0, [], [])

  datatype Event =
    | Crypto(call: Call)
    | Arrive(plain: Option<bytes>)
    | Settle(i: nat)
    | ConfirmPeer
    | AutoTrust
    | TakeHeld
    | HandleNext(i: nat)

  type Parser = bytes -> Option<Message>

  function OnArrive(parse: Parser, g: Gate, plain: Option<bytes>): Gate {
    var (crypto, r) := Decrypt(g.crypto, plain);
    if r.Err? then g
    else
      var next := g.(crypto := crypto);
      match parse(r.value)
      case Some(App(content)) =>
        next.(arrived := g.arrived + 1,
                tasks := g.tasks + [Task(Numbered(g.arrived, g.session, content), g.crypto.trust.Trusted?)])
      case _ => next
  }

  /** A message decrypted before trust is held while there is room; one decrypted after is handled. */
  function OnSettle(g: Gate, i: nat): Gate
    requires i < |g.tasks|
  {
    var task, rest := g.tasks[i], g.tasks[..i] + g.tasks[i + 1..];
    if task.trusted then g.(tasks := rest, handled := g.handled + [task.m])
    else if |g.held| < MAX_HELD_INBOUND then g.(tasks := rest, held := g.held + [task.m])
    else g.(tasks := rest)
  }

  function OnHandleNext(g: Gate, i: nat): Gate
    requires i < |g.releasing| && g.releasing[i] != []
  {
    g.(releasing := g.releasing[i := g.releasing[i][1..]], handled := g.handled + [g.releasing[i][0]])
  }

  function OnConfirm(g: Gate): (Gate, Result<Unit>) {
    var (crypto, r) := Confirm(g.crypto);
    (g.(crypto := crypto, confirmed := if r.Ok? then g.confirmed + {g.session} else g.confirmed), r)
  }

  function OnTake(g: Gate): Gate
    requires g.due > 0
  {
    g.(due := g.due - 1, releasing := g.releasing + [g.held], held := [])
  }

  /** A handshake that starts leaves held messages where they are. */
  function OnCrypto(c: Scheme, g: Gate, call: Call): Gate {
    g.(crypto := Apply(c, g.crypto, call), session := if Starts(c, call) then g.session + 1 else g.session)
  }

  function Step(c: Scheme, parse: Parser, g: Gate, ev: Event): Gate {
    match ev
    case Crypto(call) => if call.ConfirmSas? || call.Open? then g else OnCrypto(c, g, call)
    case Arrive(plain) => OnArrive(parse, g, plain)
    case Settle(i) => if i < |g.tasks| then OnSettle(g, i) else g
    case ConfirmPeer =>
      var (next, r) := OnConfirm(g);
      if r.Ok? then next.(due := g.due + 1) else next
    case AutoTrust => OnConfirm(g).0
    case TakeHeld => if g.due == 0 then g else OnTake(g)
    case HandleNext(i) => if i < |g.releasing| && g.releasing[i] != [] then OnHandleNext(g, i) else g
  }

  function Exec(c: Scheme, parse: Parser, g: Gate, events: seq<Event>): Gate
    decreases events
  {
    if events == [] then g else Exec(c, parse, Step(c, parse, g, events[0]), events[1..])
  }

  // ---- Every message at most once ----

  /** How often message `n` occurs. */
  function Count(s: seq<Numbered>, n: nat): nat {
    if s == [] then 0 else (if s[0].n == n then 1 else 0) + Count(s[1..], n)
  }

  function Messages(tasks: seq<Task>): seq<Numbered> {
    if tasks == [] then [] else [tasks[0].m] + Messages(tasks[1..])
  }

  function Flat(queues: seq<seq<Numbered>>): seq<Numbered> {
    if queues == [] then [] else queues[0] + Flat(queues[1..])
  }

  lemma {:induction false} CountConcat(p: seq<Numbered>, q: seq<Numbered>, n: nat)
    ensures Count(p + q, n) == Count(p, n) + Count(q, n)
  {
    if p == [] {
      assert p + q == q;
    } else {
      assert (p + q)[1..] == p[1..] + q;
      CountConcat(p[1..], q, n);
    }
  }

  lemma CountOne(m: Numbered, n: nat)
    ensures Count([m], n) == if m.n == n then 1 else 0
  {
    assert [m][1..] == [];
  }

  lemma {:induction false} MessagesConcat(p: seq<Task>, q: seq<Task>)
    ensures Messages(p + q) == Messages(p) + Messages(q)
  {
    if p == [] {
      assert p + q == q;
    } else {
      assert (p + q)[1..] == p[1..] + q;
      MessagesConcat(p[1..], q);
    }
  }

  lemma MessagesOne(task: Task)
    ensures Messages([task]) == [task.m]
  {
    assert [task][1..] == [];
  }

  lemma {:induction false} FlatConcat(p: seq<seq<Numbered>>, q: seq<seq<Numbered>>)
    ensures Flat(p + q) == Flat(p) + Flat(q)
  {
    if p == [] {
      assert p + q == q;
    } else {
      assert (p + q)[1..] == p[1..] + q;
      FlatConcat(p[1..], q);
      Reassociate(p[0], Flat(p[1..]), Flat(q));
    }
  }

  lemma FlatOne(queue: seq<Numbered>)
    ensures Flat([queue]) == queue
  {
    assert [queue][1..] == [];
    assert queue + [] == queue;
  }

  /** How often the gate has message `n`, wherever it is. */
  function Census(g: Gate, n: nat): nat {
    Count(Messages(g.tasks), n) + Count(g.held, n) + Count(Flat(g.releasing), n) + Count(g.handled, n)
  }

  ghost predicate Inv(g: Gate) {
    && Sound(g.crypto) && |g.held| <= MAX_HELD_INBOUND
    && forall n: nat :: Census(g, n) <= if n < g.arrived then 1 else 0
  }

  lemma ArriveCensus(parse: Parser, g: Gate, plain: Option<bytes>, n: nat)
    ensures var next := OnArrive(parse, g, plain);
      && Census(next, n) == Census(g, n) + (if next.arrived > g.arrived && n == g.arrived then 1 else 0)
      && g.arrived <= next.arrived <= g.arrived + 1
  {
    var next := OnArrive(parse, g, plain);
    if next.arrived > g.arrived {
      AddTask(g.tasks, next.tasks[|g.tasks|], n);
    }
  }

  lemma AddTask(tasks: seq<Task>, task: Task, n: nat)
    ensures Count(Messages(tasks + [task]), n) == Count(Messages(tasks), n) + if task.m.n == n then 1 else 0
  {
    MessagesConcat(tasks, [task]);
    MessagesOne(task);
    CountConcat(Messages(tasks), [task.m], n);
    CountOne(task.m, n);
  }

  lemma RemoveTask(tasks: seq<Task>, i: nat, n: nat)
    requires i < |tasks|
    ensures Count(Messages(tasks), n)
      == Count(Messages(tasks[..i] + tasks[i + 1..]), n) + if tasks[i].m.n == n then 1 else 0
  {
    var p, task, q := tasks[..i], tasks[i], tasks[i + 1..];
    assert tasks == p + [task] + q;
    MessagesConcat(p + [task], q);
    MessagesConcat(p, q);
    CountConcat(Messages(p + [task]), Messages(q), n);
    CountConcat(Messages(p), Messages(q), n);
    AddTask(p, task, n);
  }

  lemma AddOne(s: seq<Numbered>, m: Numbered, n: nat)
    ensures Count(s + [m], n) == Count(s, n) + if m.n == n then 1 else 0
  {
    CountConcat(s, [m], n);
    CountOne(m, n);
  }

  /** Settling moves a message on, or drops it when the queue is full. */
  lemma SettleCensus(g: Gate, i: nat, n: nat)
    requires i < |g.tasks|
    ensures var next, m := OnSettle(g, i), g.tasks[i].m;
      if g.tasks[i].trusted || |g.held| < 256 then Census(next, n) == Census(g, n)
      else Census(next, n) == Census(g, n) - if m.n == n then 1 else 0
  {
    RemoveTask(g.tasks, i, n);
    AddOne(g.handled, g.tasks[i].m, n);
    AddOne(g.held, g.tasks[i].m, n);
  }

  lemma TakeCensus(g: Gate, n: nat)
    requires g.due > 0
    ensures Census(OnTake(g), n) == Census(g, n)
  {
    FlatConcat(g.releasing, [g.held]);
    FlatOne(g.held);
    CountConcat(Flat(g.releasing), g.held, n);
  }

  lemma HandleCensus(g: Gate, i: nat, n: nat)
    requires i < |g.releasing| && g.releasing[i] != []
    ensures Census(OnHandleNext(g, i), n) == Census(g, n)
  {
    var queue, p, q := g.releasing[i], g.releasing[..i], g.releasing[i + 1..];
    assert g.releasing == p + [queue] + q;
    assert g.releasing[i := queue[1..]] == p + [queue[1..]] + q;
    CountQueues(p, queue, q, n);
    CountQueues(p, queue[1..], q, n);
    AddOne(g.handled, queue[0], n);
  }

  lemma CountQueues(p: seq<seq<Numbered>>, queue: seq<Numbered>, q: seq<seq<Numbered>>, n: nat)
    ensures Count(Flat(p + [queue] + q), n) == Count(Flat(p), n) + Count(queue, n) + Count(Flat(q), n)
  {
    FlatConcat(p + [queue], q);
    FlatConcat(p, [queue]);
    FlatOne(queue);
    CountConcat(Flat(p) + queue, Flat(q), n);
    CountConcat(Flat(p), queue, n);
  }

  lemma StepCensus(c: Scheme, parse: Parser, g: Gate, ev: Event, n: nat)
    ensures var next := Step(c, parse, g, ev);
      && Census(next, n) <= Census(g, n) + (if next.arrived > g.arrived && n == g.arrived then 1 else 0)
      && g.arrived <= next.arrived
  {
    match ev
    case Arrive(plain) => ArriveCensus(parse, g, plain, n);
    case Settle(i) => if i < |g.tasks| { SettleCensus(g, i, n); }
    case TakeHeld => if g.due > 0 { TakeCensus(g, n); }
    case HandleNext(i) => if i < |g.releasing| && g.releasing[i] != [] { HandleCensus(g, i, n); }
    case _ =>
  }

  lemma StepKeepsInv(c: Scheme, parse: Parser, g: Gate, ev: Event)
    requires Inv(g)
    ensures Inv(Step(c, parse, g, ev))
  {
    var next := Step(c, parse, g, ev);
    StepSound(c, parse, g, ev);
    forall n: nat ensures Census(next, n) <= if n < next.arrived then 1 else 0 {
      StepCensus(c, parse, g, ev, n);
    }
  }

  lemma StepSound(c: Scheme, parse: Parser, g: Gate, ev: Event)
    requires Sound(g.crypto) && |g.held| <= MAX_HELD_INBOUND
    ensures var next := Step(c, parse, g, ev);
      && Sound(next.crypto) && |next.held| <= MAX_HELD_INBOUND
  {
    if ev.Crypto? {
      ApplyKeepsSound(c, g.crypto, ev.call);
    }
  }

  lemma {:induction false} RunKeepsInv(c: Scheme, parse: Parser, g: Gate, events: seq<Event>)
    requires Inv(g)
    ensures Inv(Exec(c, parse, g, events))
    decreases events
  {
    if events != [] {
      StepKeepsInv(c, parse, g, events[0]);
      RunKeepsInv(c, parse, Step(c, parse, g, events[0]), events[1..]);
    }
  }

  lemma {:induction false} CountTwice(s: seq<Numbered>, i: nat, j: nat)
    requires i < j < |s|
    ensures s[i].n == s[j].n ==> Count(s, s[i].n) >= 2
  {
    if i == 0 {
      CountOnce(s[1..], j - 1);
    } else {
      CountTwice(s[1..], i - 1, j - 1);
    }
  }

  lemma {:induction false} CountOnce(s: seq<Numbered>, i: nat)
    requires i < |s|
    ensures Count(s, s[i].n) >= 1
  {
    if i > 0 {
      CountOnce(s[1..], i - 1);
    }
  }

  predicate Distinct(s: seq<Numbered>) {
    forall i, j :: 0 <= i < j < |s| ==> s[i].n != s[j].n
  }

  predicate Apart(s: seq<Numbered>, t: seq<Numbered>) {
    forall i, j :: 0 <= i < |s| && 0 <= j < |t| ==> s[i].n != t[j].n
  }

  /** However frames, confirmations, releases and handshakes interleave, no message is handled twice,
      none is handled that is still held, and at most 256 are held. */
  lemma HandledAtMostOnce(c: Scheme, parse: Parser, events: seq<Event>)
    ensures var g := Exec(c, parse, Closed, events);
      && |g.held| <= 256 && Distinct(g.handled) && Apart(g.handled, g.held)
      && (Verified(g.crypto) ==> g.crypto.secret.Some? && g.crypto.ratchet.Some?)
  {
    RunKeepsInv(c, parse, Closed, events);
    var g := Exec(c, parse, Closed, events);
    forall i, j | 0 <= i < j < |g.handled| ensures g.handled[i].n != g.handled[j].n {
      CountTwice(g.handled, i, j);
      assert Census(g, g.handled[i].n) <= 1;
    }
    forall i, j | 0 <= i < |g.handled| && 0 <= j < |g.held| ensures g.handled[i].n != g.held[j].n {
      CountOnce(g.handled, i);
      CountOnce(g.held, j);
      assert Census(g, g.handled[i].n) <= 1;
    }
  }

  // ---- Nothing before a confirmation ----

  /** Every frame that decrypts, a message or not, lets the answering side send from then on; what is not a
      message goes no further. */
  lemma ArrivalOpens(parse: Parser, g: Gate, plain: bytes)
    requires Sound(g.crypto) && (g.crypto.trust.SasPending? || g.crypto.trust.Trusted?)
    ensures var next := OnArrive(parse, g, Some(plain));
      && (MayEncrypt(next.crypto).Ok? <==>
            g.crypto.trust.Trusted? && (g.crypto.ratchet.value.sendReady || !g.crypto.ratchet.value.initiator))
      && (parse(plain).None? || parse(plain).value.RatchetOpen? ==> next == g.(crypto := next.crypto))
  {
  }

  predicate NoConfirmation(events: seq<Event>) {
    forall i :: 0 <= i < |events| ==> !events[i].ConfirmPeer? && !events[i].AutoTrust?
  }

  ghost predicate Shut(g: Gate) {
    && Sound(g.crypto) && !g.crypto.trust.Trusted? && g.due == 0 && g.releasing == [] && g.handled == []
    && forall i :: 0 <= i < |g.tasks| ==> !g.tasks[i].trusted
  }

  lemma StaysShut(c: Scheme, parse: Parser, g: Gate, ev: Event)
    requires Shut(g) && !ev.ConfirmPeer? && !ev.AutoTrust?
    ensures Shut(Step(c, parse, g, ev))
  {
    if ev.Crypto? {
      ApplyKeepsSound(c, g.crypto, ev.call);
      TrustChanges(c, g.crypto, ev.call);
    }
  }

  lemma {:induction false} RunStaysShut(c: Scheme, parse: Parser, g: Gate, events: seq<Event>)
    requires Shut(g) && NoConfirmation(events)
    ensures Shut(Exec(c, parse, g, events))
    decreases events
  {
    if events != [] {
      StaysShut(c, parse, g, events[0]);
      RunStaysShut(c, parse, Step(c, parse, g, events[0]), events[1..]);
    }
  }

  /** Without a confirmation nothing reaches the application, whatever arrives. */
  lemma NothingUnconfirmed(c: Scheme, parse: Parser, events: seq<Event>)
    requires NoConfirmation(events)
    ensures Exec(c, parse, Closed, events).handled == []
  {
    RunStaysShut(c, parse, Closed, events);
  }
}
