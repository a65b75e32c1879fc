/** When messages are handled in the order of their arrival. */
module GateOrder {
  import opened Bytes
  import opened Primitives
  import opened PeerCryptos
  import opened TrustFacts
  import opened TrustGate

  /** Everything the gate knows of, in the order in which it would come out. */
  function All(g: Gate): seq<Numbered> {
    g.handled + Flat(g.releasing) + g.held + Messages(g.tasks)
  }

  ghost predicate InOrder(s: seq<Numbered>) {
    forall i, j :: 0 <= i < j < |s| ==> s[i].n < s[j].n
  }

  ghost predicate Below(s: seq<Numbered>, bound: nat) {
    forall i :: 0 <= i < |s| ==> s[i].n < bound
  }

  ghost predicate Ordered(g: Gate) {
    InOrder(All(g)) && Below(All(g), g.arrived)
  }

  /** Nothing older waits: a message is handled or held only when those before it have been. A message
      that finds the queue full is dropped and overtakes nobody. */
  predicate InTurn(g: Gate, ev: Event) {
    match ev
    case Settle(i) =>
      i < |g.tasks| ==>
        if g.tasks[i].trusted then Flat(g.releasing) == [] && g.held == [] && i == 0
        else i == 0 || |g.held| >= 256
    case HandleNext(i) => i < |g.releasing| && g.releasing[i] != [] ==> Flat(g.releasing[..i]) == []
    case _ => true
  }

  /** Taking `m` out and putting it in front of `x` keeps the order exactly if there is no `x`. */
  lemma MovesForwardIff(p: seq<Numbered>, x: seq<Numbered>, m: Numbered, y: seq<Numbered>)
    requires InOrder(p + x + [m] + y)
    ensures InOrder(p + [m] + x + y) <==> x == []
  {
    if x == [] {
      assert p + [m] + x + y == p + x + [m] + y;
    } else {
      assert (p + x + [m] + y)[|p|] == x[0] && (p + x + [m] + y)[|p| + |x|] == m;
      assert (p + [m] + x + y)[|p|] == m && (p + [m] + x + y)[|p| + 1] == x[0];
    }
  }

  lemma SameMembersBelow(p: seq<Numbered>, x: seq<Numbered>, m: Numbered, y: seq<Numbered>, bound: nat)
    requires Below(p + x + [m] + y, bound)
    ensures Below(p + [m] + x + y, bound)
  {
    var s, t := p + x + [m] + y, p + [m] + x + y;
    forall i | 0 <= i < |t| ensures t[i].n < bound {
      assert t[i] == s[if i < |p| then i else if i == |p| then |p| + |x| else if i <= |p| + |x| then i - 1 else i];
    }
  }

  /** One message moves forward past `x`. */
  lemma MoveKeepsOrderIff(g: Gate, g': Gate, p: seq<Numbered>, x: seq<Numbered>, m: Numbered, y: seq<Numbered>)
    requires Ordered(g) && g'.arrived == g.arrived
    requires All(g) == p + x + [m] + y && All(g') == p + [m] + x + y
    ensures Ordered(g') <==> x == []
  {
    MovesForwardIff(p, x, m, y);
    SameMembersBelow(p, x, m, y, g.arrived);
  }

  lemma {:induction false} MessagesLength(tasks: seq<Task>)
    ensures |Messages(tasks)| == |tasks|
  {
    if tasks != [] {
      MessagesLength(tasks[1..]);
    }
  }

  lemma SplitTasks(tasks: seq<Task>, i: nat)
    requires i < |tasks|
    ensures Messages(tasks) == Messages(tasks[..i]) + [tasks[i].m] + Messages(tasks[i + 1..])
    ensures Messages(tasks[..i] + tasks[i + 1..]) == Messages(tasks[..i]) + Messages(tasks[i + 1..])
    ensures |Messages(tasks[..i])| == i
  {
    var p, task, q := tasks[..i], tasks[i], tasks[i + 1..];
    assert tasks == p + [task] + q;
    MessagesConcat(p + [task], q);
    MessagesConcat(p, [task]);
    MessagesOne(task);
    MessagesConcat(p, q);
    MessagesLength(p);
  }

  lemma RegroupHandled(h: seq<Numbered>, f: seq<Numbered>, d: seq<Numbered>, b: seq<Numbered>, m: Numbered, a: seq<Numbered>)
    ensures h + f + d + (b + [m] + a) == h + (f + d + b) + [m] + a
    ensures (h + [m]) + f + d + (b + a) == h + [m] + (f + d + b) + a
  {
  }

  lemma RegroupHeld(h: seq<Numbered>, f: seq<Numbered>, d: seq<Numbered>, b: seq<Numbered>, m: Numbered, a: seq<Numbered>)
    ensures h + f + d + (b + [m] + a) == (h + f + d) + b + [m] + a
    ensures h + f + (d + [m]) + (b + a) == (h + f + d) + [m] + b + a
  {
  }

  lemma RegroupReleased(h: seq<Numbered>, p: seq<Numbered>, m: Numbered, rest: seq<Numbered>, q: seq<Numbered>,
                        d: seq<Numbered>, t: seq<Numbered>)
    ensures h + (p + ([m] + rest) + q) + d + t == h + p + [m] + (rest + q + d + t)
    ensures (h + [m]) + (p + rest + q) + d + t == h + [m] + p + (rest + q + d + t)
  {
  }

  lemma HandledAtOnce(g: Gate, i: nat)
    requires Ordered(g) && i < |g.tasks| && g.tasks[i].trusted
    ensures Ordered(OnSettle(g, i)) <==> InTurn(g, Settle(i))
  {
    SplitTasks(g.tasks, i);
    var m, before, after := g.tasks[i].m, Messages(g.tasks[..i]), Messages(g.tasks[i + 1..]);
    RegroupHandled(g.handled, Flat(g.releasing), g.held, before, m, after);
    MoveKeepsOrderIff(g, OnSettle(g, i), g.handled, Flat(g.releasing) + g.held + before, m, after);
  }

  lemma HeldBack(g: Gate, i: nat)
    requires Ordered(g) && i < |g.tasks| && !g.tasks[i].trusted && |g.held| < MAX_HELD_INBOUND
    ensures Ordered(OnSettle(g, i)) <==> i == 0
  {
    SplitTasks(g.tasks, i);
    var m, before, after := g.tasks[i].m, Messages(g.tasks[..i]), Messages(g.tasks[i + 1..]);
    RegroupHeld(g.handled, Flat(g.releasing), g.held, before, m, after);
    MoveKeepsOrderIff(g, OnSettle(g, i), g.handled + Flat(g.releasing) + g.held, before, m, after);
  }

  lemma DroppingKeepsOrder(p: seq<Numbered>, m: Numbered, q: seq<Numbered>, bound: nat)
    requires InOrder(p + [m] + q) && Below(p + [m] + q, bound)
    ensures InOrder(p + q) && Below(p + q, bound)
  {
    var all, less := p + [m] + q, p + q;
    assert forall k :: 0 <= k < |less| ==> less[k] == all[if k < |p| then k else k + 1];
  }

  lemma DroppedFull(g: Gate, i: nat)
    requires Ordered(g) && i < |g.tasks| && !g.tasks[i].trusted && |g.held| >= MAX_HELD_INBOUND
    ensures Ordered(OnSettle(g, i))
  {
    SplitTasks(g.tasks, i);
    var p := g.handled + Flat(g.releasing) + g.held;
    var m, before, after := g.tasks[i].m, Messages(g.tasks[..i]), Messages(g.tasks[i + 1..]);
    RegroupHeld(g.handled, Flat(g.releasing), g.held, before, m, after);
    Reassociate(p, before, after);
    DroppingKeepsOrder(p + before, m, after, g.arrived);
  }

  lemma ReleasedNext(g: Gate, i: nat)
    requires Ordered(g) && i < |g.releasing| && g.releasing[i] != []
    ensures Ordered(OnHandleNext(g, i)) <==> InTurn(g, HandleNext(i))
  {
    var queue, p, q := g.releasing[i], g.releasing[..i], g.releasing[i + 1..];
    assert g.releasing == p + [queue] + q && g.releasing[i := queue[1..]] == p + [queue[1..]] + q;
    FlatThree(p, queue, q);
    FlatThree(p, queue[1..], q);
    assert queue == [queue[0]] + queue[1..];
    RegroupReleased(g.handled, Flat(p), queue[0], queue[1..], Flat(q), g.held, Messages(g.tasks));
    MoveKeepsOrderIff(g, OnHandleNext(g, i), g.handled, Flat(p), queue[0],
                      queue[1..] + Flat(q) + g.held + Messages(g.tasks));
  }

  lemma FlatThree(p: seq<seq<Numbered>>, queue: seq<Numbered>, q: seq<seq<Numbered>>)
    ensures Flat(p + [queue] + q) == Flat(p) + queue + Flat(q)
  {
    FlatConcat(p + [queue], q);
    FlatConcat(p, [queue]);
    FlatOne(queue);
  }

  lemma ArrivesLast(parse: Parser, g: Gate, plain: Option<bytes>)
    requires Ordered(g)
    ensures Ordered(OnArrive(parse, g, plain))
  {
    var next := OnArrive(parse, g, plain);
    if next.arrived > g.arrived {
      var task := next.tasks[|g.tasks|];
      MessagesConcat(g.tasks, [task]);
      MessagesOne(task);
      Reassociate(g.handled + Flat(g.releasing) + g.held, Messages(g.tasks), [task.m]);
      AppendingKeepsOrder(All(g), task.m, g.arrived);
    }
  }

  lemma AppendingKeepsOrder(s: seq<Numbered>, m: Numbered, bound: nat)
    requires InOrder(s) && Below(s, bound) && m.n == bound
    ensures InOrder(s + [m]) && Below(s + [m], bound + 1)
  {
  }

  lemma TakenInPlace(g: Gate)
    requires g.due > 0
    ensures All(OnTake(g)) == All(g)
  {
    FlatConcat(g.releasing, [g.held]);
    FlatOne(g.held);
  }

  /** A step keeps the order exactly if it is taken in turn. */
  lemma StepKeepsOrderIff(c: Scheme, parse: Parser, g: Gate, ev: Event)
    requires Ordered(g)
    ensures Ordered(Step(c, parse, g, ev)) <==> InTurn(g, ev)
  {
    match ev
    case Arrive(plain) => ArrivesLast(parse, g, plain);
    case Settle(i) =>
      if i < |g.tasks| {
        if g.tasks[i].trusted { HandledAtOnce(g, i); }
        else if |g.held| < MAX_HELD_INBOUND { HeldBack(g, i); }
        else { DroppedFull(g, i); }
      }
    case TakeHeld => if g.due > 0 { TakenInPlace(g); }
    case HandleNext(i) => if i < |g.releasing| && g.releasing[i] != [] { ReleasedNext(g, i); }
    case _ => assert All(Step(c, parse, g, ev)) == All(g);
  }

  predicate AllInTurn(c: Scheme, parse: Parser, g: Gate, events: seq<Event>)
    decreases events
  {
    events == [] || (InTurn(g, events[0]) && AllInTurn(c, parse, Step(c, parse, g, events[0]), events[1..]))
  }

  lemma {:induction false} RunKeepsOrder(c: Scheme, parse: Parser, g: Gate, events: seq<Event>)
    requires Ordered(g) && AllInTurn(c, parse, g, events)
    ensures Ordered(Exec(c, parse, g, events))
    decreases events
  {
    if events != [] {
      StepKeepsOrderIff(c, parse, g, events[0]);
      RunKeepsOrder(c, parse, Step(c, parse, g, events[0]), events[1..]);
    }
  }

  /** In every run of critical sections taken in turn, messages are handled in the order of their
      arrival and never past one that is still held or being released. */
  lemma HandledInOrder(c: Scheme, parse: Parser, events: seq<Event>)
    requires AllInTurn(c, parse, Closed, events)
    ensures InOrder(All(Exec(c, parse, Closed, events)))
  {
    RunKeepsOrder(c, parse, Closed, events);
  }

  // ---- Runs that are not in turn ----

  lemma ExecCons(c: Scheme, parse: Parser, g: Gate, ev: Event, rest: seq<Event>)
    ensures Exec(c, parse, g, [ev] + rest) == Exec(c, parse, Step(c, parse, g, ev), rest)
  {
    assert ([ev] + rest)[1..] == rest;
  }

  /** Nothing is on its way and a string is shown. */
  predicate Quiet(g: Gate) {
    g.tasks == [] && g.releasing == [] && g.due == 0 && g.crypto.trust.SasPending? && g.crypto.ratchet.Some?
  }

  /** A message that arrives between the confirmation and the release overtakes the held one. */
  lemma ReleaseOvertaken(c: Scheme, parse: Parser, g: Gate, m: Numbered, plain: bytes, content: bytes)
    requires Quiet(g) && g.held == [m] && parse(plain) == Some(App(content))
    ensures Exec(c, parse, g, [ConfirmPeer, Arrive(Some(plain)), Settle(0), TakeHeld, HandleNext(0)]).handled
      == g.handled + [Numbered(g.arrived, g.session, content), m]
  {
    var g1 := Step(c, parse, g, ConfirmPeer);
    var g2 := Step(c, parse, g1, Arrive(Some(plain)));
    var g3 := Step(c, parse, g2, Settle(0));
    var g4 := Step(c, parse, g3, TakeHeld);
    var g5 := Step(c, parse, g4, HandleNext(0));
    assert g3.handled == g.handled + [Numbered(g.arrived, g.session, content)];
    assert g4.releasing == [[m]];
    assert g5.handled == g.handled + [Numbered(g.arrived, g.session, content), m];
    RunOfFive(c, parse, g, ConfirmPeer, Arrive(Some(plain)), Settle(0), TakeHeld, HandleNext(0));
  }

  lemma RunOfFive(c: Scheme, parse: Parser, g: Gate, a: Event, b: Event, d: Event, e: Event, f: Event)
    ensures Exec(c, parse, g, [a, b, d, e, f])
      == Step(c, parse, Step(c, parse, Step(c, parse, Step(c, parse, Step(c, parse, g, a), b), d), e), f)
  {
    ExecCons(c, parse, g, a, [b, d, e, f]);
    assert [a] + [b, d, e, f] == [a, b, d, e, f];
    RunOfFour(c, parse, Step(c, parse, g, a), b, d, e, f);
  }

  lemma RunOfFour(c: Scheme, parse: Parser, g: Gate, a: Event, b: Event, d: Event, e: Event)
    ensures Exec(c, parse, g, [a, b, d, e])
      == Step(c, parse, Step(c, parse, Step(c, parse, Step(c, parse, g, a), b), d), e)
  {
    ExecCons(c, parse, g, a, [b, d, e]);
    assert [a] + [b, d, e] == [a, b, d, e];
    ExecCons(c, parse, Step(c, parse, g, a), b, [d, e]);
    assert [b] + [d, e] == [b, d, e];
    RunOfTwo(c, parse, Step(c, parse, Step(c, parse, g, a), b), d, e);
  }

  lemma RunOfTwo(c: Scheme, parse: Parser, g: Gate, a: Event, b: Event)
    ensures Exec(c, parse, g, [a, b]) == Step(c, parse, Step(c, parse, g, a), b)
  {
    ExecCons(c, parse, g, a, [b]);
    assert [a] + [b] == [a, b];
    ExecCons(c, parse, Step(c, parse, g, a), b, []);
    assert [b] + [] == [b];
  }

  /** A message decrypted before the confirmation and queued after the release stays held although the
      peer is trusted, and the next one overtakes it. */
  lemma HeldAfterRelease(c: Scheme, parse: Parser, g: Gate, plain: bytes, content: bytes, plain': bytes, content': bytes)
    requires Quiet(g) && g.held == [] && parse(plain) == Some(App(content)) && parse(plain') == Some(App(content'))
    ensures var g' := Exec(c, parse, g, [Arrive(Some(plain)), ConfirmPeer, TakeHeld, Settle(0)]);
      var end := Exec(c, parse, g', [Arrive(Some(plain')), Settle(0)]);
      && end.crypto.trust.Trusted? && end.held == [Numbered(g.arrived, g.session, content)]
      && end.handled == g.handled + [Numbered(g.arrived + 1, g.session, content')]
  {
    var g1 := Step(c, parse, g, Arrive(Some(plain)));
    var g2 := Step(c, parse, g1, ConfirmPeer);
    var g3 := Step(c, parse, g2, TakeHeld);
    var g4 := Step(c, parse, g3, Settle(0));
    assert g1.tasks == [Task(Numbered(g.arrived, g.session, content), false)];
    assert g4.held == [Numbered(g.arrived, g.session, content)] && g4.tasks == [];
    RunOfFour(c, parse, g, Arrive(Some(plain)), ConfirmPeer, TakeHeld, Settle(0));
    RunOfTwo(c, parse, g4, Arrive(Some(plain')), Settle(0));
  }

  /** An automatic confirmation does not release: the next message overtakes the held one. */
  lemma AutoTrustOvertakes(c: Scheme, parse: Parser, g: Gate, m: Numbered, plain: bytes, content: bytes)
    requires Quiet(g) && g.held == [m] && parse(plain) == Some(App(content))
    ensures var end := Exec(c, parse, Step(c, parse, g, AutoTrust), [Arrive(Some(plain)), Settle(0)]);
      end.handled == g.handled + [Numbered(g.arrived, g.session, content)] && end.held == [m] && end.due == 0
  {
    var g1 := Step(c, parse, g, AutoTrust);
    RunOfTwo(c, parse, g1, Arrive(Some(plain)), Settle(0));
  }
}
