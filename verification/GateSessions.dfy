/** Under which handshake a message that is handled was decrypted, and whether that was confirmed. */
module GateSessions {
  import opened Bytes
  import opened Primitives
  import opened PeerCryptos
  import opened TrustFacts
  import opened TrustGate
  import opened GateOrder

  predicate Known(s: seq<Numbered>, confirmed: set<nat>) {
    forall i :: 0 <= i < |s| ==> s[i].session in confirmed
  }

  /** Whatever is handled, or sure to be, was decrypted under a confirmed handshake. */
  ghost predicate FromConfirmed(g: Gate) {
    && Sound(g.crypto)
    && (g.crypto.trust.Trusted? ==> g.session in g.confirmed)
    && (forall i :: 0 <= i < |g.tasks| && g.tasks[i].trusted ==> g.tasks[i].m.session in g.confirmed)
    && (forall i :: 0 <= i < |g.releasing| ==> Known(g.releasing[i], g.confirmed))
    && Known(g.handled, g.confirmed)
  }

  /** The queue taken holds only messages of confirmed handshakes. */
  predicate TakesConfirmed(g: Gate, ev: Event) {
    ev.TakeHeld? && g.due > 0 ==> Known(g.held, g.confirmed)
  }

  /** The one step that can hand over messages of a handshake nobody confirmed is taking the queue. */
  lemma StepKeepsConfirmedIff(c: Scheme, parse: Parser, g: Gate, ev: Event)
    requires FromConfirmed(g)
    ensures FromConfirmed(Step(c, parse, g, ev)) <==> TakesConfirmed(g, ev)
  {
    var next := Step(c, parse, g, ev);
    match ev
    case Crypto(call) =>
      ApplyKeepsSound(c, g.crypto, call);
      TrustChanges(c, g.crypto, call);
    case TakeHeld =>
      if g.due > 0 {
        assert next.releasing[|g.releasing|] == g.held;
      }
    case _ =>
  }

  predicate AllTakeConfirmed(c: Scheme, parse: Parser, g: Gate, events: seq<Event>)
    decreases events
  {
    events == []
    || (TakesConfirmed(g, events[0]) && AllTakeConfirmed(c, parse, Step(c, parse, g, events[0]), events[1..]))
  }

  lemma {:induction false} RunFromConfirmed(c: Scheme, parse: Parser, g: Gate, events: seq<Event>)
    requires FromConfirmed(g) && AllTakeConfirmed(c, parse, g, events)
    ensures FromConfirmed(Exec(c, parse, g, events))
    decreases events
  {
    if events != [] {
      StepKeepsConfirmedIff(c, parse, g, events[0]);
      RunFromConfirmed(c, parse, Step(c, parse, g, events[0]), events[1..]);
    }
  }

  /** In every run whose releases take only messages of confirmed handshakes, each message handled was
      decrypted under a handshake that has been confirmed. */
  lemma HandledWereConfirmed(c: Scheme, parse: Parser, events: seq<Event>)
    requires AllTakeConfirmed(c, parse, Closed, events)
    ensures var g := Exec(c, parse, Closed, events); Known(g.handled, g.confirmed)
  {
    RunFromConfirmed(c, parse, Closed, events);
  }

  /** A handshake that starts finds nothing held, on its way untrusted, or due for release. */
  predicate StartsClean(c: Scheme, g: Gate, ev: Event) {
    ev.Crypto? && Starts(c, ev.call) ==>
      && g.held == [] && g.due == 0
      && forall i :: 0 <= i < |g.tasks| ==> g.tasks[i].trusted
  }

  /** What is not yet trusted belongs to the handshake under way, and a release that is due to a
      confirmation of it. */
  ghost predicate Current(g: Gate) {
    && FromConfirmed(g)
    && (g.due > 0 ==> g.session in g.confirmed)
    && (forall i :: 0 <= i < |g.held| ==> g.held[i].session == g.session)
    && (forall i :: 0 <= i < |g.tasks| && !g.tasks[i].trusted ==> g.tasks[i].m.session == g.session)
  }

  lemma CleanStartsTakeConfirmed(c: Scheme, parse: Parser, g: Gate, ev: Event)
    requires Current(g) && StartsClean(c, g, ev)
    ensures TakesConfirmed(g, ev) && Current(Step(c, parse, g, ev))
  {
    StepKeepsConfirmedIff(c, parse, g, ev);
  }

  predicate AllStartClean(c: Scheme, parse: Parser, g: Gate, events: seq<Event>)
    decreases events
  {
    events == []
    || (StartsClean(c, g, events[0]) && AllStartClean(c, parse, Step(c, parse, g, events[0]), events[1..]))
  }

  lemma {:induction false} CleanRun(c: Scheme, parse: Parser, g: Gate, events: seq<Event>)
    requires Current(g) && AllStartClean(c, parse, g, events)
    ensures AllTakeConfirmed(c, parse, g, events)
    decreases events
  {
    if events != [] {
      CleanStartsTakeConfirmed(c, parse, g, events[0]);
      CleanRun(c, parse, Step(c, parse, g, events[0]), events[1..]);
    }
  }

  /** That is so whenever each handshake that starts finds the gate clean. */
  lemma CleanStartsConfirm(c: Scheme, parse: Parser, events: seq<Event>)
    requires AllStartClean(c, parse, Closed, events)
    ensures var g := Exec(c, parse, Closed, events); Known(g.handled, g.confirmed)
  {
    CleanRun(c, parse, Closed, events);
    HandledWereConfirmed(c, parse, events);
  }

  /** A message held under a handshake that is never confirmed is released by the confirmation of the
      next one. */
  lemma HeldSurvivesHandshake(c: Scheme, parse: Parser, g: Gate, m: Numbered)
    requires Quiet(g) && g.held == [m] && m.session != g.session && m.session !in g.confirmed
    ensures var end := Exec(c, parse, Step(c, parse, g, ConfirmPeer), [TakeHeld, HandleNext(0)]);
      end.handled == g.handled + [m] && m.session !in end.confirmed
  {
    var g1 := Step(c, parse, g, ConfirmPeer);
    var g2 := Step(c, parse, g1, TakeHeld);
    assert g2.releasing == [[m]];
    RunOfTwo(c, parse, g1, TakeHeld, HandleNext(0));
  }

  /** And a message of an unconfirmed handshake is released by a confirmation of the one before, when
      the handshake starts between the confirmation and its release. */
  lemma StaleReleaseHandles(c: Scheme, parse: Parser, g: Gate, plain: bytes, content: bytes)
    requires g.tasks == [] && g.releasing == [] && g.held == [] && g.due == 1 && g.session !in g.confirmed
    requires g.crypto.trust.SasPending? && g.crypto.ratchet.Some? && parse(plain) == Some(App(content))
    ensures var end := Exec(c, parse, g, [Arrive(Some(plain)), Settle(0), TakeHeld, HandleNext(0)]);
      && end.handled == g.handled + [Numbered(g.arrived, g.session, content)] && g.session !in end.confirmed
  {
    var g1 := Step(c, parse, g, Arrive(Some(plain)));
    var g2 := Step(c, parse, g1, Settle(0));
    var g3 := Step(c, parse, g2, TakeHeld);
    assert g2.held == [Numbered(g.arrived, g.session, content)];
    assert g3.releasing == [g2.held];
    RunOfFour(c, parse, g, Arrive(Some(plain)), Settle(0), TakeHeld, HandleNext(0));
  }
}
