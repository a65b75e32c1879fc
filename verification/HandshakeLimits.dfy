/** Why the hypotheses are there: runs that show what happens without each of them. */
module HandshakeLimits {
  import opened Bytes
  import opened Primitives
  import opened KeyExchange
  import opened Transcripts
  import opened SignedSteps
  import opened PeerCryptos
  import opened Sessions
  import opened HandshakeProtocol
  import opened HandshakeTheorems

  lemma {:induction false} ExecConcat(c: Scheme, net: Net, p: seq<Act>, q: seq<Act>)
    ensures Exec(c, net, p + q) == Exec(c, Exec(c, net, p), q)
    decreases p
  {
    if p == [] {
      assert p + q == q;
    } else {
      assert (p + q)[1..] == p[1..] + q;
      ExecConcat(c, Step(c, net, p[0]), p[1..], q);
    }
  }

  lemma RunOfOne(c: Scheme, net: Net, act: Act)
    ensures Exec(c, net, [act]) == Step(c, net, act)
  {
    assert [act][1..] == [];
    assert Exec(c, Step(c, net, act), []) == Step(c, net, act);
  }

  /** A party that has answered nobody, as it is just after starting or giving up. */
  predicate Unanswering(p: Party) {
    p.session.answeredStep1 == Option.None && p.session.crypto.remote == NO_IDENTITY
  }

  lemma Starting(c: Scheme, p: Party, secret: bytes, dk: bytes)
    requires !IsResponder(p)
    ensures var (p', sent) := TryStart(c, p, secret, dk);
      && IsInitiator(p') && Unanswering(p') && p'.wait == Inserting && p'.identity == p.identity
      && p'.starts == p.starts + 1 && p'.begun.Some? && sent == [p'.begun.value.frame]
      && p'.session == p'.begun.value.session
      && Waiting(c, p.identity, p'.begun.value, InitiatorKex(c, secret, dk))
      && p'.initiated == p.initiated && p'.answered == p.answered
  {
    StartWaits(c, p.identity, p.session, secret, dk);
  }

  lemma FreshAnswer(c: Scheme, id: bytes, b: Opening, secret: bytes, dk: bytes, p: Party, canonical: bool, draw: Draw)
    requires Lawful(c) && Waiting(c, id, b, InitiatorKex(c, secret, dk)) && Unanswering(p)
    requires !(IsInitiator(p) && Less(Key(c, p), c.edPublic(id)))
    ensures var (p', sent) := ReceiveStep1(c, p, b.frame, canonical, draw);
      && IsResponder(p') && p'.starts == p.starts && p'.identity == p.identity
      && p'.initiated == p.initiated && p'.answered == p.answered
      && p'.reply.Some? && p'.session == p'.reply.value.session && sent == [p'.reply.value.frame]
      && Answered(c, id, b, p.identity, p'.reply.value) && p'.session.crypto.secret.Some?
  {
    AnswerAnswers(c, id, b, p.identity, p.session, secret, dk, draw);
    SignedVerifies(c, id, 1, b.frame.body);
  }

  predicate FirstArrivals(acts: seq<Act>) {
    forall i :: 0 <= i < |acts| ==> acts[i].ev.Arrive? ==> acts[i].ev.i == 0
  }

  predicate NobodyGivesUp(acts: seq<Act>) {
    forall i :: 0 <= i < |acts| ==> !acts[i].ev.GiveUp?
  }

  /** `p` has an attempt of its own, made of these random values. */
  ghost predicate Attempted(c: Scheme, p: Party, x: bytes, dk: bytes) {
    && p.begun.Some?
    && Waiting(c, p.identity, p.begun.value, InitiatorKex(c, x, dk))
  }

  /** Both sides have started and neither has heard of the other. */
  ghost predicate BothStarted(c: Scheme, x: bytes, dk: bytes, net: Net) {
    && OneAttemptEach(net)
    && Attempted(c, net.left, x, dk) && Attempted(c, net.right, x, dk)
    && Unanswering(net.left) && Unanswering(net.right)
    && net.out == [net.left.begun.value.frame] && net.back == [net.right.begun.value.frame]
  }

  ghost predicate TwoResponders(net: Net) {
    OneAttemptEach(net) && IsResponder(net.left) && IsResponder(net.right)
  }

  lemma LeftStarts(c: Scheme, net: Net, x: bytes, dk: bytes) returns (acts: seq<Act>)
    requires !IsResponder(net.left) && net.out == []
    ensures FirstArrivals(acts) && NobodyGivesUp(acts)
    ensures var next := Exec(c, net, acts);
      && next == net.(left := next.left, out := next.out)
      && Attempted(c, next.left, x, dk) && next.left.identity == net.left.identity
      && next.left.starts == net.left.starts + 1 && next.left.initiated == net.left.initiated
      && next.left.session == next.left.begun.value.session
      && Unanswering(next.left) && IsInitiator(next.left) && next.left.wait == Inserting
      && next.out == [next.left.begun.value.frame]
  {
    acts := [OnLeft(Begin(x, dk))];
    RunOfOne(c, net, acts[0]);
    Starting(c, net.left, x, dk);
  }

  lemma RightStarts(c: Scheme, net: Net, x: bytes, dk: bytes) returns (acts: seq<Act>)
    requires !IsResponder(net.right) && net.back == []
    ensures FirstArrivals(acts) && NobodyGivesUp(acts)
    ensures var next := Exec(c, net, acts);
      && next == net.(right := next.right, back := next.back)
      && Attempted(c, next.right, x, dk) && next.right.identity == net.right.identity
      && next.right.starts == net.right.starts + 1
      && Unanswering(next.right) && IsInitiator(next.right)
      && next.back == [next.right.begun.value.frame]
  {
    acts := [OnRight(Begin(x, dk))];
    RunOfOne(c, net, acts[0]);
    Starting(c, net.right, x, dk);
  }

  lemma LeftListens(c: Scheme, net: Net) returns (acts: seq<Act>)
    requires net.left.wait == Inserting
    ensures FirstArrivals(acts) && NobodyGivesUp(acts)
    ensures Exec(c, net, acts) == net.(left := net.left.(wait := Listening))
  {
    acts := [OnLeft(Listen)];
    RunOfOne(c, net, acts[0]);
    assert net.out + [] == net.out;
  }

  lemma LeftGivesUp(c: Scheme, net: Net) returns (acts: seq<Act>)
    requires net.left.wait == Listening
    ensures FirstArrivals(acts)
    ensures Exec(c, net, acts) == net.(left := net.left.(session := Abort(net.left.session), wait := Idle))
  {
    acts := [OnLeft(GiveUp)];
    RunOfOne(c, net, acts[0]);
    assert net.out + [] == net.out;
  }

  /** The first step of the right side reaches a left side that answers it. */
  lemma LeftAnswers(c: Scheme, net: Net, x: bytes, dk: bytes, draw: Draw) returns (acts: seq<Act>)
    requires Lawful(c) && Attempted(c, net.right, x, dk) && net.back == [net.right.begun.value.frame]
    requires !IsInitiator(net.left) && net.left.session.answeredStep1 == Option.None
    ensures FirstArrivals(acts) && NobodyGivesUp(acts)
    ensures var next := Exec(c, net, acts);
      next.right == net.right && IsResponder(next.left) && next.left.starts == net.left.starts
      && |next.out| == |net.out| + 1 && next.out[..|net.out|] == net.out
      && next.left.identity == net.left.identity && next.left.begun == net.left.begun
  {
    acts := [OnLeft(Arrive(0, false, draw))];
    RunOfOne(c, net, acts[0]);
    LeftAnswer(c, net, x, dk, draw);
  }

  lemma LeftAnswer(c: Scheme, net: Net, x: bytes, dk: bytes, draw: Draw)
    requires Lawful(c) && Attempted(c, net.right, x, dk)
    requires !IsInitiator(net.left) && net.left.session.answeredStep1 == Option.None
    ensures var (p', sent) := ReceiveStep1(c, net.left, net.right.begun.value.frame, false, draw);
      IsResponder(p') && p'.starts == net.left.starts && |sent| == 1
      && p'.identity == net.left.identity && p'.begun == net.left.begun
  {
    AnswerAnswers(c, net.right.identity, net.right.begun.value, net.left.identity, net.left.session, x, dk, draw);
    SignedVerifies(c, net.right.identity, 1, net.right.begun.value.frame.body);
  }

  /** The first step of the left side reaches the right side, which answers unless it has the smaller
      key and an attempt of its own. */
  lemma RightAnswers(c: Scheme, net: Net, x: bytes, dk: bytes, draw: Draw, rest: seq<Signed>) returns (acts: seq<Act>)
    requires Lawful(c) && Attempted(c, net.left, x, dk)
    requires net.out == [net.left.begun.value.frame] + rest
    requires Unanswering(net.right) && (IsInitiator(net.right) ==> !Less(Key(c, net.right), Key(c, net.left)))
    ensures FirstArrivals(acts) && NobodyGivesUp(acts)
    ensures var next := Exec(c, net, acts);
      && IsResponder(next.right) && next.right.starts == net.right.starts && next.right.reply.Some?
      && next == Net(net.left, next.right, rest, net.back + [next.right.reply.value.frame])
      && next.right.identity == net.right.identity && next.right.begun == net.right.begun
      && next.right.session == next.right.reply.value.session && next.right.session.crypto.secret.Some?
      && Answered(c, net.left.identity, net.left.begun.value, net.right.identity, next.right.reply.value)
      && next.right.answered == net.right.answered
  {
    acts := [OnRight(Arrive(0, false, draw))];
    RunOfOne(c, net, acts[0]);
    FreshAnswer(c, net.left.identity, net.left.begun.value, x, dk, net.right, false, draw);
    assert Without(net.out, 0) == rest;
  }

  // ---- Two responders after giving up ----

  /** One side starting, the other one starting and giving up, and then both first steps arriving:
      although everything arrives in order, both end up as responders and wait for each other. */
  lemma GivingUpMakesTwoResponders(c: Scheme, small: bytes, big: bytes, x: bytes, dk: bytes, draw: Draw)
    returns (acts: seq<Act>)
    requires Lawful(c) && Less(c.edPublic(small), c.edPublic(big))
    ensures FirstArrivals(acts) && TwoResponders(Exec(c, Strangers(small, big), acts))
  {
    LessTotal(c.edPublic(small), c.edPublic(big));
    var net := Strangers(small, big);
    var p := RightStarts(c, net, x, dk);
    var q := StartAndGiveUp(c, Exec(c, net, p), x, dk, draw);
    ExecConcat(c, net, p, q);
    acts := p + q;
  }

  lemma StartAndGiveUp(c: Scheme, net: Net, x: bytes, dk: bytes, draw: Draw) returns (acts: seq<Act>)
    requires Lawful(c) && !Less(Key(c, net.right), Key(c, net.left))
    requires Attempted(c, net.right, x, dk) && Unanswering(net.right) && net.back == [net.right.begun.value.frame]
    requires net.left.session.role == Option.None && net.out == [] && net.left.starts == 0 && net.right.starts == 1
    ensures FirstArrivals(acts) && TwoResponders(Exec(c, net, acts))
  {
    var p := LeftStarts(c, net, x, dk);
    var q := GiveUpAndAnswer(c, Exec(c, net, p), x, dk, draw);
    ExecConcat(c, net, p, q);
    acts := p + q;
  }

  lemma GiveUpAndAnswer(c: Scheme, net: Net, x: bytes, dk: bytes, draw: Draw) returns (acts: seq<Act>)
    requires Lawful(c) && !Less(Key(c, net.right), Key(c, net.left)) && BothStarted(c, x, dk, net)
    requires net.left.wait == Inserting && IsInitiator(net.left)
    ensures FirstArrivals(acts) && TwoResponders(Exec(c, net, acts))
  {
    var p := LeftListens(c, net);
    var listening := Exec(c, net, p);
    var q := LeftGivesUp(c, listening);
    ExecConcat(c, net, p, q);
    var r := BothAnswer(c, Exec(c, listening, q), x, dk, draw);
    ExecConcat(c, net, p + q, r);
    acts := p + q + r;
  }

  lemma BothAnswer(c: Scheme, net: Net, x: bytes, dk: bytes, draw: Draw) returns (acts: seq<Act>)
    requires Lawful(c) && !Less(Key(c, net.right), Key(c, net.left)) && BothStarted(c, x, dk, net)
    requires !IsInitiator(net.left)
    ensures FirstArrivals(acts) && TwoResponders(Exec(c, net, acts))
  {
    var p := LeftAnswers(c, net, x, dk, draw);
    var next := Exec(c, net, p);
    assert next.out == [net.left.begun.value.frame] + next.out[1..];
    var q := RightAnswers(c, next, x, dk, draw, next.out[1..]);
    ExecConcat(c, net, p, q);
    acts := p + q;
  }

  // ---- Two responders after frames overtake each other ----

  /** Without order in the channels two responders arise although nobody gives up. */
  lemma OvertakingMakesTwoResponders(c: Scheme, small: bytes, big: bytes, x: bytes, dk: bytes, draw: Draw)
    returns (acts: seq<Act>)
    requires Lawful(c) && Less(c.edPublic(small), c.edPublic(big))
    ensures NobodyGivesUp(acts) && TwoResponders(Exec(c, Strangers(small, big), acts))
  {
    LessTotal(c.edPublic(small), c.edPublic(big));
    var net := Strangers(small, big);
    var p := RightStarts(c, net, x, dk);
    var q := StartAndCross(c, Exec(c, net, p), x, dk, draw);
    ExecConcat(c, net, p, q);
    acts := p + q;
  }

  lemma StartAndCross(c: Scheme, net: Net, x: bytes, dk: bytes, draw: Draw) returns (acts: seq<Act>)
    requires Lawful(c) && !Less(Key(c, net.right), Key(c, net.left))
    requires Attempted(c, net.right, x, dk) && Unanswering(net.right) && net.back == [net.right.begun.value.frame]
    requires net.left.session.role == Option.None && net.out == [] && net.left.starts == 0 && net.right.starts == 1
    ensures NobodyGivesUp(acts) && TwoResponders(Exec(c, net, acts))
  {
    var p := LeftStarts(c, net, x, dk);
    var q := ListenAndCross(c, Exec(c, net, p), x, dk, draw);
    ExecConcat(c, net, p, q);
    acts := p + q;
  }

  /** The left side waits for an answer to its attempt. */
  ghost predicate Expecting(c: Scheme, p: Party, x: bytes, dk: bytes) {
    && Attempted(c, p, x, dk) && Unanswering(p) && p.session == p.begun.value.session
  }

  lemma ListenAndCross(c: Scheme, net: Net, x: bytes, dk: bytes, draw: Draw) returns (acts: seq<Act>)
    requires Lawful(c) && !Less(Key(c, net.right), Key(c, net.left)) && BothStarted(c, x, dk, net)
    requires net.left.wait == Inserting && Expecting(c, net.left, x, dk)
    ensures NobodyGivesUp(acts) && TwoResponders(Exec(c, net, acts))
  {
    var p := LeftListens(c, net);
    var listening := Exec(c, net, p);
    var q := RightAnswers(c, listening, x, dk, draw, []);
    ExecConcat(c, net, p, q);
    var crossed := Exec(c, listening, q);
    var r := Overtake(c, crossed, x, dk, draw, crossed.right.reply.value);
    ExecConcat(c, net, p + q, r);
    acts := p + q + r;
  }

  lemma Overtake(c: Scheme, net: Net, x: bytes, dk: bytes, draw: Draw, reply: Opening) returns (acts: seq<Act>)
    requires Lawful(c) && Expecting(c, net.left, x, dk) && net.left.wait == Listening
    requires IsResponder(net.right) && Attempted(c, net.right, x, dk) && OneAttemptEach(net)
    requires Answered(c, net.left.identity, net.left.begun.value, net.right.identity, reply)
    requires net.back == [net.right.begun.value.frame, reply.frame]
    ensures NobodyGivesUp(acts) && TwoResponders(Exec(c, net, acts))
  {
    var p := LeftTakesAnswer(c, net, reply.frame, 1, draw);
    var handed := Exec(c, net, p);
    assert handed.back == [net.back[0]];
    var q := LeftProceeds(c, handed, x, dk, reply.frame);
    ExecConcat(c, net, p, q);
    var r := LeftAnswers(c, Exec(c, handed, q), x, dk, draw);
    ExecConcat(c, net, p + q, r);
    acts := p + q + r;
  }

  lemma LeftTakesAnswer(c: Scheme, net: Net, f: Signed, i: nat, draw: Draw) returns (acts: seq<Act>)
    requires net.left.wait == Listening && i < |net.back| && net.back[i] == f && f.step == 2
    ensures NobodyGivesUp(acts)
    ensures Exec(c, net, acts) == net.(left := net.left.(wait := Got(f)), back := Without(net.back, i))
  {
    acts := [OnLeft(Arrive(i, false, draw))];
    RunOfOne(c, net, acts[0]);
    assert net.out + [] == net.out;
  }

  /** Any well-formed step 2 is taken, whichever step 1 it answers. */
  lemma LeftProceeds(c: Scheme, net: Net, x: bytes, dk: bytes, f: Signed) returns (acts: seq<Act>)
    requires Lawful(c) && Expecting(c, net.left, x, dk) && net.left.wait == Got(f)
    requires f == SignStep(c, net.right.identity, 2, f.body) && |f.body| == KEX_LEN + RATCHET_PK_LEN
    ensures NobodyGivesUp(acts)
    ensures var next := Exec(c, net, acts);
      && next.right == net.right && next.back == net.back
      && next.left.session.role == Option.None && next.left.session.answeredStep1 == Option.None
      && next.left.identity == net.left.identity
      && next.left.starts == net.left.starts
      && next.out == net.out + [SignStep(c, net.left.identity, 3, FINISH_BODY)]
      && |next.left.initiated| == |net.left.initiated| + 1
      && next.left.initiated[|net.left.initiated|].transcript
         == Joined([net.left.begun.value.frame.body, f.body, FINISH_BODY])
  {
    acts := [OnLeft(Proceed)];
    RunOfOne(c, net, acts[0]);
    TakesAnyAnswer(c, net.left.identity, net.left.begun.value, x, dk, net.right.identity, f);
  }

  lemma TakesAnyAnswer(c: Scheme, id: bytes, b: Opening, x: bytes, dk: bytes, id': bytes, f: Signed)
    requires Lawful(c) && Waiting(c, id, b, InitiatorKex(c, x, dk))
    requires f == SignStep(c, id', 2, f.body) && |f.body| == KEX_LEN + RATCHET_PK_LEN
    ensures var (s, done) := OnStep2(c, b.session, id, f, c.edPublic(id'));
      && done.Ok? && s.role == Option.None && done.value.0 == SignStep(c, id, 3, FINISH_BODY)
      && AgreedIn(s, done.value.1).transcript == Joined([b.frame.body, f.body, FINISH_BODY])
      && s.answeredStep1 == b.session.answeredStep1
  {
    SignedVerifies(c, id', 2, f.body);
    TakesStep2(c, b.session.crypto, InitiatorKex(c, x, dk), f, b.frame.body);
    var t := ProcessStep2(c, b.session.crypto, InitiatorKex(c, x, dk), f, f.identity).0;
    TakesStep3(c, t, c.edPublic(id), b.frame.body, f.body, FINISH_BODY);
  }

  // ---- Two attempts of one side ----

  /** Starting again while the answer to the given-up attempt is still on its way: both sides finish,
      with different transcripts. */
  lemma StartingAgainBreaksAgreement(c: Scheme, left: bytes, right: bytes,
                                     x: bytes, dk: bytes, x': bytes, dk': bytes, draw: Draw)
    returns (acts: seq<Act>)
    requires Lawful(c) && InitiatorMessage(InitiatorKex(c, x, dk)) != InitiatorMessage(InitiatorKex(c, x', dk'))
    ensures var net := Exec(c, Strangers(left, right), acts);
      |net.left.initiated| == |net.right.answered| == 1
      && net.left.initiated[0].transcript != net.right.answered[0].transcript
  {
    var net := Strangers(left, right);
    var p := LeftStarts(c, net, x, dk);
    var q := AnsweredThenAgain(c, Exec(c, net, p), x, dk, x', dk', draw);
    ExecConcat(c, net, p, q);
    acts := p + q;
  }

  ghost predicate Disagree(net: Net) {
    && |net.left.initiated| == |net.right.answered| == 1
    && net.left.initiated[0].transcript != net.right.answered[0].transcript
  }

  lemma AnsweredThenAgain(c: Scheme, net: Net, x: bytes, dk: bytes, x': bytes, dk': bytes, draw: Draw)
    returns (acts: seq<Act>)
    requires Lawful(c) && InitiatorMessage(InitiatorKex(c, x, dk)) != InitiatorMessage(InitiatorKex(c, x', dk'))
    requires Attempted(c, net.left, x, dk) && net.out == [net.left.begun.value.frame] && net.back == []
    requires net.left.wait == Inserting && !IsResponder(net.left) && net.left.initiated == []
    requires Unanswering(net.right) && net.right.session.role == Option.None && net.right.answered == []
    ensures Disagree(Exec(c, net, acts))
  {
    var p := LeftListens(c, net);
    var q := AnswerThenAgain(c, Exec(c, net, p), x, dk, x', dk', draw);
    ExecConcat(c, net, p, q);
    acts := p + q;
  }

  lemma AnswerThenAgain(c: Scheme, net: Net, x: bytes, dk: bytes, x': bytes, dk': bytes, draw: Draw)
    returns (acts: seq<Act>)
    requires Lawful(c) && InitiatorMessage(InitiatorKex(c, x, dk)) != InitiatorMessage(InitiatorKex(c, x', dk'))
    requires Attempted(c, net.left, x, dk) && net.out == [net.left.begun.value.frame] && net.back == []
    requires net.left.wait == Listening && !IsResponder(net.left) && net.left.initiated == []
    requires Unanswering(net.right) && net.right.session.role == Option.None && net.right.answered == []
    ensures Disagree(Exec(c, net, acts))
  {
    var p := RightAnswers(c, net, x, dk, draw, []);
    var answered := Exec(c, net, p);
    var q := GiveUpAndStartAgain(c, answered, net.left.begun.value, answered.right.reply.value, x', dk', draw);
    ExecConcat(c, net, p, q);
    acts := p + q;
  }

  /** The right side waits for the end of the attempt `b`, to which it has answered `r`. */
  ghost predicate Awaiting(c: Scheme, net: Net, b: Opening, r: Opening) {
    && Answered(c, net.left.identity, b, net.right.identity, r) && r.session.crypto.secret.Some?
    && net.right.session == r.session && net.right.answered == []
  }

  lemma GiveUpAndStartAgain(c: Scheme, net: Net, b: Opening, r: Opening, x: bytes, dk: bytes, draw: Draw)
    returns (acts: seq<Act>)
    requires Lawful(c) && Awaiting(c, net, b, r) && b.frame.body != InitiatorMessage(InitiatorKex(c, x, dk))
    requires |b.frame.body| == X25519_LEN + EK_LEN
    requires net.left.wait == Listening && !IsResponder(net.left) && net.left.initiated == []
    requires net.out == [] && net.back == [r.frame]
    ensures Disagree(Exec(c, net, acts))
  {
    var p := LeftGivesUp(c, net);
    var quiet := Exec(c, net, p);
    var q := LeftStarts(c, quiet, x, dk);
    ExecConcat(c, net, p, q);
    var last := FinishWithOldAnswer(c, Exec(c, quiet, q), b, r, x, dk, draw);
    ExecConcat(c, net, p + q, last);
    acts := p + q + last;
  }

  lemma FinishWithOldAnswer(c: Scheme, net: Net, b: Opening, r: Opening, x: bytes, dk: bytes, draw: Draw)
    returns (acts: seq<Act>)
    requires Lawful(c) && Awaiting(c, net, b, r) && Expecting(c, net.left, x, dk)
    requires b.frame.body != net.left.begun.value.frame.body && |b.frame.body| == X25519_LEN + EK_LEN
    requires net.left.wait == Inserting && net.left.initiated == []
    requires |net.out| == 1 && net.back == [r.frame]
    ensures Disagree(Exec(c, net, acts))
  {
    var p := LeftListens(c, net);
    var listening := Exec(c, net, p);
    var q := LeftTakesAnswer(c, listening, r.frame, 0, draw);
    ExecConcat(c, net, p, q);
    var handed := Exec(c, listening, q);
    var last := ProceedAndFinish(c, handed, b, r, x, dk, draw);
    ExecConcat(c, net, p + q, last);
    acts := p + q + last;
  }

  lemma ProceedAndFinish(c: Scheme, net: Net, b: Opening, r: Opening, x: bytes, dk: bytes, draw: Draw)
    returns (acts: seq<Act>)
    requires Lawful(c) && Awaiting(c, net, b, r) && Expecting(c, net.left, x, dk)
    requires b.frame.body != net.left.begun.value.frame.body && |b.frame.body| == X25519_LEN + EK_LEN
    requires net.left.wait == Got(r.frame) && net.left.initiated == [] && |net.out| == 1
    ensures Disagree(Exec(c, net, acts))
  {
    var p := LeftProceeds(c, net, x, dk, r.frame);
    var ended := Exec(c, net, p);
    var q := RightFinishes(c, ended, b, r, draw);
    ExecConcat(c, net, p, q);
    DifferentTranscripts(c, b.frame.body, net.left.begun.value.frame.body, r.frame.body);
    acts := p + q;
  }

  /** The right side loses the new first step and takes the end of the attempt for the old one's. */
  lemma RightFinishes(c: Scheme, net: Net, b: Opening, r: Opening, draw: Draw) returns (acts: seq<Act>)
    requires Lawful(c) && Awaiting(c, net, b, r)
    requires |net.out| == 2 && net.out[1] == SignStep(c, net.left.identity, 3, FINISH_BODY)
    ensures var next := Exec(c, net, acts);
      && next.left == net.left && |next.right.answered| == 1
      && next.right.answered[0].transcript == Joined([b.frame.body, r.frame.body, FINISH_BODY])
  {
    acts := [OnRight(Arrive(1, false, draw))];
    RunOfOne(c, net, acts[0]);
    ThirdStepArrives(c, net, 1, draw);
    RightFinish(c, net, b, r);
  }

  lemma ThirdStepArrives(c: Scheme, net: Net, i: nat, draw: Draw)
    requires i < |net.out| && net.out[i].step == 3
    ensures var next := Step(c, net, OnRight(Arrive(i, false, draw)));
      next.left == net.left && next.right == ReceiveStep3(c, net.right, net.out[i])
  {
  }

  lemma RightFinish(c: Scheme, net: Net, b: Opening, r: Opening)
    requires Lawful(c) && Awaiting(c, net, b, r)
    ensures var p := ReceiveStep3(c, net.right, SignStep(c, net.left.identity, 3, FINISH_BODY));
      && |p.answered| == 1
      && p.answered[0].transcript == Joined([b.frame.body, r.frame.body, FINISH_BODY])
  {
    ResponderEnds(c, net.left.identity, b, net.right.identity, r, FINISH_BODY);
  }

  lemma DifferentTranscripts(c: Scheme, body1: bytes, body1': bytes, body2: bytes)
    requires body1 != body1' && |body1| == |body1'| == X25519_LEN + EK_LEN && |body2| == KEX_LEN + RATCHET_PK_LEN
    ensures Joined([body1, body2, FINISH_BODY]) != Joined([body1', body2, FINISH_BODY])
  {
    TranscriptInjective([body1, body2, FINISH_BODY], [body1', body2, FINISH_BODY]);
    assert [body1, body2, FINISH_BODY][0] != [body1', body2, FINISH_BODY][0];
  }

  // ---- Which answers agree ----

  /** What the two sides end with when the initiator that holds `b` finishes on the answer `r`. */
  ghost function Ends(c: Scheme, id: bytes, b: Opening, id': bytes, r: Opening): Option<(Agreed, Agreed)> {
    var (s, done) := OnStep2(c, b.session, id, r.frame, c.edPublic(id'));
    if done.Err? then Option.None
    else
      var (s', sas) := OnFinish(c, r.session, id', done.value.0);
      if sas.Err? then Option.None else Some((AgreedIn(s, done.value.1), AgreedIn(s', sas.value)))
  }

  /** The answer to an attempt `b'`, by a responder in any state. */
  ghost function AnswerTo(c: Scheme, b': Opening, id': bytes, s: Session, draw: Draw): Opening {
    var (t, d) := Answer(c, s, id', b'.frame, draw.secret, draw.coins, c.x25519Public(draw.ratchet));
    if d.Respond? then Opening(t, d.answer) else b'
  }

  lemma AnswerToAnswers(c: Scheme, id: bytes, b: Opening, x: bytes, dk: bytes, id': bytes, s: Session, draw: Draw)
    requires Lawful(c) && Waiting(c, id, b, InitiatorKex(c, x, dk))
    ensures var r := AnswerTo(c, b, id', s, draw);
      && Answered(c, id, b, id', r) && SameSecret(c, InitiatorKex(c, x, dk), r)
      && r.session.crypto.secret.Some?
  {
    AnswerAnswers(c, id, b, id', s, x, dk, draw);
  }

  /** An initiator takes the answer to any attempt, and the answering side takes the end; they agree on
      transcript, secret and string exactly when the answer is to the first step the initiator now
      holds. */
  lemma AnswerAgreesIff(c: Scheme, id: bytes, b: Opening, x: bytes, dk: bytes, b': Opening, x': bytes, dk': bytes,
                        id': bytes, s: Session, draw: Draw)
    requires Lawful(c)
    requires Waiting(c, id, b, InitiatorKex(c, x, dk)) && Waiting(c, id, b', InitiatorKex(c, x', dk'))
    ensures var ends := Ends(c, id, b, id', AnswerTo(c, b', id', s, draw));
      ends.Some? && (ends.value.0 == ends.value.1 <==> b.frame.body == b'.frame.body)
  {
    var r := AnswerTo(c, b', id', s, draw);
    AnswerToAnswers(c, id, b', x', dk', id', s, draw);
    if b.frame.body == b'.frame.body {
      AgreesOnOwn(c, id, b, x, dk, b', id', s, draw);
    } else {
      DiffersOnOther(c, id, b, x, dk, b', id', r);
    }
  }

  lemma AgreesOnOwn(c: Scheme, id: bytes, b: Opening, x: bytes, dk: bytes, b': Opening, id': bytes, s: Session, draw: Draw)
    requires Lawful(c) && Waiting(c, id, b, InitiatorKex(c, x, dk)) && b'.frame == b.frame
    ensures var ends := Ends(c, id, b, id', AnswerTo(c, b', id', s, draw));
      ends.Some? && ends.value.0 == ends.value.1
  {
    var r := AnswerTo(c, b, id', s, draw);
    AnswerToAnswers(c, id, b, x, dk, id', s, draw);
    InitiatorEnds(c, id, b, InitiatorKex(c, x, dk), id', r);
    ResponderEnds(c, id, b, id', r, FINISH_BODY);
  }

  lemma DiffersOnOther(c: Scheme, id: bytes, b: Opening, x: bytes, dk: bytes, b': Opening, id': bytes, r: Opening)
    requires Lawful(c) && Waiting(c, id, b, InitiatorKex(c, x, dk)) && Answered(c, id, b', id', r)
    requires r.session.crypto.secret.Some?
    requires b.frame.body != b'.frame.body && |b'.frame.body| == X25519_LEN + EK_LEN
    ensures var ends := Ends(c, id, b, id', r);
      && ends.Some? && ends.value.0.transcript != ends.value.1.transcript
  {
    TakesAnyAnswer(c, id, b, x, dk, id', r.frame);
    ResponderEnds(c, id, b', id', r, FINISH_BODY);
    DifferentTranscripts(c, b.frame.body, b'.frame.body, r.frame.body);
  }
}
