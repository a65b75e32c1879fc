/**
 Two honest peers shaking hands over channels that may lose any frame and deliver the others in any
 order. Either may start, both may start at once, and the frame of an attempt may be sent again. A
 step of the right end is the mirror image of a step of the left one.
 */
module HandshakeProtocol {
  import opened Bytes
  import opened Primitives
  import opened KeyExchange
  import opened Transcripts
  import opened SignedSteps
  import opened PeerCryptos
  import opened Sessions
  import Sas

  /** The task that started a handshake: about to wait for step 2, waiting, or told what to do. */
  datatype Wait = Idle | Inserting | Listening | Got(frame: Signed) | Told

  /** What a side holds when it has finished. */
  datatype Agreed = Agreed(transcript: bytes, secret: Option<bytes>, sas: string)

  /** A session just after starting or just after answering, and the frame sent. */
  datatype Opening = Opening(session: Session, frame: Signed)

  /** `starts`, `begun`, `reply`, `initiated` and `answered` record what happened: the attempts
      started, the last one, the last answer, and what was agreed as initiator and as responder. */
  datatype Party = Party(
    identity: bytes, session: Session, wait: Wait, starts: nat, begun: Option<Opening>, reply: Option<Opening>,
    initiated: seq<Agreed>, answered: seq<Agreed>)

  datatype Net = Net(left: Party, right: Party, out: seq<Signed>, back: seq<Signed>)

  /** Random values drawn for an answer. */
  datatype Draw = Draw(secret: bytes, coins: bytes, ratchet: bytes)

  datatype Event =
    | Begin(secret: bytes, dk: bytes)
    | Listen
    | Again
    | Arrive(i: nat, canonical: bool, draw: Draw)
    | Proceed
    | GiveUp
    | Lose(i: nat)

  datatype Act = OnLeft(ev: Event) | OnRight(ev: Event)

  function Key(c: Scheme, p: Party): bytes {
    c.edPublic(p.identity)
  }

  function AgreedIn(s: Session, sas: string): Agreed {
    Agreed(s.crypto.transcript.data, s.crypto.secret, sas)
  }

  function ReceiveStep1(c: Scheme, p: Party, f: Signed, canonical: bool, draw: Draw): (Party, seq<Signed>) {
    var (s, d) := OnStep1(c, p.session, p.identity, canonical, f, draw.secret, draw.coins,
            c.x25519Public(draw.ratchet));
    AfterStep1(p, s, d)
  }

  function AfterStep1(p: Party, s: Session, d: Decision): (Party, seq<Signed>) {
    match d
    case Resend(answer) => (p.(session := s), [answer])
    case Respond(answer, yielded) =>
      (p.(session := s, reply := Some(Opening(s, answer)),
          wait := if yielded && p.wait.Listening? then Told else p.wait), [answer])
    case _ => (p.(session := s), [])
  }

  function ReceiveStep3(c: Scheme, p: Party, f: Signed): Party {
    var (s, r) := OnFinish(c, p.session, p.identity, f);
    p.(session := s, answered := p.answered + if r.Ok? then [AgreedIn(s, r.value)] else [])
  }

  function Receive(c: Scheme, p: Party, f: Signed, canonical: bool, draw: Draw): (Party, seq<Signed>) {
    if f.step == 1 then ReceiveStep1(c, p, f, canonical, draw)
    else if f.step == 2 then (if p.wait.Listening? then p.(wait := Got(f)) else p, [])
    else if f.step == 3 then (ReceiveStep3(c, p, f), [])
    else (p, [])
  }

  function GoOn(c: Scheme, p: Party, peerKey: bytes): (Party, seq<Signed>) {
    if !p.wait.Got? then (if p.wait.Told? then p.(wait := Idle) else p, [])
    else
      var (s, r) := OnStep2(c, p.session, p.identity, p.wait.frame, peerKey);
      if r.Err? then (p.(session := s, wait := Idle), [])
      else (p.(session := s, wait := Idle, initiated := p.initiated + [AgreedIn(s, r.value.1)]), [r.value.0])
  }

  function TryStart(c: Scheme, p: Party, secret: bytes, dk: bytes): (Party, seq<Signed>) {
    var (s, r) := Start(c, p.session, p.identity, secret, dk);
    if r.Err? then (p, [])
    else (p.(session := s, wait := Inserting, starts := p.starts + 1, begun := Some(Opening(s, r.value))), [r.value])
  }

  /** What the party does and sends; `back` are the frames on their way to it. */
  function React(c: Scheme, p: Party, peerKey: bytes, back: seq<Signed>, ev: Event): (Party, seq<Signed>) {
    match ev
    case Begin(secret, dk) => TryStart(c, p, secret, dk)
    case Listen => (if p.wait.Inserting? then p.(wait := Listening) else p, [])
    case Again =>
      (p, if p.session.role == Some(Initiator) && p.session.step1.Some? then [p.session.step1.value] else [])
    case Arrive(i, canonical, draw) =>
      if i < |back| then Receive(c, p, back[i], canonical, draw) else (p, [])
    case Proceed => GoOn(c, p, peerKey)
    case GiveUp => (if p.wait.Listening? then p.(session := Abort(p.session), wait := Idle) else p, [])
    case Lose(_) => (p, [])
  }

  function Without<T>(s: seq<T>, i: nat): seq<T> {
    if i < |s| then s[..i] + s[i + 1..] else s
  }

  function Left(back: seq<Signed>, ev: Event): seq<Signed> {
    if ev.Arrive? || ev.Lose? then Without(back, ev.i) else back
  }

  function StepLeft(c: Scheme, net: Net, ev: Event): Net {
    var (p, sent) := React(c, net.left, Key(c, net.right), net.back, ev);
    Net(p, net.right, net.out + sent, Left(net.back, ev))
  }

  function Flip(net: Net): Net {
    Net(net.right, net.left, net.back, net.out)
  }

  function Step(c: Scheme, net: Net, act: Act): Net {
    match act
    case OnLeft(ev) => StepLeft(c, net, ev)
    case OnRight(ev) => Flip(StepLeft(c, Flip(net), ev))
  }

  function Exec(c: Scheme, net: Net, acts: seq<Act>): Net
    decreases acts
  {
    if acts == [] then net else Exec(c, Step(c, net, acts[0]), acts[1..])
  }

  function Newcomer(identity: bytes): Party {
    Party(identity, NewSession, Idle, 0, None, None, [], [])
  }

  function Strangers(left: bytes, right: bytes): Net {
    Net(Newcomer(left), Newcomer(right), [], [])
  }

  // ---- The exchange itself ----

  /** The initiator's session while it waits for an answer. */
  ghost predicate Waiting(c: Scheme, id: bytes, b: Opening, kex: Kex) {
    && b.session.role == Some(Initiator) && b.session.pendingKex == Some(kex)
    && b.session.step1 == Some(b.frame)
    && b.frame == SignStep(c, id, 1, InitiatorMessage(kex))
    && Holds(b.session.crypto.transcript, [b.frame.body])
  }

  /** The responder's session while it waits for the end, and its answer. */
  ghost predicate Answered(c: Scheme, id: bytes, b: Opening, id': bytes, r: Opening) {
    && r.session.role == Some(Responder) && r.session.answeredStep1 == Some(b.frame.signature)
    && r.session.step2 == Some(r.frame)
    && r.frame == SignStep(c, id', 2, r.frame.body) && |r.frame.body| == KEX_LEN + RATCHET_PK_LEN
    && Holds(r.session.crypto.transcript, [b.frame.body, r.frame.body])
    && r.session.crypto.remote == c.edPublic(id) && r.session.crypto.ratchet.Some?
  }

  /** The key exchange ends with the secret the responder holds. */
  ghost predicate SameSecret(c: Scheme, kex: Kex, r: Opening) {
    && |r.frame.body| >= KEX_LEN
    && var (k, done) := Finish(c, kex, r.frame.body[..KEX_LEN]);
       done.Ok? && k.shared.Some? && k.shared == r.session.crypto.secret
  }

  lemma Pair<T>(x: T, y: T)
    ensures [x] + [y] == [x, y]
  {
  }

  lemma Triple<T>(x: T, y: T, z: T)
    ensures [x, y] + [z] == [x, y, z]
  {
  }

  lemma StartWaits(c: Scheme, id: bytes, s: Session, secret: bytes, dk: bytes)
    requires s.role != Some(Responder)
    ensures var (s', r) := Start(c, s, id, secret, dk);
      r.Ok? && Waiting(c, id, Opening(s', r.value), InitiatorKex(c, secret, dk))
  {
    AppendHolds(Empty, [], 1, InitiatorMessage(InitiatorKex(c, secret, dk)));
  }

  lemma AnswerAnswers(c: Scheme, id: bytes, b: Opening, id': bytes, s: Session, secret: bytes, dk: bytes, draw: Draw)
    requires Lawful(c) && Waiting(c, id, b, InitiatorKex(c, secret, dk))
    ensures var (s', d) := Answer(c, s, id', b.frame, draw.secret, draw.coins, c.x25519Public(draw.ratchet));
      && d.Respond?
      && Answered(c, id, b, id', Opening(s', d.answer))
      && SameSecret(c, InitiatorKex(c, secret, dk), Opening(s', d.answer))
  {
    var kex := InitiatorKex(c, secret, dk);
    SecretsAgree(c, secret, dk, draw.secret, draw.coins, []);
    SignedVerifies(c, id, 1, b.frame.body);
    var core := Accept(c, ResponderKex(c, draw.secret), b.frame.body, draw.coins).1.value;
    var body2 := core + c.x25519Public(draw.ratchet);
    AppendHolds(Empty, [], 1, b.frame.body);
    AppendHolds(Append(Empty, 1, b.frame.body).0, [b.frame.body], 2, body2);
    assert core + [] == core && body2[..KEX_LEN] == core;
    Pair(b.frame.body, body2);
  }

  /** What both sides end with. */
  ghost function Outcome(c: Scheme, id: bytes, b: Opening, id': bytes, r: Opening): Agreed {
    var transcript := Joined([b.frame.body, r.frame.body, FINISH_BODY]);
    var secret := r.session.crypto.secret;
    var known := if secret.Some? then secret.value else [];
    Agreed(transcript, secret, Sas.ComputeSas(c, known, c.edPublic(id), c.edPublic(id'), transcript))
  }

  function Full(bodies: seq<bytes>): Transcript {
    Transcript(Joined(bodies), |bodies| + 1)
  }

  lemma RecordsNext(c: Scheme, s: State, step: nat, bodies: seq<bytes>, body: bytes)
    requires s.transcript == Full(bodies) && step == |bodies| + 1
    ensures Record(s, step, body) == (s.(transcript := Full(bodies + [body])), Ok(Unit))
  {
    AppendHolds(s.transcript, bodies, step, body);
  }

  lemma TakesStep2(c: Scheme, s: State, k: Kex, f: Signed, body1: bytes)
    requires s.transcript == Full([body1]) && Verifies(c, f) && f.step == 2
    requires |f.body| == KEX_LEN + RATCHET_PK_LEN
    requires Finish(c, k, f.body[..KEX_LEN]).1.Ok? && Finish(c, k, f.body[..KEX_LEN]).0.shared.Some?
    ensures var (t, _, body) := ProcessStep2(c, s, k, f, f.identity);
      && t == State(f.identity, s.trust, Some(Ratchet(true, true)), Full([body1, f.body]),
                    Finish(c, k, f.body[..KEX_LEN]).0.shared)
      && body == Ok(FINISH_BODY)
  {
    RecordsNext(c, s.(remote := f.identity), 2, [body1], f.body);
    Pair(body1, f.body);
  }

  lemma TakesStep3(c: Scheme, s: State, key: bytes, body1: bytes, body2: bytes, body3: bytes)
    requires s.transcript == Full([body1, body2]) && s.secret.Some?
    ensures var transcript := Full([body1, body2, body3]);
      var sas := Sas.ComputeSas(c, s.secret.value, key, s.remote, transcript.data);
      FinalizeStep3(c, s, key, body3) == (s.(transcript := transcript, trust := SasPending(sas)), Ok(sas))
  {
    RecordsNext(c, s, 3, [body1, body2], body3);
    Triple(body1, body2, body3);
  }

  lemma InitiatorEnds(c: Scheme, id: bytes, b: Opening, kex: Kex, id': bytes, r: Opening)
    requires Lawful(c) && Waiting(c, id, b, kex) && Answered(c, id, b, id', r) && SameSecret(c, kex, r)
    ensures var (s, done) := OnStep2(c, b.session, id, r.frame, c.edPublic(id'));
      && done.Ok? && s.role == None
      && done.value.0 == SignStep(c, id, 3, FINISH_BODY)
      && AgreedIn(s, done.value.1) == Outcome(c, id, b, id', r)
  {
    SignedVerifies(c, id', 2, r.frame.body);
    TakesStep2(c, b.session.crypto, kex, r.frame, b.frame.body);
    var t := ProcessStep2(c, b.session.crypto, kex, r.frame, r.frame.identity).0;
    TakesStep3(c, t, c.edPublic(id), b.frame.body, r.frame.body, FINISH_BODY);
  }

  lemma ResponderEnds(c: Scheme, id: bytes, b: Opening, id': bytes, r: Opening, body3: bytes)
    requires Lawful(c) && Answered(c, id, b, id', r) && r.session.crypto.secret.Some?
    requires body3 == FINISH_BODY
    ensures var (s, sas) := OnFinish(c, r.session, id', SignStep(c, id, 3, body3));
      && sas.Ok? && s.role == None
      && AgreedIn(s, sas.value) == Outcome(c, id, b, id', r)
  {
    SignedVerifies(c, id, 3, body3);
    var s := r.session.crypto;
    RecordsNext(c, s, 3, [b.frame.body, r.frame.body], body3);
    Triple(b.frame.body, r.frame.body, body3);
    Sas.SasSymmetric(c, s.secret.value, c.edPublic(id), c.edPublic(id'), Joined([b.frame.body, r.frame.body, body3]));
  }

  // ---- Invariant of one direction: `l` as initiator, `r` as responder ----

  /** The last start of `l` made this opening. */
  ghost predicate Began(c: Scheme, l: Party) {
    && l.begun.Some?
    && exists secret, dk :: Waiting(c, l.identity, l.begun.value, InitiatorKex(c, secret, dk))
  }

  /** `r` waits for the end of `l`'s attempt, which will succeed. */
  ghost predicate Replied(c: Scheme, l: Party, r: Party) {
    && l.begun.Some? && r.reply.Some?
    && r.session == r.reply.value.session
    && Answered(c, l.identity, l.begun.value, r.identity, r.reply.value)
    && forall secret, dk :: Waiting(c, l.identity, l.begun.value, InitiatorKex(c, secret, dk)) ==>
         SameSecret(c, InitiatorKex(c, secret, dk), r.reply.value)
  }

  ghost function Due(c: Scheme, l: Party, r: Party): Agreed
    requires l.begun.Some? && r.reply.Some?
  {
    Outcome(c, l.identity, l.begun.value, r.identity, r.reply.value)
  }

  /** Every frame is signed by its sender. */
  ghost predicate Genuine(c: Scheme, l: Party, out: multiset<Signed>) {
    forall f :: f in out ==> f.identity == Key(c, l) && Verifies(c, f)
  }

  ghost predicate NoStep(out: multiset<Signed>, step: int) {
    forall f :: f in out ==> f.step != step
  }

  /** Before `l` starts. */
  ghost predicate Untouched(l: Party, r: Party, out: multiset<Signed>, back: multiset<Signed>) {
    && l.session.role != Some(Initiator) && l.wait == Idle && l.initiated == []
    && r.session.role != Some(Responder) && r.answered == []
    && NoStep(out, 1) && NoStep(out, 3) && NoStep(back, 2)
  }

  /** An answer on its way to `l`, or handed to its task. */
  predicate Coming(l: Party, back: multiset<Signed>, f: Signed) {
    f.step == 2 && (f in back || l.wait == Got(f))
  }

  /** While `l` is initiator. */
  ghost predicate Underway(l: Party, r: Party, out: multiset<Signed>, back: multiset<Signed>) {
    && l.begun.Some? && l.session == l.begun.value.session
    && l.initiated == [] && r.answered == [] && NoStep(out, 3)
    && forall f :: Coming(l, back, f) ==>
         r.session.role == Some(Responder) && r.session.step2 == Some(f)
  }

  ghost predicate GivenUp(l: Party, r: Party, out: multiset<Signed>) {
    l.initiated == [] && r.answered == [] && NoStep(out, 3)
  }

  /** Once `l` has finished: `r` still waits and at most one last step is on its way, or `r` has
      finished with the same outcome. */
  ghost predicate Finished(c: Scheme, l: Party, r: Party, out: multiset<Signed>) {
    if r.answered == [] then
      && r.session.role == Some(Responder) && l.begun.Some? && r.reply.Some?
      && r.reply.value.session.crypto.secret.Some?
      && l.initiated == [Due(c, l, r)]
      && forall f :: f in out && f.step == 3 ==> f == SignStep(c, l.identity, 3, FINISH_BODY) && out[f] == 1
    else
      r.answered == l.initiated && NoStep(out, 3)
  }

  ghost predicate Running(c: Scheme, l: Party, r: Party, out: multiset<Signed>, back: multiset<Signed>) {
    && Began(c, l)
    && (forall f :: f in out && f.step == 1 ==> f == l.begun.value.frame)
    && (r.session.role == Some(Responder) ==> Replied(c, l, r))
    && if l.session.role == Some(Initiator) then Underway(l, r, out, back)
       else if l.initiated == [] then GivenUp(l, r, out)
       else |l.initiated| == 1 && Finished(c, l, r, out)
  }

  ghost predicate Dir(c: Scheme, l: Party, r: Party, out: multiset<Signed>, back: multiset<Signed>) {
    && Genuine(c, l, out)
    && (l.starts == 0 ==> Untouched(l, r, out, back))
    && (l.starts == 1 ==> Running(c, l, r, out, back))
  }

  ghost predicate Inv(c: Scheme, net: Net) {
    && Dir(c, net.left, net.right, multiset(net.out), multiset(net.back))
    && Dir(c, net.right, net.left, multiset(net.back), multiset(net.out))
  }

  predicate OneAttemptEach(net: Net) {
    net.left.starts <= 1 && net.right.starts <= 1
  }

  // ---- What a step of `l` does to its own attempt ----

  lemma OwnStart(c: Scheme, l: Party, r: Party, out: multiset<Signed>, back: multiset<Signed>, secret: bytes, dk: bytes)
    requires Lawful(c) && Dir(c, l, r, out, back) && TryStart(c, l, secret, dk).0.starts <= 1
    ensures var (l', sent) := TryStart(c, l, secret, dk);
      Dir(c, l', r, out + multiset(sent), back)
  {
    if l.session.role != Some(Responder) {
      StartWaits(c, l.identity, l.session, secret, dk);
      var (s, f) := Start(c, l.session, l.identity, secret, dk);
      SignedVerifies(c, l.identity, 1, f.value.body);
    }
  }

  lemma OwnAgain(c: Scheme, l: Party, r: Party, out: multiset<Signed>, back: multiset<Signed>)
    requires Lawful(c) && Dir(c, l, r, out, back) && l.session.role == Some(Initiator) && l.session.step1.Some?
    requires l.starts <= 1
    ensures Dir(c, l, r, out + multiset([l.session.step1.value]), back)
  {
    assert Began(c, l);
    SignedVerifies(c, l.identity, 1, l.begun.value.frame.body);
  }

  /** The answer a responder keeps for duplicates is its own step 2. */
  predicate KeepsOwnAnswer(c: Scheme, p: Party) {
    p.session.role == Some(Responder) && p.session.step2.Some? ==>
      p.session.step2.value == SignStep(c, p.identity, 2, p.session.step2.value.body)
  }

  /** A step 1 never makes an initiator, and is answered at most by a step 2 of one's own. */
  lemma Step1Effect(c: Scheme, p: Party, f: Signed, canonical: bool, draw: Draw)
    requires KeepsOwnAnswer(c, p)
    ensures var (p', sent) := ReceiveStep1(c, p, f, canonical, draw);
      && (p'.session.role == Some(Initiator) ==> p'.session == p.session && p'.wait == p.wait)
      && (p'.wait != p.wait ==> p.wait.Listening? && p'.wait.Told?)
      && p'.starts == p.starts && p'.begun == p.begun && p'.identity == p.identity
      && p'.initiated == p.initiated && p'.answered == p.answered
      && (sent != [] ==> sent == [SignStep(c, p.identity, 2, sent[0].body)])
      && (p.session.role != Some(Initiator) ==> p'.wait == p.wait)
  {
  }

  lemma OwnStep1(c: Scheme, l: Party, r: Party, out: multiset<Signed>, back: multiset<Signed>,
                 f: Signed, canonical: bool, draw: Draw)
    requires Lawful(c) && Dir(c, l, r, out, back) && KeepsOwnAnswer(c, l) && l.starts <= 1
    ensures var (l', sent) := ReceiveStep1(c, l, f, canonical, draw);
      Dir(c, l', r, out + multiset(sent), back - multiset{f})
  {
    Step1Effect(c, l, f, canonical, draw);
    var (l', sent) := ReceiveStep1(c, l, f, canonical, draw);
    if sent != [] {
      SignedVerifies(c, l.identity, 2, sent[0].body);
    }
    OwnQuiet(c, l, l', r, out, out + multiset(sent), back, back - multiset{f});
  }

  /** What `l` may do without touching its attempt. */
  lemma OwnQuiet(c: Scheme, l: Party, l': Party, r: Party,
                 out: multiset<Signed>, out': multiset<Signed>, back: multiset<Signed>, back': multiset<Signed>)
    requires Dir(c, l, r, out, back) && Genuine(c, l, out') && l.starts <= 1
    requires l'.starts == l.starts && l'.begun == l.begun && l'.identity == l.identity && l'.initiated == l.initiated
    requires l'.session.role == Some(Initiator) ==> l'.session == l.session
    requires l.wait == Idle ==> l'.wait == Idle
    requires back' <= back && forall f :: Coming(l', back', f) ==> Coming(l, back, f)
    requires forall f :: f in out' && f.step != 2 ==> out'[f] <= out[f]
    ensures Dir(c, l', r, out', back')
  {
    assert Replied(c, l, r) ==> Replied(c, l', r);
    assert l.starts == 1 ==> Began(c, l');
  }

  lemma OwnStep2Arrives(c: Scheme, l: Party, r: Party, out: multiset<Signed>, back: multiset<Signed>, f: Signed)
    requires Dir(c, l, r, out, back) && l.starts <= 1 && f in back && f.step == 2 && l.wait.Listening?
    ensures Dir(c, l.(wait := Got(f)), r, out, back - multiset{f})
  {
    OwnQuiet(c, l, l.(wait := Got(f)), r, out, out, back, back - multiset{f});
  }

  lemma OwnStep3(c: Scheme, l: Party, r: Party, out: multiset<Signed>, back: multiset<Signed>, f: Signed)
    requires Dir(c, l, r, out, back) && l.starts <= 1
    ensures Dir(c, ReceiveStep3(c, l, f), r, out, back - multiset{f})
  {
    OwnQuiet(c, l, ReceiveStep3(c, l, f), r, out, out, back, back - multiset{f});
  }

  lemma OwnGiveUp(c: Scheme, l: Party, r: Party, out: multiset<Signed>, back: multiset<Signed>)
    requires Dir(c, l, r, out, back) && l.starts <= 1 && l.wait.Listening?
    ensures Dir(c, l.(session := Abort(l.session), wait := Idle), r, out, back)
  {
    OwnQuiet(c, l, l.(session := Abort(l.session), wait := Idle), r, out, out, back, back);
  }

  /** The initiator's task goes on: with the answer of this very attempt, and successfully. */
  lemma OwnProceed(c: Scheme, l: Party, r: Party, out: multiset<Signed>, back: multiset<Signed>)
    requires Lawful(c) && Dir(c, l, r, out, back) && l.starts <= 1 && l.wait.Got? && l.wait.frame.step == 2
    ensures var (l', sent) := GoOn(c, l, Key(c, r));
      && Dir(c, l', r, out + multiset(sent), back)
      && (l.session.role == Some(Initiator) ==> l'.initiated != [])
  {
    if l.session.role != Some(Initiator) {
      OwnQuiet(c, l, l.(wait := Idle), r, out, out, back, back);
    } else {
      assert Coming(l, back, l.wait.frame);
      var secret, dk :| Waiting(c, l.identity, l.begun.value, InitiatorKex(c, secret, dk));
      InitiatorEnds(c, l.identity, l.begun.value, InitiatorKex(c, secret, dk), r.identity, r.reply.value);
      InitiatorFinishes(c, l, r, out, back);
    }
  }

  lemma InitiatorFinishes(c: Scheme, l: Party, r: Party, out: multiset<Signed>, back: multiset<Signed>)
    requires Lawful(c) && Dir(c, l, r, out, back) && l.starts == 1 && l.session.role == Some(Initiator)
    requires l.wait.Got? && r.session.role == Some(Responder)
    requires r.reply.Some? && r.reply.value.session.crypto.secret.Some?
    requires var (s, done) := OnStep2(c, l.session, l.identity, l.wait.frame, Key(c, r));
      && done.Ok? && s.role == None && done.value.0 == SignStep(c, l.identity, 3, FINISH_BODY)
      && l.begun.Some? && AgreedIn(s, done.value.1) == Due(c, l, r)
    ensures var (l', sent) := GoOn(c, l, Key(c, r));
      && Dir(c, l', r, out + multiset(sent), back)
      && l'.initiated != []
  {
    SignedVerifies(c, l.identity, 3, FINISH_BODY);
    var (l', sent) := GoOn(c, l, Key(c, r));
    assert Replied(c, l', r);
    assert Began(c, l');
  }

  // ---- What a step of `r` does to the attempt of `l` ----

  /** A step in which `r` neither becomes nor ceases to be a waiting responder. */
  lemma PeerQuiet(c: Scheme, l: Party, r: Party, r': Party,
                  out: multiset<Signed>, out': multiset<Signed>, back: multiset<Signed>, back': multiset<Signed>)
    requires Dir(c, l, r, out, back) && out' <= out
    requires r'.identity == r.identity && r'.answered == r.answered
    requires r.session.role == Some(Responder) ==> r'.session == r.session && r'.reply == r.reply
    requires r.session.role != Some(Responder) ==> r'.session.role != Some(Responder)
    requires forall f :: f in back' && f.step == 2 ==> f in back
    ensures Dir(c, l, r', out', back')
  {
    assert Replied(c, l, r) && r.session.role == Some(Responder) ==> Replied(c, l, r');
    assert forall f :: f in out' ==> f in out;
    assert forall f :: Coming(l, back', f) ==> Coming(l, back, f);
  }

  /** A duplicate of the step 1 already answered gets the same answer. */
  lemma PeerDuplicate(c: Scheme, l: Party, r: Party, out: multiset<Signed>, back: multiset<Signed>,
                      f: Signed, canonical: bool, draw: Draw)
    requires Lawful(c) && Dir(c, l, r, out, back) && l.starts <= 1 && f in out && f.step == 1
    requires r.session.role == Some(Responder)
    ensures var (r', sent) := ReceiveStep1(c, r, f, canonical, draw);
      && r' == r
      && Dir(c, l, r', out - multiset{f}, back + multiset(sent))
  {
    assert Replied(c, l, r);
  }

  lemma PeerAnswers(c: Scheme, l: Party, r: Party, out: multiset<Signed>, back: multiset<Signed>,
                    f: Signed, canonical: bool, draw: Draw)
    requires Lawful(c) && Dir(c, l, r, out, back) && l.starts <= 1 && f in out && f.step == 1
    requires r.session.role != Some(Responder)
    ensures var (r', sent) := ReceiveStep1(c, r, f, canonical, draw);
      Dir(c, l, r', out - multiset{f}, back + multiset(sent))
  {
    var (s, d) := OnStep1(c, r.session, r.identity, canonical, f, draw.secret, draw.coins,
            c.x25519Public(draw.ratchet));
    Step1Decision(c, l, r, f, canonical, draw);
    PeerDecided(c, l, r, s, d, out, back, f);
  }

  lemma PeerDecided(c: Scheme, l: Party, r: Party, s: Session, d: Decision,
                    out: multiset<Signed>, back: multiset<Signed>, f: Signed)
    requires Dir(c, l, r, out, back) && l.starts == 1 && r.session.role != Some(Responder)
    requires if d.Respond? then d.answer.step == 2 && Replied(c, l, AfterStep1(r, s, d).0)
             else !d.Resend? && s.role != Some(Responder)
    ensures var (r', sent) := AfterStep1(r, s, d);
      Dir(c, l, r', out - multiset{f}, back + multiset(sent))
  {
    var (r', sent) := AfterStep1(r, s, d);
    if d.Respond? {
      PeerReplied(c, l, r, r', out, out - multiset{f}, back, back + multiset(sent), d.answer);
    } else {
      assert back + multiset(sent) == back;
      PeerQuiet(c, l, r, r', out, out - multiset{f}, back, back);
    }
  }

  /** Becoming responder is answering the one attempt of `l`. */
  lemma Step1Decision(c: Scheme, l: Party, r: Party, f: Signed, canonical: bool, draw: Draw)
    requires Lawful(c) && Began(c, l) && f == l.begun.value.frame && r.session.role != Some(Responder)
    ensures
      var (s, d) := OnStep1(c, r.session, r.identity, canonical, f, draw.secret, draw.coins,
              c.x25519Public(draw.ratchet));
      if d.Respond? then d.answer.step == 2 && Replied(c, l, AfterStep1(r, s, d).0)
      else !d.Resend? && s.role != Some(Responder)
  {
    AnswerReplies(c, l, r, f, draw);
  }

  lemma AnswerReplies(c: Scheme, l: Party, r: Party, f: Signed, draw: Draw)
    requires Lawful(c) && Began(c, l) && f == l.begun.value.frame
    ensures
      var (s, d) := Answer(c, r.session, r.identity, f, draw.secret, draw.coins, c.x25519Public(draw.ratchet));
      d.Respond? && d.answer.step == 2 && Replied(c, l, AfterStep1(r, s, d).0)
  {
    var secret, dk :| Waiting(c, l.identity, l.begun.value, InitiatorKex(c, secret, dk));
    AnswerAnswers(c, l.identity, l.begun.value, r.identity, r.session, secret, dk, draw);
  }

  lemma NothingComing(c: Scheme, l: Party, r: Party, out: multiset<Signed>, back: multiset<Signed>)
    requires Dir(c, l, r, out, back) && l.starts == 1
    requires r.session.role != Some(Responder) && l.session.role == Some(Initiator)
    ensures forall f :: !Coming(l, back, f)
  {
  }

  lemma PeerReplied(c: Scheme, l: Party, r: Party, r': Party,
                    out: multiset<Signed>, out': multiset<Signed>, back: multiset<Signed>,
                            back': multiset<Signed>, f: Signed)
    requires Dir(c, l, r, out, back) && out' <= out && l.starts == 1
    requires r.session.role != Some(Responder) && Replied(c, l, r') && r'.reply.value.frame == f
    requires r'.identity == r.identity && r'.answered == r.answered
    requires back' == back + multiset{f}
    ensures Dir(c, l, r', out', back')
  {
    if l.session.role == Some(Initiator) {
      NothingComing(c, l, r, out, back);
    }
    assert forall f :: f in out' ==> f in out;
    assert forall g :: Coming(l, back', g) ==> Coming(l, back, g) || g == f;
  }

  lemma PeerFinishes(c: Scheme, l: Party, r: Party, out: multiset<Signed>, back: multiset<Signed>, f: Signed)
    requires Lawful(c) && Dir(c, l, r, out, back) && l.starts <= 1 && f in out && f.step == 3
    ensures var r' := ReceiveStep3(c, r, f);
      && Dir(c, l, r', out - multiset{f}, back)
      && r'.answered == l.initiated && r'.session.role == None
  {
    assert Replied(c, l, r);
    ResponderEnds(c, l.identity, l.begun.value, r.identity, r.reply.value, FINISH_BODY);
    var (s, sas) := OnFinish(c, r.session, r.identity, f);
    PeerDone(c, l, r, s, sas.value, out, back, f);
  }

  lemma PeerDone(c: Scheme, l: Party, r: Party, s: Session, sas: string,
                 out: multiset<Signed>, back: multiset<Signed>, f: Signed)
    requires Dir(c, l, r, out, back) && l.starts == 1 && f in out && f.step == 3
    requires l.begun.Some? && r.reply.Some? && s.role == None && AgreedIn(s, sas) == Due(c, l, r)
    ensures var r' := r.(session := s, answered := r.answered + [AgreedIn(s, sas)]);
      && Dir(c, l, r', out - multiset{f}, back)
      && r'.answered == l.initiated
  {
    assert [] + [Due(c, l, r)] == [Due(c, l, r)];
  }

  // ---- Every step keeps the invariant ----

  ghost predicate Sound(p: Party) {
    && (p.wait.Got? ==> p.wait.frame.step == 2)
    && (p.session.step1.Some? ==> p.session.step1.value.step == 1)
  }

  lemma ReactKeepsSound(c: Scheme, p: Party, peerKey: bytes, back: seq<Signed>, ev: Event)
    requires Sound(p)
    ensures Sound(React(c, p, peerKey, back, ev).0)
  {
    if ev.Arrive? && ev.i < |back| {
      ReceiveKeepsSound(c, p, back[ev.i], ev.canonical, ev.draw);
    }
  }

  lemma ReceiveKeepsSound(c: Scheme, p: Party, f: Signed, canonical: bool, draw: Draw)
    requires Sound(p)
    ensures Sound(Receive(c, p, f, canonical, draw).0)
  {
  }

  lemma OwnAnswerKept(c: Scheme, l: Party, r: Party, out: multiset<Signed>, back: multiset<Signed>)
    requires Dir(c, l, r, out, back) && l.starts <= 1
    ensures KeepsOwnAnswer(c, r)
  {
  }

  lemma OwnReceive(c: Scheme, l: Party, r: Party, out: multiset<Signed>, back: multiset<Signed>,
                   f: Signed, canonical: bool, draw: Draw)
    requires Lawful(c) && Dir(c, l, r, out, back) && KeepsOwnAnswer(c, l) && l.starts <= 1 && f in back
    ensures var (l', sent) := Receive(c, l, f, canonical, draw);
      Dir(c, l', r, out + multiset(sent), back - multiset{f})
  {
    if f.step == 1 {
      OwnStep1(c, l, r, out, back, f, canonical, draw);
    } else {
      assert out + multiset(Receive(c, l, f, canonical, draw).1) == out;
      if f.step == 3 {
        OwnStep3(c, l, r, out, back, f);
      } else if f.step == 2 && l.wait.Listening? {
        OwnStep2Arrives(c, l, r, out, back, f);
      } else {
        OwnQuiet(c, l, l, r, out, out, back, back - multiset{f});
      }
    }
  }

  lemma PeerReceive(c: Scheme, l: Party, r: Party, out: multiset<Signed>, back: multiset<Signed>,
                    f: Signed, canonical: bool, draw: Draw)
    requires Lawful(c) && Dir(c, l, r, out, back) && l.starts <= 1 && f in out
    ensures var (r', sent) := Receive(c, r, f, canonical, draw);
      Dir(c, l, r', out - multiset{f}, back + multiset(sent))
  {
    if f.step == 1 {
      if r.session.role == Some(Responder) {
        PeerDuplicate(c, l, r, out, back, f, canonical, draw);
      } else {
        PeerAnswers(c, l, r, out, back, f, canonical, draw);
      }
    } else {
      var r' := Receive(c, r, f, canonical, draw).0;
      assert back + multiset(Receive(c, r, f, canonical, draw).1) == back;
      if f.step == 3 {
        PeerFinishes(c, l, r, out, back, f);
      } else {
        PeerQuiet(c, l, r, r', out, out - multiset{f}, back, back);
      }
    }
  }

  /** What a party does of its own accord makes no responder and sends no step 2. */
  lemma ActEffect(c: Scheme, p: Party, peerKey: bytes, ev: Event)
    requires Sound(p) && !ev.Arrive?
    ensures var (p', sent) := React(c, p, peerKey, [], ev);
      && p'.identity == p.identity && p'.answered == p.answered
      && (p.session.role == Some(Responder) ==> p'.session == p.session && p'.reply == p.reply)
      && (p.session.role != Some(Responder) ==> p'.session.role != Some(Responder))
      && (sent == [] || (|sent| == 1 && sent[0].step != 2))
  {
  }

  lemma PeerActs(c: Scheme, l: Party, r: Party, out: multiset<Signed>, back: multiset<Signed>, ev: Event)
    requires Dir(c, l, r, out, back) && Sound(r) && !ev.Arrive?
    ensures var (r', sent) := React(c, r, Key(c, l), [], ev);
      Dir(c, l, r', out, back + multiset(sent))
  {
    ActEffect(c, r, Key(c, l), ev);
    var (r', sent) := React(c, r, Key(c, l), [], ev);
    SentNoStep2(back, sent);
    PeerQuiet(c, l, r, r', out, out, back, back + multiset(sent));
  }

  lemma SentNoStep2(back: multiset<Signed>, sent: seq<Signed>)
    requires sent == [] || (|sent| == 1 && sent[0].step != 2)
    ensures forall f :: f in back + multiset(sent) && f.step == 2 ==> f in back
  {
    if sent != [] {
      assert sent == [sent[0]];
    }
  }

  lemma OwnActs(c: Scheme, l: Party, r: Party, out: multiset<Signed>, back: multiset<Signed>, ev: Event)
    requires Lawful(c) && Dir(c, l, r, out, back) && Sound(l) && !ev.Arrive?
    requires React(c, l, Key(c, r), [], ev).0.starts <= 1
    ensures var (l', sent) := React(c, l, Key(c, r), [], ev);
      Dir(c, l', r, out + multiset(sent), back)
  {
    assert out + multiset([]) == out;
    match ev
    case Begin(secret, dk) => OwnStart(c, l, r, out, back, secret, dk);
    case Again =>
      if l.session.role == Some(Initiator) && l.session.step1.Some? { OwnAgain(c, l, r, out, back); }
    case Proceed =>
      if l.wait.Got? { OwnProceed(c, l, r, out, back); } else { OwnIdle(c, l, r, out, back, ev); }
    case GiveUp =>
      if l.wait.Listening? { OwnGiveUp(c, l, r, out, back); }
    case _ => OwnIdle(c, l, r, out, back, ev);
  }

  lemma OwnIdle(c: Scheme, l: Party, r: Party, out: multiset<Signed>, back: multiset<Signed>, ev: Event)
    requires Dir(c, l, r, out, back) && l.starts <= 1
    requires ev.Listen? || ev.Lose? || (ev.Proceed? && !l.wait.Got?)
    ensures var (l', sent) := React(c, l, Key(c, r), [], ev);
      sent == [] && Dir(c, l', r, out, back)
  {
    OwnQuiet(c, l, React(c, l, Key(c, r), [], ev).0, r, out, out, back, back);
  }

  lemma RemovedOne<T>(s: seq<T>, i: nat)
    requires i < |s|
    ensures multiset(Without(s, i)) == multiset(s) - multiset{s[i]}
  {
    assert s == s[..i] + [s[i]] + s[i + 1..];
  }

  ghost predicate Good(c: Scheme, net: Net) {
    Inv(c, net) && Sound(net.left) && Sound(net.right)
  }

  lemma StepLeftKeepsGood(c: Scheme, net: Net, ev: Event)
    requires Lawful(c) && Good(c, net) && OneAttemptEach(StepLeft(c, net, ev))
    ensures Good(c, StepLeft(c, net, ev))
  {
    StartsGrow(c, net.left, Key(c, net.right), net.back, ev);
    ReactKeepsSound(c, net.left, Key(c, net.right), net.back, ev);
    if ev.Arrive? && ev.i < |net.back| {
      ArrivalKeepsInv(c, net, ev);
    } else {
      ActKeepsInv(c, net, ev);
    }
  }

  lemma StartsGrow(c: Scheme, p: Party, peerKey: bytes, back: seq<Signed>, ev: Event)
    ensures p.starts <= React(c, p, peerKey, back, ev).0.starts
  {
  }

  lemma ArrivalKeepsInv(c: Scheme, net: Net, ev: Event)
    requires Lawful(c) && Inv(c, net) && OneAttemptEach(net) && ev.Arrive? && ev.i < |net.back|
    ensures Inv(c, StepLeft(c, net, ev))
  {
    var f, l, r := net.back[ev.i], net.left, net.right;
    var (l', sent) := Receive(c, l, f, ev.canonical, ev.draw);
    RemovedOne(net.back, ev.i);
    assert multiset(net.out + sent) == multiset(net.out) + multiset(sent);
    OwnAnswerKept(c, r, l, multiset(net.back), multiset(net.out));
    OwnReceive(c, l, r, multiset(net.out), multiset(net.back), f, ev.canonical, ev.draw);
    PeerReceive(c, r, l, multiset(net.back), multiset(net.out), f, ev.canonical, ev.draw);
  }

  /** A frame that is lost, or an arrival of none, changes neither party. */
  lemma LossKeepsInv(c: Scheme, net: Net, back: seq<Signed>)
    requires Inv(c, net) && net.left.starts <= 1 && multiset(back) <= multiset(net.back)
    ensures Inv(c, net.(back := back))
  {
    var l, r, out := net.left, net.right, multiset(net.out);
    OwnQuiet(c, l, l, r, out, out, multiset(net.back), multiset(back));
    PeerQuiet(c, r, l, l, multiset(net.back), multiset(back), out, out);
  }

  lemma ActKeepsInv(c: Scheme, net: Net, ev: Event)
    requires Lawful(c) && Good(c, net) && OneAttemptEach(StepLeft(c, net, ev))
    requires ev.Arrive? ==> ev.i >= |net.back|
    ensures Inv(c, StepLeft(c, net, ev))
  {
    var l, r := net.left, net.right;
    if ev.Arrive? || ev.Lose? {
      if ev.i < |net.back| { RemovedOne(net.back, ev.i); }
      assert net.out + [] == net.out;
      LossKeepsInv(c, net, Without(net.back, ev.i));
    } else {
      var (l', sent) := React(c, l, Key(c, r), net.back, ev);
      OwnActs(c, l, r, multiset(net.out), multiset(net.back), ev);
      PeerActs(c, r, l, multiset(net.back), multiset(net.out), ev);
      assert multiset(net.out + sent) == multiset(net.out) + multiset(sent);
    }
  }
}
