/** What holds over whole runs of the handshake. */
module HandshakeTheorems {
  import opened Bytes
  import opened Primitives
  import opened KeyExchange
  import opened SignedSteps
  import opened PeerCryptos
  import opened Sessions
  import opened HandshakeProtocol

  lemma StepKeepsGood(c: Scheme, net: Net, act: Act)
    requires Lawful(c) && Good(c, net) && OneAttemptEach(Step(c, net, act))
    ensures Good(c, Step(c, net, act))
  {
    match act
    case OnLeft(ev) => StepLeftKeepsGood(c, net, ev);
    case OnRight(ev) => StepLeftKeepsGood(c, Flip(net), ev);
  }

  lemma StepStarts(c: Scheme, net: Net, act: Act)
    ensures net.left.starts <= Step(c, net, act).left.starts && net.right.starts <= Step(c, net, act).right.starts
  {
    match act
    case OnLeft(ev) => StartsGrow(c, net.left, Key(c, net.right), net.back, ev);
    case OnRight(ev) => StartsGrow(c, net.right, Key(c, net.left), net.out, ev);
  }

  lemma {:induction false} RunStarts(c: Scheme, net: Net, acts: seq<Act>)
    requires OneAttemptEach(Exec(c, net, acts))
    ensures OneAttemptEach(net)
    decreases acts
  {
    if acts != [] {
      RunStarts(c, Step(c, net, acts[0]), acts[1..]);
      StepStarts(c, net, acts[0]);
    }
  }

  lemma {:induction false} RunKeepsGood(c: Scheme, net: Net, acts: seq<Act>)
    requires Lawful(c) && Good(c, net) && OneAttemptEach(Exec(c, net, acts))
    ensures Good(c, Exec(c, net, acts))
    decreases acts
  {
    if acts != [] {
      var next := Step(c, net, acts[0]);
      RunStarts(c, next, acts[1..]);
      StepKeepsGood(c, net, acts[0]);
      RunKeepsGood(c, next, acts[1..]);
    }
  }

  /** Whoever finishes as responder holds exactly what the other one finished with as initiator. */
  ghost predicate Agreement(net: Net) {
    && |net.left.initiated| <= 1 && |net.right.initiated| <= 1
    && net.right.answered <= net.left.initiated
    && net.left.answered <= net.right.initiated
  }

  /** In every run in which each side starts at most one attempt, whatever is lost, overtaken or sent
      again and whoever gives up, a responder finishes only with the transcript, the secret and the
      short string the initiator finished with. */
  lemma HandshakeAgreement(c: Scheme, left: bytes, right: bytes, acts: seq<Act>)
    requires Lawful(c) && OneAttemptEach(Exec(c, Strangers(left, right), acts))
    ensures Agreement(Exec(c, Strangers(left, right), acts))
  {
    StrangersGood(c, left, right);
    RunKeepsGood(c, Strangers(left, right), acts);
    GoodAgrees(c, Exec(c, Strangers(left, right), acts));
  }

  lemma StrangersGood(c: Scheme, left: bytes, right: bytes)
    ensures Good(c, Strangers(left, right))
  {
  }

  lemma GoodAgrees(c: Scheme, net: Net)
    requires Good(c, net) && OneAttemptEach(net)
    ensures Agreement(net)
  {
  }

  /** An initiator that has finished has a responder that will finish alike: it still waits, and the
      last step makes it hold the same. */
  lemma ResponderWillAgree(c: Scheme, left: bytes, right: bytes, acts: seq<Act>, i: nat)
    requires Lawful(c) && OneAttemptEach(Exec(c, Strangers(left, right), acts))
    ensures var net := Exec(c, Strangers(left, right), acts);
      net.left.initiated != [] && net.right.answered == [] ==>
        && net.right.session.role == Some(Responder)
        && (i < |net.out| && net.out[i].step == 3 ==>
              ReceiveStep3(c, net.right, net.out[i]).answered == net.left.initiated)
  {
    StrangersGood(c, left, right);
    RunKeepsGood(c, Strangers(left, right), acts);
    var net := Exec(c, Strangers(left, right), acts);
    if net.left.initiated != [] && net.right.answered == [] {
      FinishedAgrees(c, net, i);
    }
  }

  lemma FinishedAgrees(c: Scheme, net: Net, i: nat)
    requires Lawful(c) && Good(c, net) && OneAttemptEach(net)
    requires net.left.initiated != [] && net.right.answered == []
    ensures net.right.session.role == Some(Responder)
    ensures i < |net.out| && net.out[i].step == 3 ==>
      ReceiveStep3(c, net.right, net.out[i]).answered == net.left.initiated
  {
    if i < |net.out| && net.out[i].step == 3 {
      PeerFinishes(c, net.left, net.right, multiset(net.out), multiset(net.back), net.out[i]);
    }
  }

  // ---- Never both responders ----

  /** Frames arrive in the order they were sent, and the side with the smaller key does not give up. */
  predicate Orderly(leftSmaller: bool, act: Act) {
    && (act.ev.Arrive? ==> act.ev.i == 0)
    && (act.ev.GiveUp? ==> act.OnRight? == leftSmaller)
  }

  predicate AllOrderly(leftSmaller: bool, acts: seq<Act>) {
    forall i :: 0 <= i < |acts| ==> Orderly(leftSmaller, acts[i])
  }

  predicate Lacks(s: seq<Signed>, step: int) {
    forall i :: 0 <= i < |s| ==> s[i].step != step
  }

  /** No frame of the second kind is behind one of the first. */
  predicate Before(s: seq<Signed>, late: int, early: int) {
    forall i, j :: 0 <= i < j < |s| ==> !(s[i].step == late && s[j].step == early)
  }

  predicate IsInitiator(p: Party) {
    p.session.role == Some(Initiator)
  }

  predicate IsResponder(p: Party) {
    p.session.role == Some(Responder)
  }

  /** `s` has the smaller key, `sb` leads from it to `b` and `bs` back. */
  ghost predicate OneResponder(s: Party, b: Party, sb: seq<Signed>, bs: seq<Signed>) {
    && !(IsResponder(s) && IsResponder(b))
    && (s.starts > 0 ==> IsInitiator(s) || s.initiated != [])
    && (s.initiated != [] && b.answered != [] ==> Lacks(sb, 1) && !IsResponder(b))
    && Before(sb, 3, 1)
    && (s.initiated != [] && IsResponder(b) ==> Lacks(bs, 1))
    && (IsInitiator(s) ==> Before(bs, 2, 1) && (s.wait.Got? ==> Lacks(bs, 1)))
  }

  /** What the invariant says of the attempt of `l`, in these terms. */
  ghost predicate Facts(l: Party, r: Party, out: seq<Signed>, back: seq<Signed>) {
    && (l.starts == 0 ==> !IsInitiator(l) && !IsResponder(r) && l.initiated == [])
    && (l.starts == 0 ==> Lacks(out, 1) && Lacks(out, 3) && Lacks(back, 2))
    && (IsInitiator(l) ==> l.initiated == [] && Lacks(out, 3))
    && (IsInitiator(l) && (l.wait.Got? || !Lacks(back, 2)) ==> IsResponder(r))
    && (l.initiated == [] ==> r.answered == [] && Lacks(out, 3))
    && (l.initiated != [] && r.answered == [] ==> IsResponder(r))
    && (r.answered != [] ==> Lacks(out, 3))
  }

  lemma GoodFacts(c: Scheme, l: Party, r: Party, out: seq<Signed>, back: seq<Signed>)
    requires Good(c, Net(l, r, out, back)) && l.starts <= 1
    ensures Facts(l, r, out, back)
  {
    assert forall i :: 0 <= i < |out| ==> out[i] in multiset(out);
    assert forall i :: 0 <= i < |back| ==> back[i] in multiset(back);
    if IsInitiator(l) && (l.wait.Got? || !Lacks(back, 2)) {
      var f := if l.wait.Got? then l.wait.frame else var i :| 0 <= i < |back| && back[i].step == 2; back[i];
      assert Coming(l, multiset(back), f);
    }
  }

  // A party's step, told by roles.

  ghost predicate Stays(p: Party, p': Party) {
    && p'.session.role == p.session.role && p'.starts == p.starts
    && p'.initiated == p.initiated && p'.answered == p.answered
  }

  ghost predicate StartsNow(p: Party, p': Party, sent: seq<Signed>) {
    && !IsResponder(p) && IsInitiator(p') && p'.starts == p.starts + 1 && !p'.wait.Got?
    && p'.initiated == p.initiated && p'.answered == p.answered
    && |sent| == 1 && sent[0].step == 1
  }

  lemma BeginShape(c: Scheme, p: Party, peerKey: bytes, secret: bytes, dk: bytes)
    ensures var (p', sent) := TryStart(c, p, secret, dk);
      (p' == p && sent == [] && IsResponder(p)) || StartsNow(p, p', sent)
  {
  }

  lemma IdleShape(c: Scheme, p: Party, peerKey: bytes, back: seq<Signed>, ev: Event)
    requires Sound(p) && (ev.Listen? || ev.Again? || ev.Lose?)
    ensures var (p', sent) := React(c, p, peerKey, back, ev);
      && Stays(p, p') && (p'.wait.Got? ==> p.wait.Got?)
      && (sent == [] || (IsInitiator(p) && |sent| == 1 && sent[0].step == 1))
  {
  }

  lemma ProceedShape(c: Scheme, p: Party, peerKey: bytes)
    ensures var (p', sent) := GoOn(c, p, peerKey);
      && p'.answered == p.answered && p'.starts == p.starts && !p'.wait.Got?
      && p.initiated <= p'.initiated
      && (!p.wait.Got? || !IsInitiator(p) ==> Stays(p, p') && sent == [])
      && (p.wait.Got? ==> !IsInitiator(p') && (IsResponder(p') <==> IsResponder(p)))
      && (sent == [] || (|sent| == 1 && sent[0].step == 3))
  {
  }

  /** A step 1 leaves an initiator alone or makes it a responder, and is answered by steps 2 only. */
  lemma Step1Shape(c: Scheme, p: Party, f: Signed, canonical: bool, draw: Draw)
    requires KeepsOwnAnswer(c, p)
    ensures var (p', sent) := ReceiveStep1(c, p, f, canonical, draw);
      && p'.initiated == p.initiated && p'.answered == p.answered && p'.starts == p.starts
      && (IsInitiator(p') ==> IsInitiator(p) && p'.wait == p.wait)
      && (IsInitiator(p) && Less(Key(c, p), f.identity) ==> p' == p && sent == [])
      && (IsResponder(p) ==> IsResponder(p') || !IsInitiator(p'))
      && (p'.wait.Got? ==> p.wait.Got?)
      && (sent == [] || (|sent| == 1 && sent[0].step == 2))
  {
  }

  lemma Step3Shape(c: Scheme, p: Party, f: Signed)
    ensures var p' := ReceiveStep3(c, p, f);
      && p'.initiated == p.initiated && p'.starts == p.starts && p'.wait == p.wait
      && (IsResponder(p) ==> !IsResponder(p') && !IsInitiator(p'))
      && (!IsResponder(p) ==> Stays(p, p'))
  {
  }

  // Order of frames in a channel.

  lemma BeforeAppend(s: seq<Signed>, sent: seq<Signed>, late: int, early: int)
    requires Before(s, late, early) && |sent| <= 1
    requires (sent != [] ==> sent[0].step != early) || Lacks(s, late)
    ensures Before(s + sent, late, early)
  {
  }

  lemma BeforeWithout(s: seq<Signed>, i: nat, late: int, early: int)
    requires Before(s, late, early)
    ensures Before(Without(s, i), late, early)
    ensures i < |s| && s[i].step == late && i == 0 ==> Lacks(Without(s, i), early)
  {
  }

  lemma LacksChange(s: seq<Signed>, i: nat, sent: seq<Signed>, step: int)
    requires Lacks(s, step)
    ensures Lacks(Without(s, i), step)
    ensures |sent| <= 1 && (sent != [] ==> sent[0].step != step) ==> Lacks(s + sent, step)
  {
  }

  // The side with the smaller key.

  lemma SmallBegins(s: Party, b: Party, sb: seq<Signed>, bs: seq<Signed>, s': Party, sent: seq<Signed>)
    requires Facts(s, b, sb, bs) && OneResponder(s, b, sb, bs) && StartsNow(s, s', sent) && s'.starts <= 1
    ensures OneResponder(s', b, sb + sent, bs)
  {
    BeforeAppend(sb, sent, 3, 1);
  }

  lemma SmallIdles(s: Party, b: Party, sb: seq<Signed>, bs: seq<Signed>, s': Party, sent: seq<Signed>,
          bs': seq<Signed>, i: nat)
    requires Facts(s, b, sb, bs) && OneResponder(s, b, sb, bs) && Stays(s, s') && (s'.wait.Got? ==> s.wait.Got?)
    requires sent == [] || (IsInitiator(s) && |sent| == 1 && sent[0].step == 1)
    requires bs' == bs || bs' == Without(bs, i)
    ensures OneResponder(s', b, sb + sent, bs')
  {
    BeforeAppend(sb, sent, 3, 1);
    BeforeChange(bs, i);
  }

  lemma BeforeChange(s: seq<Signed>, i: nat)
    ensures Before(s, 2, 1) ==> Before(Without(s, i), 2, 1)
    ensures Before(s, 3, 1) ==> Before(Without(s, i), 3, 1)
    ensures Lacks(s, 1) ==> Lacks(Without(s, i), 1)
  {
  }

  lemma SmallFinishes(s: Party, b: Party, sb: seq<Signed>, bs: seq<Signed>, s': Party, sent: seq<Signed>)
    requires Facts(s, b, sb, bs) && OneResponder(s, b, sb, bs)
    requires IsInitiator(s) && s.wait.Got?
    requires s'.session.role == Option.None && s'.initiated != [] && s'.starts == s.starts
    requires sent == [] || (|sent| == 1 && sent[0].step == 3)
    ensures OneResponder(s', b, sb + sent, bs)
  {
    BeforeAppend(sb, sent, 3, 1);
  }

  lemma SmallHearsStep1(s: Party, b: Party, sb: seq<Signed>, bs: seq<Signed>, s': Party, sent: seq<Signed>)
    requires Facts(s, b, sb, bs) && OneResponder(s, b, sb, bs) && bs != [] && bs[0].step == 1 && s.starts <= 1
    requires s'.initiated == s.initiated && s'.answered == s.answered && s'.starts == s.starts
    requires if IsInitiator(s) then s' == s else !IsInitiator(s')
    requires sent == [] || (|sent| == 1 && sent[0].step == 2)
    ensures OneResponder(s', b, sb + sent, Without(bs, 0))
  {
    BeforeAppend(sb, sent, 3, 1);
    BeforeChange(bs, 0);
    if s.initiated != [] && b.answered != [] {
      LacksChange(sb, 0, sent, 1);
    }
  }

  lemma SmallHearsStep2(s: Party, b: Party, sb: seq<Signed>, bs: seq<Signed>, s': Party)
    requires OneResponder(s, b, sb, bs) && bs != [] && bs[0].step == 2 && Stays(s, s')
    ensures OneResponder(s', b, sb, Without(bs, 0))
  {
    BeforeChange(bs, 0);
    if IsInitiator(s) {
      BeforeWithout(bs, 0, 2, 1);
    }
  }

  lemma SmallHearsStep3(s: Party, b: Party, sb: seq<Signed>, bs: seq<Signed>, s': Party)
    requires OneResponder(s, b, sb, bs)
    requires s'.initiated == s.initiated && s'.starts == s.starts && s'.wait == s.wait
    requires IsResponder(s) ==> !IsResponder(s') && !IsInitiator(s')
    requires !IsResponder(s) ==> Stays(s, s')
    ensures OneResponder(s', b, sb, Without(bs, 0))
  {
    BeforeChange(bs, 0);
  }

  // The side with the larger key.

  lemma BigBegins(s: Party, b: Party, sb: seq<Signed>, bs: seq<Signed>, b': Party, sent: seq<Signed>)
    requires Facts(s, b, sb, bs) && OneResponder(s, b, sb, bs) && StartsNow(b, b', sent)
    ensures OneResponder(s, b', sb, bs + sent)
  {
    if IsInitiator(s) {
      BeforeAppend(bs, sent, 2, 1);
    }
  }

  lemma BigIdles(s: Party, b: Party, sb: seq<Signed>, bs: seq<Signed>, b': Party, sent: seq<Signed>,
          sb': seq<Signed>, i: nat)
    requires Facts(s, b, sb, bs) && OneResponder(s, b, sb, bs)
    requires b'.answered == b.answered && (IsResponder(b') <==> IsResponder(b))
    requires sent == [] || (|sent| == 1 && (sent[0].step == 3 || (IsInitiator(b) && sent[0].step == 1)))
    requires sb' == sb || sb' == Without(sb, i)
    ensures OneResponder(s, b', sb', bs + sent)
  {
    if IsInitiator(s) {
      BeforeAppend(bs, sent, 2, 1);
    }
    BeforeChange(sb, i);
  }

  lemma BigHearsStep1(s: Party, b: Party, sb: seq<Signed>, bs: seq<Signed>, b': Party, sent: seq<Signed>)
    requires Facts(s, b, sb, bs) && OneResponder(s, b, sb, bs) && sb != [] && sb[0].step == 1
    requires b'.answered == b.answered
    requires sent == [] || (|sent| == 1 && sent[0].step == 2)
    ensures OneResponder(s, b', Without(sb, 0), bs + sent)
  {
    BeforeChange(sb, 0);
    if IsInitiator(s) {
      BeforeAppend(bs, sent, 2, 1);
    }
    if Lacks(bs, 1) {
      LacksChange(bs, 0, sent, 1);
    }
  }

  lemma BigHearsStep3(s: Party, b: Party, sb: seq<Signed>, bs: seq<Signed>, b': Party)
    requires Facts(s, b, sb, bs) && OneResponder(s, b, sb, bs) && sb != [] && sb[0].step == 3
    requires b'.answered == s.initiated && b'.session.role == Option.None
    ensures OneResponder(s, b', Without(sb, 0), bs)
  {
    BeforeWithout(sb, 0, 3, 1);
  }

  // Every orderly step.

  ghost predicate Ordered(c: Scheme, net: Net) {
    && Good(c, net) && OneAttemptEach(net) && Less(Key(c, net.left), Key(c, net.right))
    && OneResponder(net.left, net.right, net.out, net.back)
  }

  /** `OneResponder` after a step of the smaller side, and of the larger. */
  ghost predicate SmallKeeps(c: Scheme, net: Net, ev: Event) {
    var (s', sent) := React(c, net.left, Key(c, net.right), net.back, ev);
    OneResponder(s', net.right, net.out + sent, Left(net.back, ev))
  }

  ghost predicate BigKeeps(c: Scheme, net: Net, ev: Event) {
    var (b', sent) := React(c, net.right, Key(c, net.left), net.out, ev);
    OneResponder(net.left, b', Left(net.out, ev), net.back + sent)
  }

  ghost predicate Known(net: Net) {
    Facts(net.left, net.right, net.out, net.back) && OneResponder(net.left, net.right, net.out, net.back)
  }

  lemma SmallStarts(c: Scheme, net: Net, secret: bytes, dk: bytes)
    requires Known(net) && TryStart(c, net.left, secret, dk).0.starts <= 1
    ensures SmallKeeps(c, net, Begin(secret, dk))
  {
    var (s', sent) := TryStart(c, net.left, secret, dk);
    BeginShape(c, net.left, Key(c, net.right), secret, dk);
    if sent == [] {
      assert net.out + [] == net.out;
    } else {
      SmallBegins(net.left, net.right, net.out, net.back, s', sent);
    }
  }

  lemma SmallRests(c: Scheme, net: Net, ev: Event, i: nat)
    requires Known(net) && Sound(net.left)
    requires ev.Listen? || ev.Again? || ev == Lose(i)
    ensures SmallKeeps(c, net, ev)
  {
    IdleShape(c, net.left, Key(c, net.right), net.back, ev);
    var (s', sent) := React(c, net.left, Key(c, net.right), net.back, ev);
    SmallIdles(net.left, net.right, net.out, net.back, s', sent, Left(net.back, ev), i);
  }

  lemma SmallProceeds(c: Scheme, net: Net)
    requires Known(net)
    requires net.left.wait.Got? && IsInitiator(net.left) ==> GoOn(c, net.left, Key(c, net.right)).0.initiated != []
    ensures SmallKeeps(c, net, Proceed)
  {
    var s, b, sb, bs := net.left, net.right, net.out, net.back;
    ProceedShape(c, s, Key(c, b));
    var (s', sent) := GoOn(c, s, Key(c, b));
    if s.wait.Got? && IsInitiator(s) {
      SmallFinishes(s, b, sb, bs, s', sent);
    } else {
      SmallIdles(s, b, sb, bs, s', sent, bs, 0);
    }
  }

  lemma SmallHears(c: Scheme, net: Net, canonical: bool, draw: Draw)
    requires Known(net) && net.back != [] && KeepsOwnAnswer(c, net.left) && net.left.starts <= 1
    requires Less(Key(c, net.left), net.back[0].identity)
    ensures SmallKeeps(c, net, Arrive(0, canonical, draw))
  {
    var s, b, sb, bs := net.left, net.right, net.out, net.back;
    var f := bs[0];
    assert sb + [] == sb;
    if f.step == 1 {
      Step1Shape(c, s, f, canonical, draw);
      var (s', sent) := ReceiveStep1(c, s, f, canonical, draw);
      SmallHearsStep1(s, b, sb, bs, s', sent);
    } else if f.step == 3 {
      Step3Shape(c, s, f);
      SmallHearsStep3(s, b, sb, bs, ReceiveStep3(c, s, f));
    } else if f.step == 2 {
      SmallHearsStep2(s, b, sb, bs, if s.wait.Listening? then s.(wait := Got(f)) else s);
    } else {
      SmallIdles(s, b, sb, bs, s, [], Without(bs, 0), 0);
    }
  }

  lemma SmallArrives(c: Scheme, net: Net, canonical: bool, draw: Draw)
    requires Known(net) && Good(c, net) && OneAttemptEach(net) && Less(Key(c, net.left), Key(c, net.right))
    ensures SmallKeeps(c, net, Arrive(0, canonical, draw))
  {
    if net.back == [] {
      assert net.out + [] == net.out;
    } else {
      assert net.back[0] in multiset(net.back);
      OwnAnswerKept(c, net.right, net.left, multiset(net.back), multiset(net.out));
      SmallHears(c, net, canonical, draw);
    }
  }

  lemma SmallStep(c: Scheme, net: Net, ev: Event)
    requires Lawful(c) && Known(net) && Good(c, net) && OneAttemptEach(net)
    requires Orderly(true, OnLeft(ev)) && Less(Key(c, net.left), Key(c, net.right))
    requires React(c, net.left, Key(c, net.right), net.back, ev).0.starts <= 1
    ensures SmallKeeps(c, net, ev)
  {
    match ev
    case Begin(secret, dk) => SmallStarts(c, net, secret, dk);
    case Proceed =>
      if net.left.wait.Got? {
        OwnProceed(c, net.left, net.right, multiset(net.out), multiset(net.back));
      }
      SmallProceeds(c, net);
    case Arrive(_, canonical, draw) => SmallArrives(c, net, canonical, draw);
    case Lose(i) => SmallRests(c, net, ev, i);
    case Listen => SmallRests(c, net, ev, 0);
    case Again => SmallRests(c, net, ev, 0);
    case GiveUp =>
  }

  lemma BigStarts(c: Scheme, net: Net, secret: bytes, dk: bytes)
    requires Known(net)
    ensures BigKeeps(c, net, Begin(secret, dk))
  {
    var (b', sent) := TryStart(c, net.right, secret, dk);
    BeginShape(c, net.right, Key(c, net.left), secret, dk);
    if sent == [] {
      assert net.back + [] == net.back;
    } else {
      BigBegins(net.left, net.right, net.out, net.back, b', sent);
    }
  }

  lemma BigRests(c: Scheme, net: Net, ev: Event, i: nat)
    requires Known(net) && Sound(net.right)
    requires ev.Listen? || ev.Again? || ev == Lose(i)
    ensures BigKeeps(c, net, ev)
  {
    IdleShape(c, net.right, Key(c, net.left), net.out, ev);
    var (b', sent) := React(c, net.right, Key(c, net.left), net.out, ev);
    BigIdles(net.left, net.right, net.out, net.back, b', sent, Left(net.out, ev), i);
  }

  lemma BigProceeds(c: Scheme, net: Net)
    requires Known(net)
    ensures BigKeeps(c, net, Proceed)
  {
    ProceedShape(c, net.right, Key(c, net.left));
    var (b', sent) := GoOn(c, net.right, Key(c, net.left));
    BigIdles(net.left, net.right, net.out, net.back, b', sent, net.out, 0);
  }

  /** Giving up makes the larger side no responder, so it does no harm. */
  lemma BigGivesUp(c: Scheme, net: Net)
    requires Known(net)
    ensures BigKeeps(c, net, GiveUp)
  {
    var (b', sent) := React(c, net.right, Key(c, net.left), net.out, GiveUp);
    BigIdles(net.left, net.right, net.out, net.back, b', sent, net.out, 0);
  }

  lemma BigHearsAny(c: Scheme, net: Net, canonical: bool, draw: Draw)
    requires Known(net) && net.out != [] && KeepsOwnAnswer(c, net.right)
    requires net.out[0].step == 3 ==>
      var b' := ReceiveStep3(c, net.right, net.out[0]);
      b'.answered == net.left.initiated && b'.session.role == Option.None
    ensures BigKeeps(c, net, Arrive(0, canonical, draw))
  {
    var s, b, sb, bs := net.left, net.right, net.out, net.back;
    var f := sb[0];
    assert bs + [] == bs;
    if f.step == 1 {
      Step1Shape(c, b, f, canonical, draw);
      var (b', sent) := ReceiveStep1(c, b, f, canonical, draw);
      BigHearsStep1(s, b, sb, bs, b', sent);
    } else if f.step == 3 {
      BigHearsStep3(s, b, sb, bs, ReceiveStep3(c, b, f));
    } else {
      var (b', sent) := Receive(c, b, f, canonical, draw);
      BigIdles(s, b, sb, bs, b', sent, Without(sb, 0), 0);
    }
  }

  lemma BigStep(c: Scheme, net: Net, ev: Event)
    requires Lawful(c) && Known(net) && Good(c, net) && OneAttemptEach(net) && Orderly(true, OnRight(ev))
    ensures BigKeeps(c, net, ev)
  {
    match ev
    case Begin(secret, dk) => BigStarts(c, net, secret, dk);
    case Proceed => BigProceeds(c, net);
    case Arrive(_, canonical, draw) =>
      if net.out == [] {
        BigRests(c, net, Lose(0), 0);
      } else {
        assert net.out[0] in multiset(net.out);
        OwnAnswerKept(c, net.left, net.right, multiset(net.out), multiset(net.back));
        if net.out[0].step == 3 {
          PeerFinishes(c, net.left, net.right, multiset(net.out), multiset(net.back), net.out[0]);
        }
        BigHearsAny(c, net, canonical, draw);
      }
    case Lose(i) => BigRests(c, net, ev, i);
    case Listen => BigRests(c, net, ev, 0);
    case Again => BigRests(c, net, ev, 0);
    case GiveUp => BigGivesUp(c, net);
  }

  lemma StepKeepsOrdered(c: Scheme, net: Net, act: Act)
    requires Lawful(c) && Ordered(c, net) && Orderly(true, act) && OneAttemptEach(Step(c, net, act))
    ensures Ordered(c, Step(c, net, act))
  {
    StepKeepsGood(c, net, act);
    KeysStay(c, net, act);
    GoodFacts(c, net.left, net.right, net.out, net.back);
    match act
    case OnLeft(ev) => SmallStep(c, net, ev);
    case OnRight(ev) => BigStep(c, net, ev);
  }

  lemma KeysStay(c: Scheme, net: Net, act: Act)
    ensures Step(c, net, act).left.identity == net.left.identity
    ensures Step(c, net, act).right.identity == net.right.identity
  {
  }

  lemma {:induction false} RunKeepsOrdered(c: Scheme, net: Net, acts: seq<Act>)
    requires Lawful(c) && Ordered(c, net) && AllOrderly(true, acts) && OneAttemptEach(Exec(c, net, acts))
    ensures Ordered(c, Exec(c, net, acts))
    decreases acts
  {
    if acts != [] {
      var next := Step(c, net, acts[0]);
      RunStarts(c, next, acts[1..]);
      StepKeepsOrdered(c, net, acts[0]);
      RunKeepsOrdered(c, next, acts[1..]);
    }
  }

  function Mirror(acts: seq<Act>): (r: seq<Act>)
    ensures |r| == |acts|
    ensures forall i :: 0 <= i < |acts| ==> r[i].ev == acts[i].ev && r[i].OnLeft? == acts[i].OnRight?
  {
    if acts == [] then []
    else [if acts[0].OnLeft? then OnRight(acts[0].ev) else OnLeft(acts[0].ev)] + Mirror(acts[1..])
  }

  lemma {:induction false} MirrorRun(c: Scheme, net: Net, acts: seq<Act>)
    ensures Exec(c, Flip(net), Mirror(acts)) == Flip(Exec(c, net, acts))
    decreases acts
  {
    if acts != [] {
      MirrorRun(c, Step(c, net, acts[0]), acts[1..]);
      assert Mirror(acts)[1..] == Mirror(acts[1..]);
    }
  }

  /** With frames arriving in order, and unless the side with the smaller key gives up, two sides that
      start at most one attempt each are never both responders: of two simultaneous attempts the one
      of the smaller key goes on. */
  lemma NeverBothResponders(c: Scheme, left: bytes, right: bytes, acts: seq<Act>)
    requires Lawful(c) && c.edPublic(left) != c.edPublic(right)
    requires AllOrderly(Less(c.edPublic(left), c.edPublic(right)), acts)
    requires OneAttemptEach(Exec(c, Strangers(left, right), acts))
    ensures var net := Exec(c, Strangers(left, right), acts);
      !(IsResponder(net.left) && IsResponder(net.right))
  {
    LessTotal(c.edPublic(left), c.edPublic(right));
    if Less(c.edPublic(left), c.edPublic(right)) {
      StrangersGood(c, left, right);
      RunKeepsOrdered(c, Strangers(left, right), acts);
    } else {
      MirrorRun(c, Strangers(left, right), acts);
      StrangersGood(c, right, left);
      RunKeepsOrdered(c, Strangers(right, left), Mirror(acts));
    }
  }
}
