/** The same of the engine's sessions: which step 1 is answered, and whom a session ends up with. */
module SessionAuthentication {
  import opened Bytes
  import opened Primitives
  import opened KeyExchange
  import opened SignedSteps
  import opened PeerCryptos
  import opened TrustFacts
  import opened Sessions
  import opened Authentication

  /** A step 1 is answered exactly if it is well signed and well formed, is not the one answered last,
      does not come under a known peer's id with another identity than the one held, and does not lose
      against an attempt of our own. */
  lemma AnsweredIff(c: Scheme, s: Session, identity: bytes, canonical: bool, f: Signed,
                    secret: bytes, coins: bytes, pk: bytes)
    ensures var (t, d) := OnStep1(c, s, identity, canonical, f, secret, coins, pk);
      && (d.Respond? <==>
            && SignedBy(c, f, f.identity, 1) && |f.body| >= 1216 && c.kemKeyOk(f.body[32..1216])
            && s.answeredStep1 != Some(f.signature)
            && !(canonical && s.crypto.remote != seq(32, _ => 0) && s.crypto.remote != f.identity)
            && !(s.role == Some(Initiator) && Less(c.edPublic(identity), f.identity)))
      && (d.Respond? ==> t.role == Some(Responder) && t.crypto.remote == f.identity
                         && t.answeredStep1 == Some(f.signature) && t.step2 == Some(d.answer)
                         && t.step1.None? && (d.yielded <==> s.role == Some(Initiator)))
  {
    NoIdentityIsZeros();
    Step1AcceptedIff(c, NewConnected, identity, f, secret, coins, pk);
  }

  lemma NoIdentityIsZeros()
    ensures NO_IDENTITY == seq(32, _ => 0)
  {
  }

  /** What is not answered: a frame without a good signature, one of another identity under a known
      peer's id, and the smaller side's rival leave the session alone; a repetition is answered as before
      while the responder waits. */
  lemma UnansweredStep1(c: Scheme, s: Session, identity: bytes, canonical: bool, f: Signed,
                        secret: bytes, coins: bytes, pk: bytes)
    ensures var (t, d) := OnStep1(c, s, identity, canonical, f, secret, coins, pk);
      var signed := |f.signature| == 64 && c.verify(f.identity, [f.step] + f.identity + f.body, f.signature);
      var repeated := s.answeredStep1 == Some(f.signature);
      var foreign := canonical && s.crypto.remote != seq(32, _ => 0) && s.crypto.remote != f.identity;
      && (!signed ==> t == s && d == Ignore)
      && (signed && repeated ==>
            t == s && d == if s.role == Some(Responder) && s.step2.Some? then Resend(s.step2.value) else Ignore)
      && (signed && !repeated && foreign ==> t == s && d.Fail?)
      && (signed && !repeated && !foreign && s.role == Some(Initiator) && Less(c.edPublic(identity), f.identity) ==>
            t == s && d == Ignore)
  {
    NoIdentityIsZeros();
  }

  /** Giving up leaves nothing of the attempt behind: whoever had been expected, any good step 1 but the
      one answered last is answered then. Only an initiator gives up. */
  lemma GivenUpAnswersAnyone(c: Scheme, s: Session, identity: bytes, canonical: bool, f: Signed,
                             secret: bytes, coins: bytes, pk: bytes)
    ensures var (_, d) := OnStep1(c, Abort(s), identity, canonical, f, secret, coins, pk);
      s.role == Some(Initiator) ==>
        (d.Respond? <==> SignedBy(c, f, f.identity, 1) && |f.body| >= 1216 && c.kemKeyOk(f.body[32..1216])
                         && s.answeredStep1 != Some(f.signature))
    ensures s.role != Some(Initiator) ==> Abort(s) == s
    ensures !Verified(Abort(s).crypto) || s.role != Some(Initiator)
  {
    AnsweredIff(c, Abort(s), identity, canonical, f, secret, coins, pk);
  }

  /** The initiator's session finishes exactly on the expected identity's answer, and is reset by
      everything else. */
  lemma FinishedIff(c: Scheme, s: Session, identity: bytes, f: Signed, expected: bytes)
    requires Sound(s.crypto) && s.role == Some(Initiator)
    ensures var (t, r) := OnStep2(c, s, identity, f, expected);
      && (r.Ok? <==> s.pendingKex.Some? && SignedBy(c, f, expected, 2) && s.crypto.transcript.nextStep == 2
                     && |f.body| >= 1152 && s.pendingKex.value.x25519Secret.Some? && s.pendingKex.value.mlkemDk.Some?)
      && (r.Ok? ==> t.crypto.remote == expected && t.crypto.trust == SasPending(r.value.1)
                    && r.value.0 == SignStep(c, identity, 3, [1]))
      && (r.Err? ==> t.crypto == NewConnected)
      && t.role == None && t.pendingKex == None && t.step1 == None
  {
    if s.pendingKex.Some? {
      Step2AcceptedIff(c, s.crypto, s.pendingKex.value, f, expected);
    }
  }

  /** The responder's session finishes exactly on a step 3 of the signer of its step 1, and is reset by
      everything else. */
  lemma ConcludedIff(c: Scheme, s: Session, identity: bytes, f: Signed)
    requires Sound(s.crypto) && s.role == Some(Responder)
    ensures var (t, r) := OnFinish(c, s, identity, f);
      && (r.Ok? <==> SignedBy(c, f, s.crypto.remote, 3) && s.crypto.transcript.nextStep == 3 && s.crypto.secret.Some?)
      && (r.Ok? ==> t.crypto.remote == s.crypto.remote && t.crypto.trust == SasPending(r.value))
      && (r.Err? ==> t.crypto == NewConnected)
      && t.role == None && t.pendingKex == None && t.step2 == None && t.answeredStep1 == s.answeredStep1
  {
    Step3AcceptedIff(c, s.crypto, c.edPublic(identity), f);
  }

  // ---- Runs ----

  datatype Event =
    | Begin(secret: bytes, dk: bytes)
    | Step1(canonical: bool, frame: Signed, secret: bytes, coins: bytes, ratchetKey: bytes)
    | Step2(frame: Signed, expected: bytes)
    | Step3(frame: Signed)
    | GiveUp
    | ConfirmSas
    | Open(plain: Option<bytes>)

  function After(c: Scheme, identity: bytes, s: Session, ev: Event): Session {
    match ev
    case Begin(secret, dk) => Start(c, s, identity, secret, dk).0
    case Step1(canonical, f, secret, coins, pk) => OnStep1(c, s, identity, canonical, f, secret, coins, pk).0
    case Step2(f, expected) => OnStep2(c, s, identity, f, expected).0
    case Step3(f) => OnFinish(c, s, identity, f).0
    case GiveUp => Abort(s)
    case ConfirmSas => s.(crypto := Confirm(s.crypto).0)
    case Open(plain) => s.(crypto := Decrypt(s.crypto, plain).0)
  }

  function AfterAll(c: Scheme, identity: bytes, s: Session, evs: seq<Event>): Session
    decreases evs
  {
    if evs == [] then s else AfterAll(c, identity, After(c, identity, s, evs[0]), evs[1..])
  }

  predicate Opened(c: Scheme, evs: seq<Event>, key: bytes) {
    exists i :: 0 <= i < |evs| && evs[i].Step1? && SignedBy(c, evs[i].frame, key, 1)
  }

  predicate Answered(c: Scheme, evs: seq<Event>, key: bytes) {
    exists i :: 0 <= i < |evs| && evs[i].Step2? && evs[i].expected == key && SignedBy(c, evs[i].frame, key, 2)
  }

  predicate Closed(c: Scheme, evs: seq<Event>, key: bytes) {
    exists i :: 0 <= i < |evs| && evs[i].Step3? && SignedBy(c, evs[i].frame, key, 3)
  }

  /** `key` has taken part in a whole handshake: answered us, or opened and closed one of its own. */
  predicate TookPart(c: Scheme, evs: seq<Event>, key: bytes) {
    Answered(c, evs, key) || (Opened(c, evs, key) && Closed(c, evs, key))
  }

  predicate Vouched(c: Scheme, s: Session, evs: seq<Event>) {
    && Sound(s.crypto)
    && (Verified(s.crypto) ==> TookPart(c, evs, s.crypto.remote))
    && (s.role == Some(Responder) ==> Opened(c, evs, s.crypto.remote))
  }

  lemma MoreEvents(c: Scheme, evs: seq<Event>, ev: Event, key: bytes)
    ensures Opened(c, evs, key) || (ev.Step1? && SignedBy(c, ev.frame, key, 1)) ==> Opened(c, evs + [ev], key)
    ensures Answered(c, evs, key) || (ev.Step2? && ev.expected == key && SignedBy(c, ev.frame, key, 2)) ==>
      Answered(c, evs + [ev], key)
    ensures Closed(c, evs, key) || (ev.Step3? && SignedBy(c, ev.frame, key, 3)) ==> Closed(c, evs + [ev], key)
  {
    var all := evs + [ev];
    assert all[|evs|] == ev;
    assert forall i :: 0 <= i < |evs| ==> all[i] == evs[i];
  }

  lemma Step1Vouched(c: Scheme, identity: bytes, s: Session, evs: seq<Event>, ev: Event)
    requires Vouched(c, s, evs) && ev.Step1?
    ensures Vouched(c, After(c, identity, s, ev), evs + [ev])
  {
    var (t, d) := OnStep1(c, s, identity, ev.canonical, ev.frame, ev.secret, ev.coins, ev.ratchetKey);
    MoreEvents(c, evs, ev, s.crypto.remote);
    MoreEvents(c, evs, ev, t.crypto.remote);
    if t != s {
      Step1KeepsSound(c, NewConnected, identity, ev.frame, ev.secret, ev.coins, ev.ratchetKey);
      Step1AcceptedIff(c, NewConnected, identity, ev.frame, ev.secret, ev.coins, ev.ratchetKey);
      AnsweredUnverified(c, s, identity, ev.frame, ev.secret, ev.coins, ev.ratchetKey);
    }
  }

  /** Taking up a step 1, with success or not, ends trust and any attempt of our own. */
  lemma AnsweredUnverified(c: Scheme, s: Session, identity: bytes, f: Signed, secret: bytes, coins: bytes, pk: bytes)
    ensures var (t, d) := Answer(c, s, identity, f, secret, coins, pk);
      && Sound(t.crypto) && !Verified(t.crypto)
      && (t.role == Some(Responder) ==> SignedBy(c, f, t.crypto.remote, 1))
      && (d.Fail? ==> t.role == None && t.step1 == None && t.pendingKex == None && t.answeredStep1 == s.answeredStep1)
  {
    Step1KeepsSound(c, NewConnected, identity, f, secret, coins, pk);
    Step1AcceptedIff(c, NewConnected, identity, f, secret, coins, pk);
  }

  lemma Step2Vouched(c: Scheme, identity: bytes, s: Session, evs: seq<Event>, ev: Event)
    requires Vouched(c, s, evs) && ev.Step2?
    ensures Vouched(c, After(c, identity, s, ev), evs + [ev])
  {
    MoreEvents(c, evs, ev, s.crypto.remote);
    MoreEvents(c, evs, ev, ev.expected);
    if s.role == Some(Initiator) {
      FinishedIff(c, s, identity, ev.frame, ev.expected);
      if s.pendingKex.Some? {
        Step2KeepsSound(c, s.crypto, s.pendingKex.value, ev.frame, ev.expected);
      }
    }
  }

  lemma Step3Vouched(c: Scheme, identity: bytes, s: Session, evs: seq<Event>, ev: Event)
    requires Vouched(c, s, evs) && ev.Step3?
    ensures Vouched(c, After(c, identity, s, ev), evs + [ev])
  {
    MoreEvents(c, evs, ev, s.crypto.remote);
    if s.role == Some(Responder) {
      ConcludedIff(c, s, identity, ev.frame);
      ApplyKeepsSound(c, s.crypto, TrustFacts.Step3(c.edPublic(identity), ev.frame));
    }
  }

  lemma EventVouched(c: Scheme, identity: bytes, s: Session, evs: seq<Event>, ev: Event)
    requires Vouched(c, s, evs)
    ensures Vouched(c, After(c, identity, s, ev), evs + [ev])
  {
    match ev
    case Step1(_, _, _, _, _) => Step1Vouched(c, identity, s, evs, ev);
    case Step2(_, _) => Step2Vouched(c, identity, s, evs, ev);
    case Step3(_) => Step3Vouched(c, identity, s, evs, ev);
    case _ => MoreEvents(c, evs, ev, s.crypto.remote);
  }

  lemma {:induction false} AfterAllSnoc(c: Scheme, identity: bytes, s: Session, evs: seq<Event>, ev: Event)
    ensures AfterAll(c, identity, s, evs + [ev]) == After(c, identity, AfterAll(c, identity, s, evs), ev)
    decreases evs
  {
    if evs == [] {
      assert [ev][1..] == [];
    } else {
      assert (evs + [ev])[1..] == evs[1..] + [ev];
      AfterAllSnoc(c, identity, After(c, identity, s, evs[0]), evs[1..], ev);
    }
  }

  lemma {:induction false} RunVouched(c: Scheme, identity: bytes, evs: seq<Event>)
    ensures Vouched(c, AfterAll(c, identity, NewSession, evs), evs)
    decreases |evs|
  {
    if evs != [] {
      var n := |evs| - 1;
      var front, last := evs[..n], evs[n];
      assert evs == front + [last];
      RunVouched(c, identity, front);
      AfterAllSnoc(c, identity, NewSession, front, last);
      EventVouched(c, identity, AfterAll(c, identity, NewSession, front), front, last);
    }
  }

  /** Whatever frames anyone sends, in whatever order, however often handshakes start and are given up:
      a session shows a string, or is trusted, only with an identity that has signed a step 2 while it
      was expected, or both a step 1 and a step 3. */
  lemma ShownPeerTookPart(c: Scheme, identity: bytes, evs: seq<Event>)
    ensures var end := AfterAll(c, identity, NewSession, evs).crypto;
      end.trust.SasPending? || end.trust.Trusted? ==> TookPart(c, evs, end.remote)
  {
    RunVouched(c, identity, evs);
  }
}
