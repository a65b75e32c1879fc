/** Whose word a peer's cryptographic state rests on, for frames from anyone. */
module Authentication {
  import opened Bytes
  import opened Primitives
  import opened KeyExchange
  import opened Transcripts
  import opened SignedSteps
  import opened PeerCryptos
  import opened TrustFacts

  /** The frame is a step signed under `key`: the signature covers the step, the key and the body. */
  predicate SignedBy(c: Scheme, f: Signed, key: bytes, step: byte) {
    f.identity == key && f.step == step && |f.signature| == 64 && c.verify(key, [step] + key + f.body, f.signature)
  }

  // ---- One step ----

  /** What a state becomes by an accepted step 2. */
  predicate FinishedExchange(c: Scheme, s: State, k: Kex, f: Signed, t: State)
    requires k.x25519Secret.Some? && k.mlkemDk.Some? && |f.body| >= 1152
  {
    && t.remote == f.identity && t.trust == s.trust
    && t.transcript.data == s.transcript.data + LengthPrefixed(f.body)
    && t.ratchet == Some(Ratchet(true, true))
    && t.secret == Some(c.hkdf(c.diffieHellman(k.x25519Secret.value, f.body[..32])
                               + c.decapsulate(k.mlkemDk.value, f.body[32..1120])))
  }

  /** The initiator accepts exactly a step 2 that the expected identity has signed, with the key exchange
      and a ratchet key in it, once, after its own step 1. Anything else signed or said by anyone else
      changes nothing. */
  lemma Step2AcceptedIff(c: Scheme, s: State, k: Kex, f: Signed, expected: bytes)
    ensures var (t, k', r) := ProcessStep2(c, s, k, f, expected);
      && (r.Ok? <==> SignedBy(c, f, expected, 2) && s.transcript.nextStep == 2 && |f.body| >= 1152
                     && k.x25519Secret.Some? && k.mlkemDk.Some?)
      && (r.Ok? ==> r.value == [1] && FinishedExchange(c, s, k, f, t)
                    && k'.x25519Secret.None? && k'.mlkemDk.None? && k'.shared.None?)
      && (!SignedBy(c, f, expected, 2) ==> r.Err? && t == s && k' == k)
  {
    if |f.body| >= KEX_LEN + RATCHET_PK_LEN {
      BodyParts(f.body);
    }
  }

  lemma BodyParts(body: bytes)
    requires |body| >= KEX_LEN
    ensures body[..KEX_LEN][..X25519_LEN] == body[..32]
    ensures body[..KEX_LEN][X25519_LEN..X25519_LEN + CT_LEN] == body[32..1120]
  {
  }

  /** The responder accepts exactly a signed step 1 with a good KEM key, in a fresh state, and binds the
      state to its signer. */
  lemma Step1AcceptedIff(c: Scheme, s: State, identity: bytes, f: Signed, secret: bytes, coins: bytes, pk: bytes)
    ensures var (t, r) := ProcessStep1(c, s, identity, f, secret, coins, pk);
      && (r.Ok? <==> SignedBy(c, f, f.identity, 1) && s.transcript.nextStep == 1
                     && |f.body| >= 1216 && c.kemKeyOk(f.body[32..1216]))
      && (r.Ok? ==>
            var (ct, kem) := c.encapsulate(f.body[32..1216], coins);
            && t.remote == f.identity && t.trust == Handshaking && t.ratchet == Some(Ratchet(false, false))
            && t.secret == Some(c.hkdf(c.diffieHellman(secret, f.body[..32]) + kem))
            && r.value == SignStep(c, identity, 2, c.x25519Public(secret) + ct + pk)
            && t.transcript.data == s.transcript.data + LengthPrefixed(f.body) + LengthPrefixed(r.value.body))
      && (!SignedBy(c, f, f.identity, 1) ==> r.Err? && t == s)
  {
  }

  /** The responder finishes exactly on a step 3 signed by the signer of its step 1. */
  lemma Step3AcceptedIff(c: Scheme, s: State, key: bytes, f: Signed)
    requires Sound(s)
    ensures var (t, r) := ProcessStep3(c, s, key, f);
      && (r.Ok? <==> SignedBy(c, f, s.remote, 3) && s.transcript.nextStep == 3 && s.secret.Some?)
      && (r.Ok? ==> t.trust == SasPending(r.value) && t.remote == s.remote && t.secret == s.secret
                    && t.transcript.data == s.transcript.data + LengthPrefixed(f.body))
      && (!SignedBy(c, f, s.remote, 3) ==> r.Err? && t == s)
  {
  }

  // ---- Runs ----

  predicate Step1By(c: Scheme, calls: seq<Call>, key: bytes) {
    exists i :: 0 <= i < |calls| && calls[i].Step1? && SignedBy(c, calls[i].frame, key, 1)
  }

  predicate Step2By(c: Scheme, calls: seq<Call>, key: bytes) {
    exists i :: 0 <= i < |calls| && calls[i].Step2? && SignedBy(c, calls[i].frame, key, 2)
  }

  predicate Step3By(c: Scheme, calls: seq<Call>, key: bytes) {
    exists i :: 0 <= i < |calls| && calls[i].Step3? && SignedBy(c, calls[i].frame, key, 3)
  }

  /** Once said, it stays said. */
  lemma MoreCalls(c: Scheme, calls: seq<Call>, last: Call, key: bytes)
    ensures Step1By(c, calls, key) || (last.Step1? && SignedBy(c, last.frame, key, 1)) <==> Step1By(c, calls + [last], key)
    ensures Step2By(c, calls, key) || (last.Step2? && SignedBy(c, last.frame, key, 2)) <==> Step2By(c, calls + [last], key)
    ensures Step3By(c, calls, key) || (last.Step3? && SignedBy(c, last.frame, key, 3)) <==> Step3By(c, calls + [last], key)
  {
    var all := calls + [last];
    assert all[|calls|] == last;
    assert forall i :: 0 <= i < |calls| ==> all[i] == calls[i];
  }

  /** The calls of an initiator that expects `key`. */
  predicate Initiates(call: Call, key: bytes) {
    !call.Step1? && !call.Step3? && (call.Step2? ==> call.expected == key)
  }

  /** What an initiator holds once it has a secret. */
  predicate Expected(c: Scheme, s: State, calls: seq<Call>, key: bytes) {
    s.secret.Some? ==> s.remote == key && Step2By(c, calls, key)
  }

  lemma InitiatorStep(c: Scheme, s: State, calls: seq<Call>, call: Call, key: bytes)
    requires Sound(s) && Expected(c, s, calls, key) && Initiates(call, key)
    ensures Sound(Apply(c, s, call)) && Expected(c, Apply(c, s, call), calls + [call], key)
  {
    ApplyKeepsSound(c, s, call);
    MoreCalls(c, calls, call, key);
    if call.Step2? { Step2AcceptedIff(c, s, call.kex, call.frame, call.expected); }
  }

  lemma {:induction false} InitiatorRun(c: Scheme, calls: seq<Call>, key: bytes)
    requires forall i :: 0 <= i < |calls| ==> Initiates(calls[i], key)
    ensures Sound(ApplyAll(c, NewConnected, calls)) && Expected(c, ApplyAll(c, NewConnected, calls), calls, key)
    decreases |calls|
  {
    if calls != [] {
      var n := |calls| - 1;
      var front, last := calls[..n], calls[n];
      assert calls == front + [last];
      InitiatorRun(c, front, key);
      ApplyAllSnoc(c, NewConnected, front, last);
      InitiatorStep(c, ApplyAll(c, NewConnected, front), front, last, key);
    }
  }

  /** Whatever frames an initiator is handed, in whatever order: it shows a string, and is ever trusted,
      only with the expected identity, which has signed a step 2. */
  lemma InitiatorShowsExpected(c: Scheme, calls: seq<Call>, key: bytes)
    requires forall i :: 0 <= i < |calls| ==> Initiates(calls[i], key)
    ensures var end := ApplyAll(c, NewConnected, calls);
      end.trust.SasPending? || end.trust.Trusted? ==> end.remote == key && Step2By(c, calls, key)
  {
    InitiatorRun(c, calls, key);
  }

  predicate Responds(call: Call) {
    call.Step1? || call.Step3? || call.ConfirmSas? || call.Open? || call.Renew?
  }

  predicate Answering(c: Scheme, s: State, calls: seq<Call>) {
    && (s.secret.Some? ==> Step1By(c, calls, s.remote))
    && (Verified(s) ==> Step3By(c, calls, s.remote))
  }

  lemma ResponderStep(c: Scheme, s: State, calls: seq<Call>, call: Call)
    requires Sound(s) && Answering(c, s, calls) && Responds(call)
    ensures Sound(Apply(c, s, call)) && Answering(c, Apply(c, s, call), calls + [call])
  {
    ApplyKeepsSound(c, s, call);
    MoreCalls(c, calls, call, s.remote);
    MoreCalls(c, calls, call, Apply(c, s, call).remote);
    match call
    case Step1(identity, f, secret, coins, pk) => Step1AcceptedIff(c, s, identity, f, secret, coins, pk);
    case Step3(key, f) => Step3AcceptedIff(c, s, key, f);
    case _ =>
  }

  lemma {:induction false} ResponderRun(c: Scheme, calls: seq<Call>)
    requires forall i :: 0 <= i < |calls| ==> Responds(calls[i])
    ensures Sound(ApplyAll(c, NewConnected, calls)) && Answering(c, ApplyAll(c, NewConnected, calls), calls)
    decreases |calls|
  {
    if calls != [] {
      var n := |calls| - 1;
      var front, last := calls[..n], calls[n];
      assert calls == front + [last];
      ResponderRun(c, front);
      ApplyAllSnoc(c, NewConnected, front, last);
      ResponderStep(c, ApplyAll(c, NewConnected, front), front, last);
    }
  }

  /** Whatever frames a responder is handed: it shows a string, and is ever trusted, only with an identity
      that has signed both a step 1 and a step 3. */
  lemma ResponderShowsSigner(c: Scheme, calls: seq<Call>)
    requires forall i :: 0 <= i < |calls| ==> Responds(calls[i])
    ensures var end := ApplyAll(c, NewConnected, calls);
      end.trust.SasPending? || end.trust.Trusted? ==> Step1By(c, calls, end.remote) && Step3By(c, calls, end.remote)
  {
    ResponderRun(c, calls);
  }
}
