/** Cutting messages into link fragments and joining them again. */
module Messages {
  import opened Bytes
  import opened LinkFrames

  const MAX_MESSAGE_BYTES := 32 * 1024 * 1024
  const FRAG_MORE: byte := 0x01
  const FRAG_LAST: byte := 0x00
  const FRAGMENT_DATA := MAX_PAYLOAD_SIZE - 1

  function Fragments(msg: bytes): (f: seq<bytes>)
    ensures forall i :: 0 <= i < |f| ==> 0 < |f[i]| <= MAX_PAYLOAD_SIZE
    decreases |msg|
  {
    if |msg| <= FRAGMENT_DATA then [[FRAG_LAST] + msg]
    else [[FRAG_MORE] + msg[..FRAGMENT_DATA]] + Fragments(msg[FRAGMENT_DATA..])
  }

  function AllFragments(msgs: seq<bytes>): seq<bytes> {
    if msgs == [] then [] else Fragments(msgs[0]) + AllFragments(msgs[1..])
  }

  /** The bytes joined so far and the messages completed. */
  datatype Joined = Joined(partial: bytes, messages: seq<bytes>)

  /** One delivered payload: an empty one is skipped, and a message over the limit is dropped. */
  function Join1(partial: bytes, payload: bytes): Joined {
    if payload == [] then Joined(partial, [])
    else if |partial| + |payload| - 1 > MAX_MESSAGE_BYTES then Joined([], [])
    else if payload[0] == FRAG_LAST then Joined([], [partial + payload[1..]])
    else Joined(partial + payload[1..], [])
  }

  function Join(partial: bytes, payloads: seq<bytes>): Joined
    decreases payloads
  {
    if payloads == [] then Joined(partial, [])
    else
      var first := Join1(partial, payloads[0]);
      var rest := Join(first.partial, payloads[1..]);
      Joined(rest.partial, first.messages + rest.messages)
  }

  lemma {:induction false} JoinConcat(partial: bytes, p: seq<bytes>, q: seq<bytes>)
    ensures var first := Join(partial, p);
      var second := Join(first.partial, q);
      Join(partial, p + q) == Joined(second.partial, first.messages + second.messages)
    decreases p
  {
    if p == [] {
      assert p + q == q;
      assert [] + Join(partial, q).messages == Join(partial, q).messages;
    } else {
      var first := Join1(partial, p[0]);
      assert (p + q)[0] == p[0] && (p + q)[1..] == p[1..] + q;
      JoinConcat(first.partial, p[1..], q);
      var middle := Join(first.partial, p[1..]);
      Reassociate(first.messages, middle.messages, Join(middle.partial, q).messages);
    }
  }

  lemma JoinOne(partial: bytes, payload: bytes)
    ensures Join(partial, [payload]) == Join1(partial, payload)
  {
    var first := Join1(partial, payload);
    assert Join(first.partial, []) == Joined(first.partial, []);
    assert first.messages + [] == first.messages;
  }

  /** The fragments of a message join to the message, appended to whatever came before. */
  lemma {:induction false} FragmentsJoin(partial: bytes, msg: bytes)
    requires |partial| + |msg| <= MAX_MESSAGE_BYTES
    ensures Join(partial, Fragments(msg)) == Joined([], [partial + msg])
    decreases |msg|
  {
    if |msg| <= FRAGMENT_DATA {
      var f := [FRAG_LAST] + msg;
      assert f[1..] == msg;
      JoinOne(partial, f);
    } else {
      var head, tail := msg[..FRAGMENT_DATA], msg[FRAGMENT_DATA..];
      var f := [FRAG_MORE] + head;
      assert f[1..] == head;
      FragmentsJoin(partial + head, tail);
      JoinOne(partial, f);
      JoinConcat(partial, [f], Fragments(tail));
      Reassociate(partial, head, tail);
      assert head + tail == msg;
      assert [] + [partial + msg] == [partial + msg];
    }
  }

  /** Fewer than all fragments of a message complete nothing. */
  lemma {:induction false} PartOfMessage(partial: bytes, msg: bytes, n: nat)
    requires |partial| + |msg| <= MAX_MESSAGE_BYTES && n < |Fragments(msg)|
    ensures Join(partial, Fragments(msg)[..n]).messages == []
    decreases |msg|
  {
    if n > 0 {
      var head, tail := msg[..FRAGMENT_DATA], msg[FRAGMENT_DATA..];
      var f := [FRAG_MORE] + head;
      assert f[1..] == head;
      PartOfMessage(partial + head, tail, n - 1);
      JoinOne(partial, f);
      JoinConcat(partial, [f], Fragments(tail)[..n - 1]);
      assert Fragments(msg)[..n] == [f] + Fragments(tail)[..n - 1];
    }
  }

  predicate Sendable(msgs: seq<bytes>) {
    forall i :: 0 <= i < |msgs| ==> |msgs[i]| <= MAX_MESSAGE_BYTES
  }

  /** All the fragments join to exactly the messages. */
  lemma {:induction false} AllFragmentsJoin(msgs: seq<bytes>)
    requires Sendable(msgs)
    ensures Join([], AllFragments(msgs)) == Joined([], msgs)
  {
    if msgs != [] {
      FragmentsJoin([], msgs[0]);
      AllFragmentsJoin(msgs[1..]);
      JoinConcat([], Fragments(msgs[0]), AllFragments(msgs[1..]));
      assert [] + msgs[0] == msgs[0];
      assert [msgs[0]] + msgs[1..] == msgs;
    }
  }

  /** Any prefix of the fragments joins to a prefix of the messages. */
  lemma {:induction false} PrefixJoins(msgs: seq<bytes>, payloads: seq<bytes>)
    requires Sendable(msgs) && payloads <= AllFragments(msgs)
    ensures Join([], payloads).messages <= msgs
  {
    if msgs == [] {
      assert payloads == [];
    } else {
      var f, more := Fragments(msgs[0]), AllFragments(msgs[1..]);
      if |payloads| < |f| {
        assert payloads == f[..|payloads|];
        PartOfMessage([], msgs[0], |payloads|);
      } else {
        var rest := payloads[|f|..];
        assert payloads == f + rest;
        assert rest <= more by { assert more == (f + more)[|f|..]; }
        PrefixJoins(msgs[1..], rest);
        FragmentsJoin([], msgs[0]);
        JoinConcat([], f, rest);
        assert [] + msgs[0] == msgs[0];
        assert [msgs[0]] + msgs[1..] == msgs;
      }
    }
  }

  lemma {:induction false} AllFragmentsAppend(msgs: seq<bytes>, msg: bytes)
    ensures AllFragments(msgs + [msg]) == AllFragments(msgs) + Fragments(msg)
  {
    if msgs == [] {
      assert [msg][1..] == [];
      assert Fragments(msg) + [] == Fragments(msg);
      assert [] + [msg] == [msg];
    } else {
      assert (msgs + [msg])[1..] == msgs[1..] + [msg];
      AllFragmentsAppend(msgs[1..], msg);
      Reassociate(Fragments(msgs[0]), AllFragments(msgs[1..]), Fragments(msg));
    }
  }

  /** Whatever payloads arrive, no message emitted and no partial one is over 32 MiB. */
  lemma {:induction false} NothingOverLimit(partial: bytes, payloads: seq<bytes>)
    requires |partial| <= 33_554_432
    ensures var r := Join(partial, payloads);
      |r.partial| <= 33_554_432 && forall i :: 0 <= i < |r.messages| ==> |r.messages[i]| <= 33_554_432
    decreases payloads
  {
    if payloads != [] {
      NothingOverLimit(Join1(partial, payloads[0]).partial, payloads[1..]);
    }
  }

  /** A payload that would take a message past the limit drops the message up to there; what follows is
      taken for a new message. */
  lemma OverlongForgotten(partial: bytes, payload: bytes, more: seq<bytes>)
    requires |partial| <= 33_554_432 && payload != [] && |partial| + |payload| - 1 > 33_554_432
    ensures Join(partial, [payload] + more) == Join([], more)
  {
    assert ([payload] + more)[1..] == more;
    assert [] + Join([], more).messages == Join([], more).messages;
  }

  /** The fragments of a message: as many as there are stretches of 4095 bytes, at least one, each led by a
      one, and the last by a zero. */
  lemma {:induction false} FragmentsAre(msg: bytes)
    ensures var f, n := Fragments(msg), if msg == [] then 1 else (|msg| + 4094) / 4095;
      && |f| == n
      && forall i :: 0 <= i < n ==>
           i * 4095 <= |msg| && f[i] == [if i == n - 1 then 0 else 1] + msg[i * 4095..if i == n - 1 then |msg| else (i + 1) * 4095]
    decreases |msg|
  {
    if |msg| > FRAGMENT_DATA {
      var tail := msg[4095..];
      FragmentsAre(tail);
      var f, n := Fragments(msg), (|msg| + 4094) / 4095;
      forall i | 0 < i < n
        ensures f[i] == [if i == n - 1 then 0 else 1] + msg[i * 4095..if i == n - 1 then |msg| else (i + 1) * 4095] {
        assert f[i] == Fragments(tail)[i - 1];
        assert tail[(i - 1) * 4095..if i == n - 1 then |tail| else i * 4095]
            == msg[i * 4095..if i == n - 1 then |msg| else (i + 1) * 4095];
      }
    } else {
      assert msg[0..|msg|] == msg;
    }
  }
}
