/** The QR payloads: a public key, alone or with an endpoint or a connection ticket. */
module QrPayload {
  import opened Bytes
  import Base64
  import Utf8

  const KEY_LEN := 32
  const MAX_TICKET := 4096
  const MAX_HOST := 253

  datatype ParsedQr = ParsedQr(publicKey: bytes, endpoint: Option<string>, ticket: Option<string>)

  // ---- Building ----

  function Cut(b: bytes, n: nat): bytes {
    if |b| > n then b[..n] else b
  }

  function IdentityBytes(key: bytes): bytes {
    [0x02] + key
  }

  function EndpointBytes(key: bytes, host: string, port: u16): bytes {
    var h := Cut(Utf8.Encode(host), MAX_HOST);
    [0x03] + key + [|h|] + h + U16ToBe(port)
  }

  function TicketBytes(key: bytes, ticket: string): bytes {
    var t := Cut(Utf8.Encode(ticket), MAX_TICKET);
    [0x04] + key + U16ToBe(|t|) + t
  }

  method PayloadWithTicket(key: bytes, ticket: string) returns (text: string)
    ensures text == Base64.Encode(TicketBytes(key, ticket))
  {
    var ticketBytes := Utf8.Encode(ticket);
    var ticketLen := if |ticketBytes| > MAX_TICKET then MAX_TICKET else |ticketBytes|;
    assert ticketBytes[..|ticketBytes|] == ticketBytes;
    var payload := [0x04];
    payload := payload + key;
    payload := payload + U16ToBe(ticketLen);
    payload := payload + ticketBytes[..ticketLen];
    text := Base64.Encode(payload);
  }

  /** Without a host, or with an empty one, the payload holds the key alone. */
  method PayloadWithEndpoint(key: bytes, host: Option<string>, port: u16) returns (text: string)
    ensures text == Base64.Encode(
      if host.Some? && host.value != "" then EndpointBytes(key, host.value, port) else IdentityBytes(key))
  {
    if host.Some? && host.value != "" {
      var hostBytes := Utf8.Encode(host.value);
      var hostLen := if |hostBytes| > MAX_HOST then MAX_HOST else |hostBytes|;
      assert hostBytes[..|hostBytes|] == hostBytes;
      var payload := [0x03];
      payload := payload + key;
      payload := payload + [hostLen];
      payload := payload + hostBytes[..hostLen];
      payload := payload + U16ToBe(port);
      return Base64.Encode(payload);
    }
    var payload := [0x02];
    payload := payload + key;
    text := Base64.Encode(payload);
  }

  // ---- Parsing ----

  /** The characters with the Unicode property White_Space. */
  predicate IsSpace(c: char) {
    var x := c as int;
    || 0x09 <= x <= 0x0D || x == 0x20 || x == 0x85 || x == 0xA0 || x == 0x1680
    || 0x2000 <= x <= 0x200A || x == 0x2028 || x == 0x2029 || x == 0x202F || x == 0x205F || x == 0x3000
  }

  function Normalize(text: string): string {
    if text == "" then ""
    else (if IsSpace(text[0]) then "" else [text[0]]) + Normalize(text[1..])
  }

  function SplitAt(s: string, c: char): seq<string>
    ensures |SplitAt(s, c)| > 0
  {
    if s == "" then [""]
    else
      var rest := SplitAt(s[1..], c);
      if s[0] == c then [""] + rest else [[s[0]] + rest[0]] + rest[1..]
  }

  function JoinWith(parts: seq<string>, c: char): string {
    if parts == [] then ""
    else if |parts| == 1 then parts[0]
    else parts[0] + [c] + JoinWith(parts[1..], c)
  }

  predicate IsDigits(s: string) {
    s != "" && forall i :: 0 <= i < |s| ==> '0' <= s[i] <= '9'
  }

  function Number(s: string): nat
    requires forall i :: 0 <= i < |s| ==> '0' <= s[i] <= '9'
  {
    if s == "" then 0 else Number(s[..|s| - 1]) * 10 + (s[|s| - 1] as int - '0' as int)
  }

  /** What reads as a 16-bit number: digits, after at most one plus sign. */
  predicate ReadsAsU16(s: string) {
    var digits := if s != "" && s[0] == '+' then s[1..] else s;
    IsDigits(digits) && Number(digits) < 0x1_0000
  }

  function Decimal(n: nat): string {
    if n < 10 then ["0123456789"[n]] else Decimal(n / 10) + ["0123456789"[n % 10]]
  }

  function FormatEndpoint(host: string, port: u16): string {
    if ':' !in host then host + ":" + Decimal(port)
    else
      var parts := SplitAt(host, ':');
      var n := |parts|;
      if n >= 3 && parts[n - 1] == parts[n - 2] && ReadsAsU16(parts[n - 1])
      then JoinWith(parts[..n - 1], ':')
      else host
  }

  function ParseIdentity(d: bytes): Result<ParsedQr> {
    if |d| != 1 + KEY_LEN then Err("invalid v2 QR length") else Ok(ParsedQr(d[1..], None, None))
  }

  function ParseEndpoint(d: bytes): Result<ParsedQr> {
    if |d| < 36 then Err("invalid v3 QR length")
    else
      var n: nat := d[33];
      if |d| < 34 + n + 2 then Err("invalid v3 host field")
      else
        var host := Utf8.Decode(d[34..34 + n]);
        if host.None? then Err("invalid utf-8")
        else Ok(ParsedQr(d[1..33], Some(FormatEndpoint(host.value, U16FromBe(d[34 + n], d[35 + n]))), None))
  }

  function ParseTicket(d: bytes): Result<ParsedQr> {
    if |d| < 35 then Err("invalid v4 QR length")
    else
      var n: nat := U16FromBe(d[33], d[34]);
      if |d| < 35 + n then Err("invalid v4 ticket field")
      else
        var ticket := Utf8.Decode(d[35..35 + n]);
        if ticket.None? then Err("invalid utf-8") else Ok(ParsedQr(d[1..33], None, Some(ticket.value)))
  }

  function Parse(text: string): Result<ParsedQr> {
    var clean := Normalize(text);
    if clean == "" then Err("empty QR payload")
    else
      var d := Base64.DecodeAny(clean);
      if d.None? then Err("invalid base64")
      else if d.value == [] then Err("empty QR payload")
      else if d.value[0] == 0x02 then ParseIdentity(d.value)
      else if d.value[0] == 0x03 then ParseEndpoint(d.value)
      else if d.value[0] == 0x04 then ParseTicket(d.value)
      else Err("unsupported QR version")
  }

  // ---- White space does not matter ----

  /** `text` is `payload` with white space inserted anywhere. */
  predicate Spaced(text: string, payload: string) {
    if text == "" then payload == ""
    else
      || (IsSpace(text[0]) && Spaced(text[1..], payload))
      || (payload != "" && text[0] == payload[0] && Spaced(text[1..], payload[1..]))
  }

  predicate Spaceless(s: string) {
    forall i :: 0 <= i < |s| ==> !IsSpace(s[i])
  }

  lemma {:induction false} SpacedNormalizes(text: string, payload: string)
    requires Spaced(text, payload) && Spaceless(payload)
    ensures Normalize(text) == payload
  {
    if text != "" {
      var rest := text[1..];
      if IsSpace(text[0]) {
        SpacedNormalizes(rest, payload);
        assert "" + Normalize(rest) == Normalize(rest);
      } else {
        SpacelessTail(payload);
        SpacedNormalizes(rest, payload[1..]);
        assert payload == [payload[0]] + payload[1..];
      }
    }
  }

  lemma SpacelessTail(s: string)
    requires s != "" && Spaceless(s)
    ensures !IsSpace(s[0]) && Spaceless(s[1..])
  {
  }

  lemma EncodedSpaceless(d: bytes)
    ensures Spaceless(Base64.Encode(d))
    ensures d != [] ==> Base64.Encode(d) != ""
  {
    Base64.SymbolsAreText(Base64.Split(d));
    Base64.SplitSize(d);
  }

  /** What a payload, however spaced out, is decoded to. */
  lemma SpacedDecodes(text: string, d: bytes)
    requires Spaced(text, Base64.Encode(d)) && d != []
    ensures Normalize(text) != "" && Base64.DecodeAny(Normalize(text)) == Some(d)
  {
    EncodedSpaceless(d);
    SpacedNormalizes(text, Base64.Encode(d));
    Base64.EncodedDecodes(d);
  }

  // ---- Round trips ----

  /** Whatever white space is inserted: an identity payload parses to its key. */
  lemma IdentityRoundTrip(key: bytes, text: string)
    requires |key| == KEY_LEN && Spaced(text, Base64.Encode(IdentityBytes(key)))
    ensures Parse(text) == Ok(ParsedQr(key, None, None))
  {
    SpacedDecodes(text, IdentityBytes(key));
    assert IdentityBytes(key)[1..] == key;
  }

  /** A tag, a key and a two-byte length before the rest. */
  lemma TicketLayout(d: bytes, key: bytes, n: bytes, t: bytes)
    requires |key| == KEY_LEN && |n| == 2 && d == [0x04] + key + n + t
    ensures |d| == 35 + |t| && d[0] == 0x04 && d[1..33] == key
    ensures d[33] == n[0] && d[34] == n[1] && d[35..35 + |t|] == t
  {
  }

  lemma TicketParses(key: bytes, t: bytes)
    requires |key| == KEY_LEN && |t| <= MAX_TICKET
    ensures var d := [0x04] + key + U16ToBe(|t|) + t;
      ParseTicket(d) == if Utf8.Decode(t).Some? then Ok(ParsedQr(key, None, Utf8.Decode(t))) else Err("invalid utf-8")
  {
    TicketLayout([0x04] + key + U16ToBe(|t|) + t, key, U16ToBe(|t|), t);
  }

  /** Whatever white space is inserted: a ticket payload parses to its key and its ticket exactly when
      the ticket has at most 4096 bytes; a longer one is cut. */
  lemma TicketRoundTripIff(key: bytes, ticket: string, text: string)
    requires |key| == KEY_LEN && Spaced(text, Base64.Encode(TicketBytes(key, ticket)))
    ensures Parse(text) == Ok(ParsedQr(key, None, Some(ticket))) <==> |Utf8.Encode(ticket)| <= 4096
  {
    var t := Cut(Utf8.Encode(ticket), MAX_TICKET);
    SpacedDecodes(text, TicketBytes(key, ticket));
    TicketLayout([0x04] + key + U16ToBe(|t|) + t, key, U16ToBe(|t|), t);
    TicketParses(key, t);
    Utf8.RoundTrip(ticket);
    if Utf8.Decode(t) == Some(ticket) {
      Utf8.OnlyEncodingDecodes(t);
    }
  }

  /** A tag, a key, a one-byte length and a host before the two bytes of a port. */
  lemma EndpointLayout(d: bytes, key: bytes, h: bytes, port: bytes)
    requires |key| == KEY_LEN && |h| < 256 && |port| == 2 && d == [0x03] + key + [|h|] + h + port
    ensures |d| == 36 + |h| && d[0] == 0x03 && d[1..33] == key && d[33] == |h|
    ensures d[34..34 + |h|] == h && d[34 + |h|] == port[0] && d[35 + |h|] == port[1]
  {
  }

  /** What is parsed from bytes laid out as `EndpointLayout` says. */
  lemma EndpointReads(d: bytes, key: bytes, h: bytes, p: bytes, port: u16)
    requires |d| == 36 + |h| && 0 < |h| && d[1..33] == key && d[33] == |h| && |p| == 2 && U16FromBe(p[0], p[1]) == port
    requires d[34..34 + |h|] == h && d[34 + |h|] == p[0] && d[35 + |h|] == p[1]
    ensures ParseEndpoint(d) ==
            if Utf8.Decode(h).Some? then Ok(ParsedQr(key, Some(FormatEndpoint(Utf8.Decode(h).value, port)), None))
            else Err("invalid utf-8")
  {
  }

  lemma EndpointParses(d: bytes, key: bytes, h: bytes, port: u16)
    requires |key| == KEY_LEN && 0 < |h| <= MAX_HOST && d == [0x03] + key + [|h|] + h + U16ToBe(port)
    ensures |d| > 33 && d[0] == 0x03
    ensures ParseEndpoint(d) ==
            if Utf8.Decode(h).Some? then Ok(ParsedQr(key, Some(FormatEndpoint(Utf8.Decode(h).value, port)), None))
            else Err("invalid utf-8")
  {
    var p := U16ToBe(port);
    EndpointLayout(d, key, h, p);
    EndpointReads(d, key, h, p, port);
  }

  /** Whatever white space is inserted: an endpoint payload with a host of at most 253 bytes parses to
      its key and the formatted endpoint; without a colon in the host that is host and port. */
  lemma EndpointRoundTrip(key: bytes, host: string, port: u16, text: string)
    requires |key| == KEY_LEN && host != "" && |Utf8.Encode(host)| <= 253
    requires Spaced(text, Base64.Encode(EndpointBytes(key, host, port)))
    ensures Parse(text) == Ok(ParsedQr(key, Some(FormatEndpoint(host, port)), None))
    ensures ':' !in host ==> FormatEndpoint(host, port) == host + ":" + Decimal(port)
  {
    SpacedDecodes(text, EndpointBytes(key, host, port));
    Utf8.RoundTrip(host);
    assert Utf8.EncodeChar(host[0]) != [];
    EndpointParses(EndpointBytes(key, host, port), key, Utf8.Encode(host), port);
  }

  /** Of a longer host the first 253 bytes go into the payload. */
  lemma LongHostCut(key: bytes, host: string, port: u16)
    requires |key| == KEY_LEN
    ensures var d, h := EndpointBytes(key, host, port), Utf8.Encode(host);
      var n := if |h| > 253 then 253 else |h|;
      && |d| == 36 + n && d[1..33] == key && d[33] == n && d[34..34 + n] == h[..n]
      && U16FromBe(d[34 + n], d[35 + n]) == port
  {
    var h := Cut(Utf8.Encode(host), MAX_HOST);
    assert Utf8.Encode(host)[..|Utf8.Encode(host)|] == Utf8.Encode(host);
    EndpointLayout(EndpointBytes(key, host, port), key, h, U16ToBe(port));
  }

  lemma {:induction false} SplitSnoc(s: string, c: char, last: string)
    requires c !in last
    ensures SplitAt(s + [c] + last, c) == SplitAt(s, c) + [last]
  {
    if s == "" {
      assert "" + [c] + last == [c] + last;
      assert ([c] + last)[1..] == last;
      NoSplit(last, c);
      assert [""] + [last] == SplitAt("", c) + [last];
    } else {
      SplitSnoc(s[1..], c, last);
      assert (s + [c] + last)[1..] == s[1..] + [c] + last;
      var rest := SplitAt(s[1..], c);
      assert (rest + [last])[0] == rest[0] && (rest + [last])[1..] == rest[1..] + [last];
    }
  }

  lemma {:induction false} NoSplit(s: string, c: char)
    requires c !in s
    ensures SplitAt(s, c) == [s]
  {
    if s != "" {
      NoSplit(s[1..], c);
      assert [s[0]] + s[1..] == s;
    }
  }

  lemma {:induction false} JoinSplit(s: string, c: char)
    ensures JoinWith(SplitAt(s, c), c) == s
  {
    if s != "" {
      JoinSplit(s[1..], c);
      var rest := SplitAt(s[1..], c);
      if s[0] == c {
        assert ([""] + rest)[1..] == rest;
        assert "" + [c] + s[1..] == s;
      } else {
        var parts := [[s[0]] + rest[0]] + rest[1..];
        assert parts[1..] == rest[1..];
        assert s == [s[0]] + s[1..];
        if |rest| > 1 {
          assert JoinWith(parts, c) == [s[0]] + rest[0] + [c] + JoinWith(rest[1..], c);
          assert JoinWith(rest, c) == rest[0] + [c] + JoinWith(rest[1..], c);
        } else {
          assert rest == [rest[0]];
        }
      }
    }
  }

  /** A host that carries its port twice is repaired. */
  lemma DoublePortRepaired(host: string, p: string, port: u16)
    requires ReadsAsU16(p) && ':' !in p
    ensures FormatEndpoint(host + ":" + p + ":" + p, port) == host + ":" + p
  {
    var once := host + ":" + p;
    SplitSnoc(host, ':', p);
    SplitSnoc(once, ':', p);
    var parts := SplitAt(once, ':');
    assert (parts + [p])[..|parts|] == parts;
    JoinSplit(once, ':');
    assert (once + ":" + p)[|host|] == ':';
  }

  /** A host that carries a port once is left alone. */
  lemma SinglePortKept(host: string, p: string, port: u16)
    requires ':' !in host && ':' !in p
    ensures FormatEndpoint(host + ":" + p, port) == host + ":" + p
  {
    SplitSnoc(host, ':', p);
    NoSplit(host, ':');
    assert (host + ":" + p)[|host|] == ':';
  }

  lemma {:induction false} DecimalReads(n: nat)
    ensures IsDigits(Decimal(n)) && Number(Decimal(n)) == n
  {
    if n >= 10 {
      DecimalReads(n / 10);
      var s := Decimal(n);
      assert s[..|s| - 1] == Decimal(n / 10);
    } else {
      assert Decimal(n)[..0] == "";
    }
  }

  /** The endpoint of a host without a colon names that host and that port, and no other. */
  lemma EndpointNamesHostAndPort(host: string, port: u16)
    requires ':' !in host
    ensures var parts := SplitAt(FormatEndpoint(host, port), ':');
      |parts| == 2 && parts[0] == host && IsDigits(parts[1]) && Number(parts[1]) == port
  {
    DecimalReads(port);
    assert ':' !in Decimal(port);
    SplitSnoc(host, ':', Decimal(port));
    NoSplit(host, ':');
  }

  // ---- Exactly what is repaired, and what is accepted ----

  /** The host carries its port twice. */
  ghost predicate Doubled(host: string) {
    exists h: string, p: string :: DoubledAs(host, h, p)
  }

  predicate DoubledAs(host: string, h: string, p: string) {
    host == h + ":" + p + ":" + p && ':' !in p && ReadsAsU16(p)
  }

  lemma {:induction false} JoinSnoc(parts: seq<string>, last: string, c: char)
    requires parts != []
    ensures JoinWith(parts + [last], c) == JoinWith(parts, c) + [c] + last
  {
    if |parts| == 1 {
      assert (parts + [last])[1..] == [last];
    } else {
      assert (parts + [last])[1..] == parts[1..] + [last];
      JoinSnoc(parts[1..], last, c);
      Reassociate(parts[0] + [c], JoinWith(parts[1..], c), [c] + last);
    }
  }

  lemma {:induction false} PartsHaveNo(s: string, c: char)
    ensures forall i :: 0 <= i < |SplitAt(s, c)| ==> c !in SplitAt(s, c)[i]
  {
    if s != "" { PartsHaveNo(s[1..], c); }
  }

  lemma LastTwo(host: string)
    requires |SplitAt(host, ':')| >= 3
    ensures var parts := SplitAt(host, ':');
      var n := |parts|;
      && host == JoinWith(parts[..n - 2], ':') + ":" + parts[n - 2] + ":" + parts[n - 1]
      && JoinWith(parts[..n - 1], ':') == JoinWith(parts[..n - 2], ':') + ":" + parts[n - 2]
      && ':' !in parts[n - 1]
  {
    var parts := SplitAt(host, ':');
    var n := |parts|;
    JoinSplit(host, ':');
    PartsHaveNo(host, ':');
    assert parts == parts[..n - 1] + [parts[n - 1]] && parts[..n - 1] == parts[..n - 2] + [parts[n - 2]];
    JoinSnoc(parts[..n - 1], parts[n - 1], ':');
    JoinSnoc(parts[..n - 2], parts[n - 2], ':');
  }

  /** A host is taken for an endpoint as it is exactly if it has a colon and does not carry its port
      twice. */
  lemma HostKeptIff(host: string, port: u16)
    ensures FormatEndpoint(host, port) == host <==> ':' in host && !Doubled(host)
  {
    if ':' in host {
      var parts := SplitAt(host, ':');
      if |parts| >= 3 {
        LastTwo(host);
        var h := JoinWith(parts[..|parts| - 2], ':');
        if parts[|parts| - 1] == parts[|parts| - 2] && ReadsAsU16(parts[|parts| - 1]) {
          assert DoubledAs(host, h, parts[|parts| - 1]);
        }
      }
      if Doubled(host) {
        var h, p :| DoubledAs(host, h, p);
        DoublePortRepaired(h, p, port);
      }
    }
  }

  /** Ports read as 16-bit numbers do. */
  lemma PortsRead()
    ensures ReadsAsU16("0") && ReadsAsU16("65535") && ReadsAsU16("+8080") && ReadsAsU16("00080")
    ensures !ReadsAsU16("") && !ReadsAsU16("+") && !ReadsAsU16("65536") && !ReadsAsU16("-1") && !ReadsAsU16("80a")
  {
    NumberOfFive('6', '5', '5', '3', '5');
    NumberOfFive('6', '5', '5', '3', '6');
    NumberOfFive('0', '0', '0', '8', '0');
    NumberOfFour('8', '0', '8', '0');
    assert "+8080"[1..] == "8080" && "+"[1..] == "" && "-1"[0] == '-' && "80a"[2] == 'a';
    assert "0"[..0] == "";
  }

  lemma NumberOfTwo(b: char, c: char)
    requires '0' <= b <= '9' && '0' <= c <= '9'
    ensures Number([b, c]) == (b as int - 48) * 10 + (c as int - 48)
  {
    NumberSnoc([], b);
    NumberSnoc([b], c);
    assert [] + [b] == [b] && [b] + [c] == [b, c];
  }

  lemma NumberOfThree(b: char, c: char, d: char)
    requires '0' <= b <= '9' && '0' <= c <= '9' && '0' <= d <= '9'
    ensures Number([b, c, d]) == (b as int - 48) * 100 + (c as int - 48) * 10 + (d as int - 48)
  {
    NumberOfTwo(b, c);
    NumberSnoc([b, c], d);
    assert [b, c] + [d] == [b, c, d];
  }

  lemma NumberOfFour(b: char, c: char, d: char, e: char)
    requires '0' <= b <= '9' && '0' <= c <= '9' && '0' <= d <= '9' && '0' <= e <= '9'
    ensures Number([b, c, d, e]) == Value4(b, c, d, e)
  {
    NumberOfThree(b, c, d);
    NumberSnoc([b, c, d], e);
    assert [b, c, d] + [e] == [b, c, d, e];
  }

  lemma NumberOfFive(a: char, b: char, c: char, d: char, e: char)
    requires '0' <= a <= '9' && '0' <= b <= '9' && '0' <= c <= '9' && '0' <= d <= '9' && '0' <= e <= '9'
    ensures Number([a, b, c, d, e]) == Value4(a, b, c, d) * 10 + (e as int - 48)
  {
    NumberOfFour(a, b, c, d);
    NumberSnoc([a, b, c, d], e);
    assert [a, b, c, d] + [e] == [a, b, c, d, e];
  }

  lemma NumberSnoc(s: string, c: char)
    requires '0' <= c <= '9' && forall i :: 0 <= i < |s| ==> '0' <= s[i] <= '9'
    ensures Number(s + [c]) == Number(s) * 10 + (c as int - 48)
  {
    assert (s + [c])[..|s|] == s;
  }

  function Value4(b: char, c: char, d: char, e: char): int {
    (b as int - 48) * 1000 + (c as int - 48) * 100 + (d as int - 48) * 10 + (e as int - 48)
  }

  /** White space is what Unicode lists under that name. */
  lemma WhiteSpaceIs(c: char)
    ensures var all := {9, 10, 11, 12, 13, 32, 133, 160, 5760, 8192, 8193, 8194, 8195, 8196, 8197, 8198, 8199, 8200,
                        8201, 8202, 8232, 8233, 8239, 8287, 12288};
      IsSpace(c) <==> c as int in all
  {
  }

  predicate IdentityPayload(d: bytes, q: ParsedQr) {
    |q.publicKey| == 32 && d == [0x02] + q.publicKey && q == ParsedQr(q.publicKey, None, None)
  }

  /** A key, a host with its length, a port; whatever follows is ignored. */
  predicate EndpointLaidOut(d: bytes, key: bytes, h: bytes, port: u16, rest: bytes) {
    |key| == 32 && |h| < 256 && d == [0x03] + key + [|h|] + h + U16ToBe(port) + rest
  }

  ghost predicate EndpointPayload(d: bytes, q: ParsedQr) {
    exists h: bytes, port: u16, rest: bytes ::
      && EndpointLaidOut(d, q.publicKey, h, port, rest) && Utf8.Decode(h).Some?
      && q == ParsedQr(q.publicKey, Some(FormatEndpoint(Utf8.Decode(h).value, port)), None)
  }

  predicate TicketLaidOut(d: bytes, key: bytes, t: bytes, rest: bytes) {
    |key| == 32 && |t| < 0x1_0000 && d == [0x04] + key + U16ToBe(|t|) + t + rest
  }

  ghost predicate TicketPayload(d: bytes, q: ParsedQr) {
    exists t: bytes, rest: bytes ::
      && TicketLaidOut(d, q.publicKey, t, rest) && Utf8.Decode(t).Some?
      && q == ParsedQr(q.publicKey, None, Utf8.Decode(t))
  }

  /** The layout of an endpoint can be read off the bytes. */
  lemma EndpointLaidOutIff(d: bytes, key: bytes, h: bytes, port: u16, rest: bytes)
    ensures EndpointLaidOut(d, key, h, port, rest) <==>
      && |d| >= 36 && d[0] == 0x03 && key == d[1..33]
      && var n: nat := d[33];
         |d| >= 36 + n && h == d[34..34 + n] && port == U16FromBe(d[34 + n], d[35 + n]) && rest == d[36 + n..]
  {
    if EndpointLaidOut(d, key, h, port, rest) {
      EndpointForward(d, key, h, U16ToBe(port), rest);
    } else if |d| >= 36 && d[0] == 0x03 {
      var n: nat := d[33];
      if |d| >= 36 + n { EndpointBackward(d, n); }
    }
  }

  lemma EndpointForward(d: bytes, key: bytes, h: bytes, p: bytes, rest: bytes)
    requires |key| == 32 && |h| < 256 && |p| == 2 && d == [0x03] + key + [|h|] + h + p + rest
    ensures |d| >= 36 + |h| && d[0] == 0x03 && key == d[1..33] && d[33] == |h| && h == d[34..34 + |h|]
    ensures d[34 + |h|] == p[0] && d[35 + |h|] == p[1] && rest == d[36 + |h|..]
  {
  }

  lemma EndpointBackward(d: bytes, n: nat)
    requires |d| >= 36 + n && d[0] == 0x03 && n == d[33]
    ensures d == [0x03] + d[1..33] + [n] + d[34..34 + n] + U16ToBe(U16FromBe(d[34 + n], d[35 + n])) + d[36 + n..]
  {
    U16BeUnique(d[34 + n], d[35 + n]);
  }

  lemma TicketLaidOutIff(d: bytes, key: bytes, t: bytes, rest: bytes)
    ensures TicketLaidOut(d, key, t, rest) <==>
      && |d| >= 35 && d[0] == 0x04 && key == d[1..33]
      && var n: nat := U16FromBe(d[33], d[34]);
         |d| >= 35 + n && t == d[35..35 + n] && rest == d[35 + n..]
  {
    if TicketLaidOut(d, key, t, rest) {
      TicketForward(d, key, U16ToBe(|t|), t, rest);
    } else if |d| >= 35 && d[0] == 0x04 {
      var n: nat := U16FromBe(d[33], d[34]);
      if |d| >= 35 + n { TicketBackward(d, n); }
    }
  }

  lemma TicketForward(d: bytes, key: bytes, n: bytes, t: bytes, rest: bytes)
    requires |key| == 32 && |n| == 2 && d == [0x04] + key + n + t + rest
    ensures |d| >= 35 + |t| && d[0] == 0x04 && key == d[1..33] && d[33] == n[0] && d[34] == n[1]
    ensures t == d[35..35 + |t|] && rest == d[35 + |t|..]
  {
  }

  lemma TicketBackward(d: bytes, n: nat)
    requires |d| >= 35 + n && d[0] == 0x04 && n == U16FromBe(d[33], d[34])
    ensures d == [0x04] + d[1..33] + U16ToBe(n) + d[35..35 + n] + d[35 + n..]
  {
    U16BeUnique(d[33], d[34]);
  }

  lemma EndpointParsesIff(d: bytes, q: ParsedQr)
    requires d != [] && d[0] == 0x03
    ensures ParseEndpoint(d) == Ok(q) <==> EndpointPayload(d, q)
  {
    if ParseEndpoint(d) == Ok(q) {
      var n: nat := d[33];
      EndpointLaidOutIff(d, d[1..33], d[34..34 + n], U16FromBe(d[34 + n], d[35 + n]), d[36 + n..]);
    }
    if EndpointPayload(d, q) {
      var h, port, rest :| EndpointLaidOut(d, q.publicKey, h, port, rest) && Utf8.Decode(h).Some?
        && q == ParsedQr(q.publicKey, Some(FormatEndpoint(Utf8.Decode(h).value, port)), None);
      EndpointLaidOutIff(d, q.publicKey, h, port, rest);
    }
  }

  lemma TicketParsesIff(d: bytes, q: ParsedQr)
    requires d != [] && d[0] == 0x04
    ensures ParseTicket(d) == Ok(q) <==> TicketPayload(d, q)
  {
    if ParseTicket(d) == Ok(q) {
      var n: nat := U16FromBe(d[33], d[34]);
      TicketLaidOutIff(d, d[1..33], d[35..35 + n], d[35 + n..]);
    }
    if TicketPayload(d, q) {
      var t, rest :| TicketLaidOut(d, q.publicKey, t, rest) && Utf8.Decode(t).Some?
        && q == ParsedQr(q.publicKey, None, Utf8.Decode(t));
      TicketLaidOutIff(d, q.publicKey, t, rest);
    }
  }

  /** A text is accepted exactly if, without its white space, it is an encoding of a payload of one of the
      three layouts. */
  lemma ParsesIff(text: string, q: ParsedQr)
    ensures Parse(text) == Ok(q) <==>
      exists d: bytes :: Normalize(text) != "" && Base64.DecodeAny(Normalize(text)) == Some(d)
        && (IdentityPayload(d, q) || EndpointPayload(d, q) || TicketPayload(d, q))
  {
    var clean := Normalize(text);
    var decoded := Base64.DecodeAny(clean);
    if clean != "" && decoded.Some? {
      PayloadIff(text, decoded.value, q);
    }
  }

  lemma PayloadIff(text: string, d: bytes, q: ParsedQr)
    requires Normalize(text) != "" && Base64.DecodeAny(Normalize(text)) == Some(d)
    ensures Parse(text) == Ok(q) <==> IdentityPayload(d, q) || EndpointPayload(d, q) || TicketPayload(d, q)
  {
    TagsApart(d, q);
    if d != [] {
      if d[0] == 0x02 {
        assert d == [0x02] + d[1..];
      } else if d[0] == 0x03 {
        EndpointParsesIff(d, q);
      } else if d[0] == 0x04 {
        TicketParsesIff(d, q);
      }
    }
  }

  lemma TagsApart(d: bytes, q: ParsedQr)
    ensures IdentityPayload(d, q) ==> d != [] && d[0] == 0x02
    ensures EndpointPayload(d, q) ==> d != [] && d[0] == 0x03
    ensures TicketPayload(d, q) ==> d != [] && d[0] == 0x04
  {
    if EndpointPayload(d, q) {
      var h, port, rest :| EndpointLaidOut(d, q.publicKey, h, port, rest);
      EndpointLaidOutIff(d, q.publicKey, h, port, rest);
    }
    if TicketPayload(d, q) {
      var t, rest :| TicketLaidOut(d, q.publicKey, t, rest);
      TicketLaidOutIff(d, q.publicKey, t, rest);
    }
  }
}
