/**
 * The options a server hands to a client at attach: their normal form (src/recovery.rs) and the
 * attach response and control payloads that carry them (src/recovery_protocol.rs). Durations are
 * nanoseconds.
 */
module Negotiation {
  import opened Base
  import opened Framing

  const MS := 1_000_000
  const U32_MAX := 0xFFFF_FFFF
  /** The longest duration the language has; doubling stops there. */
  const MAX_DURATION := 0xFFFF_FFFF_FFFF_FFFF * 1_000_000_000 + 999_999_999

  datatype Options = Options(ackEvery: nat, ackDelay: nat, interval: nat, timeout: nat)

  const DEFAULTS := Options(64, 20 * MS, 30_000 * MS, 90_000 * MS)

  function Twice(d: nat): nat {
    if 2 * d > MAX_DURATION then MAX_DURATION else 2 * d
  }

  /** Options as they are used: nothing is zero, and two heartbeats fit into the timeout. */
  ghost predicate Normal(o: Options) {
    o.ackEvery > 0 && o.ackDelay > 0 && o.interval > 0 && o.timeout >= Twice(o.interval)
  }

  function Normalized(o: Options): Options {
    var every := if o.ackEvery == 0 then DEFAULTS.ackEvery else o.ackEvery;
    var delay := if o.ackDelay == 0 then DEFAULTS.ackDelay else o.ackDelay;
    var interval := if o.interval == 0 then DEFAULTS.interval else o.interval;
    var timeout := if o.timeout == 0 then DEFAULTS.timeout else o.timeout;
    Options(every, delay, interval, if timeout < Twice(interval) then Twice(interval) else timeout)
  }

  /** Normalizing makes options normal, and leaves normal ones alone. */
  lemma NormalizedIsNormal(o: Options)
    requires o.interval <= MAX_DURATION
    ensures Normal(Normalized(o))
    ensures Normal(o) ==> Normalized(o) == o
    ensures Normalized(Normalized(o)) == Normalized(o)
  {
  }

  method Normalize(o: Options) returns (n: Options)
    requires o.interval <= MAX_DURATION
    ensures n == Normalized(o) && Normal(n)
    ensures n.ackEvery == if o.ackEvery == 0 then 64 else o.ackEvery
    ensures n.ackDelay == if o.ackDelay == 0 then 20_000_000 else o.ackDelay
    ensures n.interval == if o.interval == 0 then 30_000_000_000 else o.interval
    ensures var timeout := if o.timeout == 0 then 90_000_000_000 else o.timeout;
      n.timeout == if 2 * n.interval <= MAX_DURATION then Max(timeout, 2 * n.interval) else Max(timeout, MAX_DURATION)
  {
    n := o;
    if n.ackEvery == 0 {
      n := n.(ackEvery := DEFAULTS.ackEvery);
    }
    if n.ackDelay == 0 {
      n := n.(ackDelay := DEFAULTS.ackDelay);
    }
    if n.interval == 0 {
      n := n.(interval := DEFAULTS.interval);
    }
    if n.timeout == 0 {
      n := n.(timeout := DEFAULTS.timeout);
    }
    if n.timeout < Twice(n.interval) {
      n := n.(timeout := Twice(n.interval));
    }
  }

  function ToMillis(d: nat): Result<nat> {
    if d == 0 then Err(InvalidMessage("recovery duration must be positive"))
    else
      var millis := Max(d / MS, 1);
      if millis > U32_MAX then Err(InvalidMessage("recovery duration too large")) else Ok(millis)
  }

  datatype Encoded = Encoded(ackEvery: nat, delayMs: nat, intervalMs: nat, timeoutMs: nat)

  function Encode(o: Options): Result<Encoded> {
    var n := Normalized(o);
    match ToMillis(n.ackDelay)
    case Err(e) => Err(e)
    case Ok(delay) =>
      match ToMillis(n.interval)
      case Err(e) => Err(e)
      case Ok(interval) =>
        match ToMillis(n.timeout)
        case Err(e) => Err(e)
        case Ok(timeout) => Ok(Encoded(n.ackEvery, delay, interval, timeout))
  }

  function Decode(e: Encoded): Result<Options> {
    var o := Options(e.ackEvery, e.delayMs * MS, e.intervalMs * MS, e.timeoutMs * MS);
    if o.ackEvery == 0 then Err(InvalidMessage("negotiated ack_every must be positive"))
    else if o.ackDelay == 0 then Err(InvalidMessage("negotiated ack_delay must be positive"))
    else if o.interval == 0 then Err(InvalidMessage("negotiated heartbeat_interval must be positive"))
    else if o.timeout < Twice(o.interval) then Err(InvalidMessage("negotiated heartbeat_timeout too small"))
    else Ok(o)
  }

  /** A duration as the peer sees it: whole milliseconds, at least one. */
  function Floored(d: nat): nat {
    Max(d / MS, 1) * MS
  }

  function FlooredOptions(o: Options): Options {
    Options(o.ackEvery, Floored(o.ackDelay), Floored(o.interval), Floored(o.timeout))
  }

  /**
   * Options survive the wire: options that can be encoded are accepted at the other end, floored to
   * milliseconds and still normal, if and only if the normalized heartbeat interval is at least one
   * millisecond or the timeout at least two.
   */
  lemma OptionsSurviveTheWire(o: Options)
    requires o.interval <= MAX_DURATION && Encode(o).Ok?
    ensures var n, d := Normalized(o), Decode(Encode(o).value);
      && (d.Ok? <==> n.interval >= MS || n.timeout >= 2 * MS)
      && (d.Ok? ==> d.value == FlooredOptions(n) && Normal(d.value) && Normalized(d.value) == d.value)
  {
    var n := Normalized(o);
    NormalizedIsNormal(o);
    assert n.timeout >= 2 * n.interval;
    FloorDoubles(n.interval, n.timeout);
  }

  lemma FloorDoubles(i: nat, t: nat)
    requires t >= 2 * i
    ensures i >= MS ==> Max(t / MS, 1) >= 2 * Max(i / MS, 1)
    ensures i < MS ==> Max(i / MS, 1) == 1 && (Max(t / MS, 1) >= 2 <==> t >= 2 * MS)
  {
  }

  /** Encoding fails only for a duration of 2^32 milliseconds or more. */
  lemma EncodableIffShort(o: Options)
    requires o.interval <= MAX_DURATION
    ensures var n := Normalized(o);
      Encode(o).Ok? <==> n.ackDelay / MS <= U32_MAX && n.interval / MS <= U32_MAX && n.timeout / MS <= U32_MAX
  {
    NormalizedIsNormal(o);
  }

  /** A server with a heartbeat of half a millisecond sends a response that its client rejects. */
  lemma HalfMillisecondHeartbeatIsRejected()
    ensures var o := Options(64, 20 * MS, MS / 2, MS + MS / 2);
      Normal(o) && Encode(o).Ok? && Decode(Encode(o).value).Err?
  {
  }

  datatype Response = Response(status: byte, connectionId: seq<byte>, secret: seq<byte>, lastRecv: nat, options: Encoded)

  const TOKEN_LEN := 16
  const RESPONSE_LEN := 60

  predicate WellFormed(r: Response) {
    && |r.connectionId| == TOKEN_LEN && |r.secret| == TOKEN_LEN && r.lastRecv < Pow256(8)
    && r.options.ackEvery < Pow256(4) && r.options.delayMs < Pow256(4)
    && r.options.intervalMs < Pow256(4) && r.options.timeoutMs < Pow256(4)
  }

  /** `write_attach_response` fills a buffer of fixed length. */
  method FillResponse(r: Response) returns (bytes: seq<byte>)
    requires WellFormed(r)
    ensures bytes == ResponseBytes(r)
    ensures |bytes| == 60 && bytes[..4] == [r.status, 0, 0, 0]
    ensures bytes[4..20] == r.connectionId && bytes[20..36] == r.secret
    ensures bytes[36..44] == BigEndian(r.lastRecv, 8)
    ensures bytes[44..48] == BigEndian(r.options.ackEvery, 4) && bytes[48..52] == BigEndian(r.options.delayMs, 4)
    ensures bytes[52..56] == BigEndian(r.options.intervalMs, 4) && bytes[56..] == BigEndian(r.options.timeoutMs, 4)
  {
    var buf := new byte[RESPONSE_LEN](_ => 0);
    buf[0] := r.status;
    forall i | 0 <= i < TOKEN_LEN { buf[4 + i] := r.connectionId[i]; }
    forall i | 0 <= i < TOKEN_LEN { buf[20 + i] := r.secret[i]; }
    ghost var start := [r.status, 0, 0, 0] + r.connectionId + r.secret;
    assert buf[..36] == start;
    Put(buf, 36, r.lastRecv, 8);
    start := start + BigEndian(r.lastRecv, 8);
    assert buf[..44] == start;
    Put(buf, 44, r.options.ackEvery, 4);
    start := start + BigEndian(r.options.ackEvery, 4);
    assert buf[..48] == start;
    Put(buf, 48, r.options.delayMs, 4);
    start := start + BigEndian(r.options.delayMs, 4);
    assert buf[..52] == start;
    Put(buf, 52, r.options.intervalMs, 4);
    start := start + BigEndian(r.options.intervalMs, 4);
    assert buf[..56] == start;
    Put(buf, 56, r.options.timeoutMs, 4);
    assert buf[..] == start + BigEndian(r.options.timeoutMs, 4);
    return buf[..];
  }

  function ResponseBytes(r: Response): seq<byte> {
    [r.status, 0, 0, 0] + r.connectionId + r.secret + BigEndian(r.lastRecv, 8)
    + BigEndian(r.options.ackEvery, 4) + BigEndian(r.options.delayMs, 4)
    + BigEndian(r.options.intervalMs, 4) + BigEndian(r.options.timeoutMs, 4)
  }

  function ParseResponse(b: seq<byte>): Response
    requires |b| == RESPONSE_LEN
  {
    Response(b[0], b[4..20], b[20..36], FromBigEndian(b[36..44]),
             Encoded(FromBigEndian(b[44..48]), FromBigEndian(b[48..52]), FromBigEndian(b[52..56]), FromBigEndian(b[56..60])))
  }

  /** The response arrives as it was sent, down to the last received number that resumes the session. */
  lemma ResponseRoundTrip(r: Response)
    requires WellFormed(r)
    ensures |ResponseBytes(r)| == RESPONSE_LEN && ParseResponse(ResponseBytes(r)) == r
  {
    var b := ResponseBytes(r);
    assert b[4..20] == r.connectionId && b[20..36] == r.secret;
    assert b[36..44] == BigEndian(r.lastRecv, 8);
    assert b[44..48] == BigEndian(r.options.ackEvery, 4) && b[48..52] == BigEndian(r.options.delayMs, 4);
    assert b[52..56] == BigEndian(r.options.intervalMs, 4) && b[56..60] == BigEndian(r.options.timeoutMs, 4);
    BigEndianRoundTrip(r.lastRecv, 8);
    BigEndianRoundTrip(r.options.ackEvery, 4);
    BigEndianRoundTrip(r.options.delayMs, 4);
    BigEndianRoundTrip(r.options.intervalMs, 4);
    BigEndianRoundTrip(r.options.timeoutMs, 4);
  }

  datatype Control = AckControl(value: nat) | PingControl | CloseControl

  function BuildControl(c: Control): seq<byte> {
    match c
    case AckControl(v) => [1] + BigEndian(v, 8)
    case PingControl => [2]
    case CloseControl => [3]
  }

  function ParseControl(b: seq<byte>): Result<Control> {
    if b == [] then Err(InvalidMessage("empty control payload"))
    else if b[0] == 1 then
      if |b| != 9 then Err(InvalidMessage("invalid ack control payload length")) else Ok(AckControl(FromBigEndian(b[1..9])))
    else if b[0] == 2 then
      if |b| != 1 then Err(InvalidMessage("invalid heartbeat control payload length")) else Ok(PingControl)
    else if b[0] == 3 then
      if |b| != 1 then Err(InvalidMessage("invalid close control payload length")) else Ok(CloseControl)
    else Err(InvalidMessage("unknown control frame type"))
  }

  /** The bytes of each control payload. */
  lemma ControlLayout(v: nat)
    ensures BuildControl(AckControl(v)) == [1] + BigEndian(v, 8)
    ensures BuildControl(PingControl) == [2] && BuildControl(CloseControl) == [3]
  {
  }

  /** Parsing accepts exactly what is built. */
  lemma ControlRoundTrip(b: seq<byte>, c: Control)
    requires c.AckControl? ==> c.value < Pow256(8)
    ensures ParseControl(b) == Ok(c) <==> b == BuildControl(c)
  {
    if c.AckControl? {
      BigEndianRoundTrip(c.value, 8);
      assert BuildControl(c)[1..9] == BigEndian(c.value, 8);
      if |b| == 9 && b[0] == 1 {
        assert b == [b[0]] + b[1..9];
        BytesRoundTrip(b[1..9]);
      }
    }
  }

  lemma {:induction false} BytesRoundTrip(b: seq<byte>)
    ensures BigEndian(FromBigEndian(b), |b|) == b
  {
    if b != [] {
      var n, last := FromBigEndian(b[..|b| - 1]), b[|b| - 1];
      BytesRoundTrip(b[..|b| - 1]);
      assert (n * 256 + last) / 256 == n && (n * 256 + last) % 256 == last;
      assert b == b[..|b| - 1] + [last];
    }
  }
}
