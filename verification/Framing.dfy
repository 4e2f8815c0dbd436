/**
 * Frames as bytes: headers (src/frame.rs), and writing and reading whole frames (src/connection.rs),
 * the reader being handed the bytes in chunks of any size.
 */
module Framing {
  import opened Base

  const V2 := 2
  const V3 := 3
  const LEN_V2 := 10
  const LEN_V3 := 18
  /** The highest flag byte with only supported bits: bit 0, FIN. */
  const MAX_FLAGS := 1

  datatype Config = Config(version: nat, maxFrame: nat)

  datatype WireItem = WireItem(streamId: nat, seqNo: nat, flags: byte, payload: seq<byte>)

  function Pow256(k: nat): (p: nat)
    ensures p > 0
  {
    if k == 0 then 1 else 256 * Pow256(k - 1)
  }

  /** The k big-endian bytes of n. */
  function BigEndian(n: nat, k: nat): (b: seq<byte>)
    ensures |b| == k
  {
    if k == 0 then [] else BigEndian(n / 256, k - 1) + [n % 256]
  }

  function FromBigEndian(b: seq<byte>): nat {
    if b == [] then 0 else FromBigEndian(b[..|b| - 1]) * 256 + b[|b| - 1]
  }

  lemma {:induction false} BigEndianRoundTrip(n: nat, k: nat)
    requires n < Pow256(k)
    ensures FromBigEndian(BigEndian(n, k)) == n
  {
    if k > 0 {
      BigEndianRoundTrip(n / 256, k - 1);
      assert BigEndian(n, k)[..k - 1] == BigEndian(n / 256, k - 1);
    }
  }

  /** Byte i of k is the digit of n at its place, the most significant first. */
  lemma {:induction false} BigEndianDigits(n: nat, k: nat, i: nat)
    requires i < k
    ensures BigEndian(n, k)[i] == n / Pow256(k - 1 - i) % 256
  {
    if i < k - 1 {
      BigEndianDigits(n / 256, k - 1, i);
      DivDiv(n, Pow256(k - 2 - i));
    }
  }

  lemma DivDiv(n: nat, p: nat)
    requires p > 0
    ensures n / 256 / p == n / (256 * p)
  {
    var q, r := n / 256, n % 256;
    var a: nat, b: nat := q / p, q % p;
    assert n == 256 * p * a + (256 * b + r);
    assert 256 * b + r < 256 * p;
    DivUnique(n, 256 * p, a, 256 * b + r);
  }

  lemma DivUnique(n: nat, d: nat, q: nat, r: nat)
    requires d > 0 && r < d && n == d * q + r
    ensures n / d == q
  {
    assert d * (n / d - q) == r - n % d;
    Multiple(d, n / d - q);
  }

  lemma Multiple(d: int, k: int)
    requires d > 0
    ensures k >= 1 ==> d * k >= d
    ensures k <= -1 ==> d * k <= -d
  {
    if k >= 1 {
      assert d * k == d + d * (k - 1) && d * (k - 1) >= 0;
    } else if k <= -1 {
      assert d * k == d * (k + 1) - d && d * (k + 1) <= 0;
    }
  }

  function HeaderLen(version: nat): Result<nat> {
    if version == V2 then Ok(LEN_V2)
    else if version == V3 then Ok(LEN_V3)
    else Err(UnsupportedFrameVersion(version))
  }

  /** The 18 bytes that `build_header` fills; those of v2 end with eight zeros. */
  function HeaderBytes(version: byte, item: WireItem): (h: seq<byte>)
    ensures |h| == LEN_V3
  {
    [version, item.flags] + BigEndian(item.streamId, 4) + BigEndian(|item.payload|, 4)
    + BigEndian(if version == V3 then item.seqNo else 0, 8)
  }

  /** Writes the k big-endian bytes of n at `at`. */
  method Put(a: array<byte>, at: nat, n: nat, k: nat)
    requires at + k <= a.Length
    modifies a
    ensures a[..] == old(a[..at]) + BigEndian(n, k) + old(a[at + k..])
  {
    var left, i := n, k;
    while i > 0
      invariant 0 <= i <= k
      invariant BigEndian(n, k) == BigEndian(left, i) + a[at + i..at + k]
      invariant a[..at] == old(a[..at]) && a[at + k..] == old(a[at + k..])
    {
      i := i - 1;
      a[at + i] := left % 256;
      assert a[at + i..at + k] == [left % 256] + a[at + i + 1..at + k];
      left := left / 256;
    }
    assert a[..] == a[..at] + a[at..at + k] + a[at + k..];
  }

  method BuildHeader(version: byte, item: WireItem, maxFrame: nat) returns (r: Result<seq<byte>>)
    ensures r == if |item.payload| > 0xFFFF_FFFF || |item.payload| > maxFrame then Err(FrameTooLarge(|item.payload|))
                 else Ok(HeaderBytes(version, item))
  {
    if |item.payload| > 0xFFFF_FFFF {
      return Err(FrameTooLarge(|item.payload|));
    }
    if |item.payload| > maxFrame {
      return Err(FrameTooLarge(|item.payload|));
    }
    var header := new byte[LEN_V3](_ => 0);
    header[0] := version;
    header[1] := item.flags;
    ghost var start := [version, item.flags];
    assert header[..2] == start;
    assert header[2..] == seq(16, _ => 0);
    Put(header, 2, item.streamId, 4);
    start := start + BigEndian(item.streamId, 4);
    assert header[..6] == start && header[6..] == seq(12, _ => 0);
    Put(header, 6, |item.payload|, 4);
    start := start + BigEndian(|item.payload|, 4);
    assert header[..10] == start && header[10..] == seq(8, _ => 0);
    ZeroBytes(8);
    assert header[..] == header[..10] + header[10..];
    if version == V3 {
      Put(header, 10, item.seqNo, 8);
      assert header[18..] == [];
      assert header[..] == start + BigEndian(item.seqNo, 8);
    }
    return Ok(header[..]);
  }

  lemma {:induction false} ZeroBytes(k: nat)
    ensures BigEndian(0, k) == seq(k, _ => 0)
  {
    if k > 0 {
      ZeroBytes(k - 1);
    }
  }

  /** The stream ID, sequence number, flags and payload length of a header. */
  function ParseHeader(header: seq<byte>, version: nat): Result<(nat, nat, byte, nat)>
    requires |header| >= 2
  {
    if header[0] != version then Err(UnsupportedFrameVersion(header[0]))
    else if header[1] > MAX_FLAGS then Err(InvalidMessage("unsupported frame flags"))
    else match HeaderLen(version)
      case Err(e) => Err(e)
      case Ok(len) =>
        if |header| < len then Err(InvalidMessage("invalid frame header length"))
        else Ok((FromBigEndian(header[2..6]), if version == V3 then FromBigEndian(header[10..18]) else 0,
                 header[1], FromBigEndian(header[6..10])))
  }

  /** What reading one frame from the front of a byte stream gives. */
  datatype ReadResult = Clean | Got(item: WireItem, rest: seq<byte>) | Failed(error: Error)

  function ReadSpec(c: Config, headerLen: nat, bytes: seq<byte>): (r: ReadResult)
    requires headerLen >= 2
    ensures r.Got? ==> |r.rest| < |bytes|
  {
    if bytes == [] then Clean
    else if |bytes| < headerLen then Failed(UnexpectedEof)
    else match ParseHeader(bytes[..headerLen], c.version)
      case Err(e) => Failed(e)
      case Ok((id, seqNo, flags, len)) =>
        if len > c.maxFrame then Failed(FrameTooLarge(len))
        else if |bytes| < headerLen + len then Failed(UnexpectedEof)
        else Got(WireItem(id, seqNo, flags, bytes[headerLen..headerLen + len]), bytes[headerLen + len..])
  }

  function Flatten(chunks: seq<seq<byte>>): seq<byte> {
    if chunks == [] then [] else chunks[0] + Flatten(chunks[1..])
  }

  /** A transport's reading half: the bytes still to come, as they happen to be cut up. */
  class ByteReader {
    var chunks: seq<seq<byte>>

    ghost predicate Valid()
      reads this
    {
      forall i :: 0 <= i < |chunks| ==> chunks[i] != []
    }

    function Rest(): seq<byte>
      reads this
    {
      Flatten(chunks)
    }

    constructor (chunks: seq<seq<byte>>)
      requires forall i :: 0 <= i < |chunks| ==> chunks[i] != []
      ensures Valid() && Rest() == Flatten(chunks)
    {
      this.chunks := chunks;
    }

    /** Some bytes, at most `limit`; none only at the end of the stream. */
    method Read(limit: nat) returns (got: seq<byte>)
      requires Valid() && limit > 0
      modifies this
      ensures Valid() && |got| <= limit && old(Rest()) == got + Rest()
      ensures got == [] <==> old(Rest()) == []
    {
      if chunks == [] {
        return [];
      }
      var first := chunks[0];
      if |first| <= limit {
        got := first;
        chunks := chunks[1..];
      } else {
        got := first[..limit];
        chunks := [first[limit..]] + chunks[1..];
        assert chunks[1..] == old(chunks)[1..];
        assert first == got + first[limit..];
      }
    }

    /** Fills up to `want` bytes, however they are cut up; fewer only if the stream ends. */
    method Fill(start: seq<byte>, want: nat) returns (got: seq<byte>)
      requires Valid() && |start| <= want
      modifies this
      ensures Valid() && start + old(Rest()) == got + Rest()
      ensures |got| == want || (|got| < want && Rest() == [])
      ensures start <= got
    {
      got := start;
      while |got| < want
        invariant Valid() && |got| <= want && start + old(Rest()) == got + Rest() && start <= got
        decreases want - |got|
      {
        ghost var before := got;
        var more := Read(want - |got|);
        if more == [] {
          return;
        }
        got := got + more;
        assert before + (more + Rest()) == got + Rest();
      }
    }

    /** `read_frame`: the result depends on the bytes alone, not on the chunks. */
    method ReadFrame(c: Config, headerLen: nat) returns (r: Result<Option<WireItem>>)
      requires Valid() && 2 <= headerLen
      modifies this
      ensures Valid()
      ensures match ReadSpec(c, headerLen, old(Rest()))
        case Clean => r == Ok(None)
        case Got(item, rest) => r == Ok(Some(item)) && Rest() == rest
        case Failed(e) => r == Err(e)
    {
      ghost var all := Rest();
      var header := Read(headerLen);
      if header == [] {
        return Ok(None);
      }
      header := Fill(header, headerLen);
      if |header| < headerLen {
        assert Rest() == [] && all == header + [];
        return Err(UnexpectedEof);
      }
      assert all[..headerLen] == header;
      var parsed := ParseHeader(header, c.version);
      if parsed.Err? {
        return Err(parsed.error);
      }
      var (id, seqNo, flags, len) := parsed.value;
      if len > c.maxFrame {
        return Err(FrameTooLarge(len));
      }
      assert Rest() == all[headerLen..];
      var payload := Fill([], len);
      assert all == header + (payload + Rest());
      if |payload| < len {
        return Err(UnexpectedEof);
      }
      assert all[headerLen..headerLen + len] == payload && all[headerLen + len..] == Rest();
      return Ok(Some(WireItem(id, seqNo, flags, payload)));
    }
  }

  /** A frame the writer accepts under a negotiated configuration. */
  predicate Sendable(c: Config, item: WireItem) {
    && (c.version == V2 || c.version == V3)
    && item.streamId < Pow256(4) && item.seqNo < Pow256(8)
    && item.flags <= MAX_FLAGS
    && |item.payload| <= c.maxFrame && |item.payload| < Pow256(4)
  }

  function LenOf(c: Config): nat {
    if c.version == V2 then LEN_V2 else LEN_V3
  }

  /** `write_frame_counted`: the header, cut to the version's length, and the payload. */
  function EncodeFrame(c: Config, item: WireItem): (b: seq<byte>)
    requires Sendable(c, item)
    ensures |b| == LenOf(c) + |item.payload|
  {
    HeaderBytes(c.version, item)[..LenOf(c)] + item.payload
  }

  /** What a reader answers to bytes, case by case, in this order. */
  lemma ReadCases(c: Config, bytes: seq<byte>)
    requires c.version == 2 || c.version == 3
    ensures var n, r := if c.version == 2 then 10 else 18, ReadSpec(c, LenOf(c), bytes);
      && (r.Clean? <==> bytes == [])
      && (0 < |bytes| < n ==> r == Failed(UnexpectedEof))
      && (|bytes| >= n ==>
            var len := FromBigEndian(bytes[6..10]);
            if bytes[0] != c.version then r == Failed(UnsupportedFrameVersion(bytes[0]))
            else if bytes[1] > 1 then r.Failed? && r.error.InvalidMessage?
            else if len > c.maxFrame then r == Failed(FrameTooLarge(len))
            else if |bytes| < n + len then r == Failed(UnexpectedEof)
            else
              var number := if c.version == 3 then FromBigEndian(bytes[10..18]) else 0;
              r == Got(WireItem(FromBigEndian(bytes[2..6]), number, bytes[1], bytes[n..n + len]), bytes[n + len..]))
  {
    var n := LenOf(c);
    if |bytes| >= n {
      var h := bytes[..n];
      assert h[2..6] == bytes[2..6] && h[6..10] == bytes[6..10] && (c.version == 3 ==> h[10..18] == bytes[10..18]);
    }
  }

  /** The layout of a frame: 10 bytes of header in v2, 18 in v3, and the payload behind it. */
  lemma FrameLayout(c: Config, item: WireItem)
    requires Sendable(c, item)
    ensures var b, n := EncodeFrame(c, item), if c.version == 2 then 10 else 18;
      && |b| == n + |item.payload|
      && b[0] == c.version && b[1] == item.flags
      && b[2..6] == BigEndian(item.streamId, 4)
      && b[6..10] == BigEndian(|item.payload|, 4)
      && (c.version == 3 ==> b[10..18] == BigEndian(item.seqNo, 8))
      && b[n..] == item.payload
  {
    var id, len := BigEndian(item.streamId, 4), BigEndian(|item.payload|, 4);
    var number := BigEndian(if c.version == V3 then item.seqNo else 0, 8);
    HeaderFields(c.version, item.flags, id, len, number, LenOf(c));
    var k, b := HeaderBytes(c.version, item)[..LenOf(c)], EncodeFrame(c, item);
    assert b[2..6] == k[2..6] && b[6..10] == k[6..10] && (c.version == V3 ==> b[10..18] == k[10..18]);
  }

  /** v2 frames carry no sequence number. */
  function OnWire(c: Config, item: WireItem): WireItem {
    if c.version == V2 then item.(seqNo := 0) else item
  }

  predicate AllSendable(c: Config, items: seq<WireItem>) {
    forall i :: 0 <= i < |items| ==> Sendable(c, items[i])
  }

  function EncodeAll(c: Config, items: seq<WireItem>): seq<byte>
    requires AllSendable(c, items)
  {
    if items == [] then [] else EncodeFrame(c, items[0]) + EncodeAll(c, items[1..])
  }

  /** Reads frames until the stream ends, cleanly or not. */
  function ReadAll(c: Config, bytes: seq<byte>): (seq<WireItem>, Option<Error>)
    decreases |bytes|
  {
    match ReadSpec(c, LenOf(c), bytes)
    case Clean => ([], None)
    case Failed(e) => ([], Some(e))
    case Got(item, rest) => var (more, end) := ReadAll(c, rest); ([item] + more, end)
  }

  lemma Slice(a: seq<byte>, b: seq<byte>, c: seq<byte>, all: seq<byte>)
    requires all == a + b + c
    ensures all[|a|..|a| + |b|] == b
  {
  }

  /** Where the fields of a header lie. */
  lemma HeaderFields(version: byte, flags: byte, id: seq<byte>, len: seq<byte>, number: seq<byte>, n: nat)
    requires |id| == |len| == 4 && |number| == 8 && LEN_V2 <= n <= LEN_V3
    ensures var k := ([version, flags] + id + len + number)[..n];
      k[2..6] == id && k[6..10] == len && (n == LEN_V3 ==> k[10..18] == number)
  {
    var start := [version, flags];
    var h := start + id + len + number;
    Slice(start, id, len + number, h);
    Slice(start + id, len, number, h);
    Slice(start + id + len, number, [], h);
    var k := h[..n];
    assert k[2..6] == h[2..6] && k[6..10] == h[6..10] && (n == LEN_V3 ==> k[10..18] == h[10..18]);
  }

  /** A header with these fields is parsed to these values. */
  lemma FieldsParse(c: Config, item: WireItem, k: seq<byte>)
    requires Sendable(c, item) && |k| == LenOf(c) && k[0] == c.version && k[1] == item.flags
    requires k[2..6] == BigEndian(item.streamId, 4) && k[6..10] == BigEndian(|item.payload|, 4)
    requires c.version == V3 ==> k[10..18] == BigEndian(item.seqNo, 8)
    ensures ParseHeader(k, c.version) == Ok((item.streamId, OnWire(c, item).seqNo, item.flags, |item.payload|))
  {
    BigEndianRoundTrip(item.streamId, 4);
    BigEndianRoundTrip(|item.payload|, 4);
    BigEndianRoundTrip(item.seqNo, 8);
  }

  lemma HeaderRoundTrip(c: Config, item: WireItem)
    requires Sendable(c, item)
    ensures ParseHeader(HeaderBytes(c.version, item)[..LenOf(c)], c.version)
         == Ok((item.streamId, OnWire(c, item).seqNo, item.flags, |item.payload|))
  {
    var id, len := BigEndian(item.streamId, 4), BigEndian(|item.payload|, 4);
    var number := BigEndian(if c.version == V3 then item.seqNo else 0, 8);
    HeaderFields(c.version, item.flags, id, len, number, LenOf(c));
    FieldsParse(c, item, HeaderBytes(c.version, item)[..LenOf(c)]);
  }

  lemma FrameRoundTrip(c: Config, item: WireItem, rest: seq<byte>)
    requires Sendable(c, item)
    ensures ReadSpec(c, LenOf(c), EncodeFrame(c, item) + rest) == Got(OnWire(c, item), rest)
  {
    HeaderRoundTrip(c, item);
    var n, bytes := LenOf(c), EncodeFrame(c, item) + rest;
    assert bytes[..n] == HeaderBytes(c.version, item)[..n];
    assert bytes[n..n + |item.payload|] == item.payload;
    assert bytes[n + |item.payload|..] == rest;
  }

  lemma CutFrame(c: Config, item: WireItem, k: nat)
    requires Sendable(c, item) && 0 < k < |EncodeFrame(c, item)|
    ensures ReadSpec(c, LenOf(c), EncodeFrame(c, item)[..k]) == Failed(UnexpectedEof)
  {
    HeaderRoundTrip(c, item);
    var bytes := EncodeFrame(c, item)[..k];
    if k >= LenOf(c) {
      assert bytes[..LenOf(c)] == HeaderBytes(c.version, item)[..LenOf(c)];
    }
  }

  /** How many frames lie wholly within the first k bytes, and how many bytes they leave over. */
  function Whole(c: Config, items: seq<WireItem>, k: nat): (nat, nat)
    requires AllSendable(c, items)
  {
    if items == [] || k < |EncodeFrame(c, items[0])| then (0, k)
    else var (n, left) := Whole(c, items[1..], k - |EncodeFrame(c, items[0])|); (n + 1, left)
  }

  function AllOnWire(c: Config, items: seq<WireItem>): seq<WireItem> {
    if items == [] then [] else [OnWire(c, items[0])] + AllOnWire(c, items[1..])
  }

  /** Of the first k bytes exactly the whole frames are read, and the end is clean at a frame boundary. */
  ghost predicate RoundTrips(c: Config, items: seq<WireItem>, k: nat)
    requires AllSendable(c, items) && k <= |EncodeAll(c, items)|
  {
    var (n, left) := Whole(c, items, k);
    && n <= |items|
    && k == |EncodeAll(c, items[..n])| + left
    && (n < |items| ==> left < |EncodeFrame(c, items[n])|)
    && ReadAll(c, EncodeAll(c, items)[..k]) == (AllOnWire(c, items[..n]), if left == 0 then None else Some(UnexpectedEof))
  }

  /**
   * Framing round trip, also of a stream that ends anywhere: exactly the frames wholly received are
   * read, and the end is reported as clean exactly at a frame boundary.
   */
  lemma {:induction false} StreamRoundTrip(c: Config, items: seq<WireItem>, k: nat)
    requires AllSendable(c, items) && k <= |EncodeAll(c, items)|
    ensures RoundTrips(c, items, k)
  {
    if items != [] {
      var first := |EncodeFrame(c, items[0])|;
      if k < first {
        StreamEndsInFrame(c, items, k);
      } else {
        StreamRoundTrip(c, items[1..], k - first);
        OneFrameMore(c, items, k);
      }
    }
  }

  lemma OneFrameMore(c: Config, items: seq<WireItem>, k: nat)
    requires AllSendable(c, items) && items != [] && |EncodeFrame(c, items[0])| <= k <= |EncodeAll(c, items)|
    requires RoundTrips(c, items[1..], k - |EncodeFrame(c, items[0])|)
    ensures RoundTrips(c, items, k)
  {
    var (n, left) := Whole(c, items[1..], k - |EncodeFrame(c, items[0])|);
    assert Whole(c, items, k) == (n + 1, left);
    PrefixStep(c, items, n + 1);
    StreamStep(c, items, k);
  }

  lemma PrefixStep(c: Config, items: seq<WireItem>, n: nat)
    requires AllSendable(c, items) && 0 < n <= |items|
    ensures EncodeAll(c, items[..n]) == EncodeFrame(c, items[0]) + EncodeAll(c, items[1..][..n - 1])
    ensures AllOnWire(c, items[..n]) == [OnWire(c, items[0])] + AllOnWire(c, items[1..][..n - 1])
  {
    assert items[..n][0] == items[0] && items[..n][1..] == items[1..][..n - 1];
  }

  lemma StreamEndsInFrame(c: Config, items: seq<WireItem>, k: nat)
    requires AllSendable(c, items) && items != [] && k < |EncodeFrame(c, items[0])|
    ensures ReadAll(c, EncodeAll(c, items)[..k]) == ([], if k == 0 then None else Some(UnexpectedEof))
  {
    assert EncodeAll(c, items)[..k] == EncodeFrame(c, items[0])[..k];
    if k > 0 {
      CutFrame(c, items[0], k);
    }
  }

  lemma StreamStep(c: Config, items: seq<WireItem>, k: nat)
    requires AllSendable(c, items) && items != [] && |EncodeFrame(c, items[0])| <= k <= |EncodeAll(c, items)|
    ensures var rest := ReadAll(c, EncodeAll(c, items[1..])[..k - |EncodeFrame(c, items[0])|]);
      ReadAll(c, EncodeAll(c, items)[..k]) == ([OnWire(c, items[0])] + rest.0, rest.1)
  {
    var first := EncodeFrame(c, items[0]);
    var rest := EncodeAll(c, items[1..])[..k - |first|];
    assert EncodeAll(c, items)[..k] == first + rest;
    FrameRoundTrip(c, items[0], rest);
  }

  lemma {:induction false} AllFramesFit(c: Config, items: seq<WireItem>)
    requires AllSendable(c, items)
    ensures Whole(c, items, |EncodeAll(c, items)|) == (|items|, 0)
  {
    if items != [] {
      AllFramesFit(c, items[1..]);
    }
  }

  /** Writing any list of frames and reading it back gives the same list, and a clean end. */
  lemma ListRoundTrip(c: Config, items: seq<WireItem>)
    requires AllSendable(c, items)
    ensures ReadAll(c, EncodeAll(c, items)) == (AllOnWire(c, items), None)
    ensures c.version == V3 ==> AllOnWire(c, items) == items
  {
    var all := EncodeAll(c, items);
    StreamRoundTrip(c, items, |all|);
    AllFramesFit(c, items);
    assert all[..|all|] == all && items[..|items|] == items;
    if c.version == V3 {
      SameOnWire(c, items);
    }
  }

  lemma {:induction false} SameOnWire(c: Config, items: seq<WireItem>)
    requires c.version == V3
    ensures AllOnWire(c, items) == items
  {
    if items != [] {
      SameOnWire(c, items[1..]);
    }
  }
}
