/** Length-prefixed frames over a byte stream that may deliver its bytes in any pieces. */
module Framing {
  import opened Strings
  import opened Base64Url

  const MAX_FRAME := 1048576

  // ---- headers --------------------------------------------------------------------------------------------

  /** Four bytes, most significant first. */
  function Size(h: Bytes): nat
    requires |h| == 4
  {
    BigEndian(h[0], h[1], h[2], h[3])
  }

  function BigEndian(a: int, b: int, c: int, d: int): int { ((a * 256 + b) * 256 + c) * 256 + d }

  function Header(n: nat): (h: Bytes)
    requires n < 0x1_0000_0000
    ensures |h| == 4
  {
    [n / 0x100_0000, n / 0x1_0000 % 256, n / 0x100 % 256, n % 256]
  }

  lemma HeaderSize(n: nat)
    requires n < 0x1_0000_0000
    ensures Size(Header(n)) == n
  {
    var a, b := n / 256, n / 256 / 256;
    assert n / 0x1_0000 == b && n / 0x100_0000 == b / 256;
  }

  lemma SizeHeader(h: Bytes)
    requires |h| == 4
    ensures Size(h) < 0x1_0000_0000 && Header(Size(h)) == h
  {
    Digits256(h[0], h[1], h[2], h[3]);
  }

  lemma Digits256(a: int, b: int, c: int, d: int)
    requires 0 <= a < 256 && 0 <= b < 256 && 0 <= c < 256 && 0 <= d < 256
    ensures var n := BigEndian(a, b, c, d);
      0 <= n < 0x1_0000_0000 && n / 0x100_0000 == a && n / 0x1_0000 % 256 == b && n / 0x100 % 256 == c && n % 256 == d
  {
    var x := a * 256 + b;
    var y := x * 256 + c;
    var n := y * 256 + d;
    assert n / 0x100 == y && n / 0x1_0000 == x && n / 0x100_0000 == a;
  }

  // ---- frames ---------------------------------------------------------------------------------------------

  function Frame(payload: Bytes): Result<Bytes> {
    if |payload| > MAX_FRAME then Err("transport payload exceeds maximum frame size")
    else Ok(Header(|payload|) + payload)
  }

  datatype Parsed = Parsed(payload: Bytes, rest: Bytes)

  const CLOSED := "transport stream closed before frame completed"

  /** The first frame of a byte sequence and what follows it. */
  function FirstFrame(s: Bytes): Result<Parsed> {
    if |s| < 4 then Err(CLOSED)
    else if Size(s[..4]) > MAX_FRAME then Err("transport frame exceeds maximum size")
    else if |s| - 4 < Size(s[..4]) then Err(CLOSED)
    else Ok(Parsed(s[4..4 + Size(s[..4])], s[4 + Size(s[..4])..]))
  }

  /** A byte sequence starts with a frame exactly when it is that frame followed by the rest. */
  lemma FirstFrameIff(s: Bytes, payload: Bytes, rest: Bytes)
    ensures FirstFrame(s) == Ok(Parsed(payload, rest)) <==> Frame(payload).Ok? && s == Frame(payload).value + rest
  {
    if FirstFrame(s) == Ok(Parsed(payload, rest)) {
      SizeHeader(s[..4]);
      assert s == s[..4] + payload + rest;
    }
    if Frame(payload).Ok? && s == Frame(payload).value + rest { FirstOfFrame(payload, rest); }
  }

  lemma FirstOfFrame(payload: Bytes, rest: Bytes)
    requires |payload| <= MAX_FRAME
    ensures FirstFrame(Frame(payload).value + rest) == Ok(Parsed(payload, rest))
  {
    var h, s := Header(|payload|), Header(|payload|) + payload + rest;
    assert s[..4] == h && s[4..4 + |payload|] == payload && s[4 + |payload|..] == rest;
    HeaderSize(|payload|);
  }

  predicate AllFit(payloads: seq<Bytes>) { forall i :: 0 <= i < |payloads| ==> |payloads[i]| <= MAX_FRAME }

  function Stream(payloads: seq<Bytes>): Bytes
    requires AllFit(payloads)
  {
    if payloads == [] then [] else Frame(payloads[0]).value + Stream(payloads[1..])
  }

  /** The first `n` frames. */
  function Frames(s: Bytes, n: nat): Result<seq<Bytes>> {
    if n == 0 then Ok([])
    else
      var first := FirstFrame(s);
      if first.Err? then Err(first.reason)
      else
        var more := Frames(first.value.rest, n - 1);
        if more.Err? then more else Ok([first.value.payload] + more.value)
  }

  /** Reading back any list of payloads gives exactly the list, whatever follows it. */
  lemma {:induction false} FramesRoundTrip(payloads: seq<Bytes>, rest: Bytes)
    requires AllFit(payloads)
    ensures Frames(Stream(payloads) + rest, |payloads|) == Ok(payloads)
  {
    if payloads != [] {
      var tail := payloads[1..];
      FramesRoundTrip(tail, rest);
      assert Stream(payloads) + rest == Frame(payloads[0]).value + (Stream(tail) + rest);
      FirstOfFrame(payloads[0], Stream(tail) + rest);
      assert payloads == [payloads[0]] + tail;
    }
  }

  /** Reading from a stream cut anywhere is an error. */
  lemma {:induction false} TruncatedIsError(payloads: seq<Bytes>, s: Bytes)
    requires AllFit(payloads) && s < Stream(payloads)
    ensures Frames(s, |payloads|).Err?
    decreases |payloads|
  {
    var first, tail := Frame(payloads[0]).value, payloads[1..];
    if |s| < |first| {
      CutFrame(payloads[0], s);
    } else {
      var rest := s[|first|..];
      assert s == first + rest;
      FirstOfFrame(payloads[0], rest);
      assert rest < Stream(tail) by { assert Stream(payloads) == first + Stream(tail); }
      TruncatedIsError(tail, rest);
    }
  }

  lemma CutFrame(payload: Bytes, s: Bytes)
    requires |payload| <= MAX_FRAME && s < Frame(payload).value
    ensures FirstFrame(s).Err?
  {
    if |s| >= 4 {
      assert s[..4] == Header(|payload|);
      HeaderSize(|payload|);
    }
  }

  // ---- reading --------------------------------------------------------------------------------------------

  /** A stream not yet read to the end. */
  class Reader {
    var left: Bytes

    constructor (bytes: Bytes)
      ensures left == bytes
    {
      left := bytes;
    }

    /** Some of the bytes asked for, at least one unless the stream has ended. */
    method Read(n: nat) returns (chunk: Bytes)
      modifies this
      ensures old(left) == chunk + left && |chunk| <= n
      ensures chunk == [] <==> n == 0 || old(left) == []
    {
      if n == 0 || left == [] {
        chunk := [];
      } else {
        var k :| 1 <= k <= n && k <= |left|;
        chunk, left := left[..k], left[k..];
      }
    }

    method ReadExact(size: nat) returns (r: Result<Bytes>)
      modifies this
      ensures r.Ok? <==> size <= |old(left)|
      ensures r.Ok? ==> r.value == old(left)[..size] && left == old(left)[size..]
      ensures r.Err? ==> r.reason == CLOSED
    {
      var chunks, remaining := [], size;
      while remaining > 0
        invariant 0 <= remaining == size - |chunks| && old(left) == chunks + left
        decreases remaining
      {
        var chunk := Read(remaining);
        if chunk == [] { return Err(CLOSED); }
        chunks := chunks + chunk;
        remaining := remaining - |chunk|;
      }
      assert chunks == old(left)[..size] && left == old(left)[size..];
      return Ok(chunks);
    }

    method ReadFrame() returns (r: Result<Bytes>)
      modifies this
      ensures FirstFrame(old(left)).Err? ==> r == Err(FirstFrame(old(left)).reason)
      ensures FirstFrame(old(left)).Ok? ==>
        r == Ok(FirstFrame(old(left)).value.payload) && left == FirstFrame(old(left)).value.rest
    {
      var header := ReadExact(4);
      if header.Err? { return Err(header.reason); }
      var size := Size(header.value);
      if size > MAX_FRAME { return Err("transport frame exceeds maximum size"); }
      assert left == old(left)[4..];
      r := ReadExact(size);
      if r.Ok? {
        assert old(left)[4..][..size] == old(left)[4..4 + size];
        assert old(left)[4..][size..] == old(left)[4 + size..];
      }
    }

    /** Reading frame after frame, however the bytes arrive. */
    method ReadFrames(n: nat) returns (r: Result<seq<Bytes>>)
      modifies this
      ensures r == Frames(old(left), n)
    {
      var payloads := [];
      var i := 0;
      PrependNothing(Frames(left, n));
      while i < n
        invariant 0 <= i <= n
        invariant Frames(old(left), n) == Prepend(payloads, Frames(left, n - i))
      {
        ghost var before := left;
        var frame := ReadFrame();
        if frame.Err? { return Err(frame.reason); }
        PrependSnoc(payloads, frame.value, Frames(left, n - i - 1));
        payloads := payloads + [frame.value];
        i := i + 1;
      }
      assert payloads + [] == payloads;
      return Ok(payloads);
    }
  }

  lemma PrependNothing(r: Result<seq<Bytes>>)
    ensures Prepend([], r) == r
  {
    if r.Ok? { assert [] + r.value == r.value; }
  }

  function Prepend(a: seq<Bytes>, r: Result<seq<Bytes>>): Result<seq<Bytes>> {
    if r.Err? then r else Ok(a + r.value)
  }

  lemma PrependSnoc(a: seq<Bytes>, x: Bytes, r: Result<seq<Bytes>>)
    ensures Prepend(a + [x], r) == Prepend(a, Prepend([x], r))
  {
    if r.Ok? { assert a + [x] + r.value == a + ([x] + r.value); }
  }
}
