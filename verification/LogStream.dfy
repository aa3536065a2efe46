/** Docker's multiplexed log stream (docker/service.go): frames of an 8-byte header and a payload. */
module LogStream {
  import opened Text

  type Byte = b: int | 0 <= b < 256
  type Bytes = seq<Byte>

  const HEADER := 8

  /* One frame: the stream it belongs to, three bytes of padding, and the payload. */
  datatype Frame = Frame(stream: Byte, pad1: Byte, pad2: Byte, pad3: Byte, payload: Bytes)

  ghost predicate WellFormed(f: Frame) { |f.payload| < 0x1_0000_0000 }

  ghost predicate AllWellFormed(frames: seq<Frame>) {
    forall i :: 0 <= i < |frames| ==> WellFormed(frames[i])
  }

  /* What Docker writes: a standard stream, and zero padding. */
  ghost predicate Standard(f: Frame) {
    WellFormed(f) && f.stream <= 2 && f.pad1 == f.pad2 == f.pad3 == 0
  }

  function Uint32(b0: Byte, b1: Byte, b2: Byte, b3: Byte): (n: nat)
    ensures n < 0x1_0000_0000
  {
    (b0 as int) * 0x100_0000 + (b1 as int) * 0x1_0000 + (b2 as int) * 0x100 + b3 as int
  }

  lemma Uint32Injective(b0: Byte, b1: Byte, b2: Byte, b3: Byte, c0: Byte, c1: Byte, c2: Byte, c3: Byte)
    requires Uint32(b0, b1, b2, b3) == Uint32(c0, c1, c2, c3)
    ensures b0 == c0 && b1 == c1 && b2 == c2 && b3 == c3
  {
    assert b0 == c0;
    assert b1 == c1;
    assert b2 == c2;
  }

  lemma Uint32Onto(n: nat) returns (b0: Byte, b1: Byte, b2: Byte, b3: Byte)
    requires n < 0x1_0000_0000
    ensures Uint32(b0, b1, b2, b3) == n
  {
    var high, low := n / 0x1_0000, n % 0x1_0000;
    b0, b1, b2, b3 := high / 0x100, high % 0x100, low / 0x100, low % 0x100;
  }

  // ---------- Writing ----------

  /* A header says which stream, and the payload's size, most significant byte first. */
  ghost predicate IsHeader(h: Bytes, f: Frame) {
    && |h| == 8
    && h[0] == f.stream && h[1] == f.pad1 && h[2] == f.pad2 && h[3] == f.pad3
    && |f.payload| == (((h[4] as int) * 0x100 + h[5] as int) * 0x100 + h[6] as int) * 0x100 + h[7] as int
  }

  ghost function Header(f: Frame): (h: Bytes)
    requires WellFormed(f)
    ensures IsHeader(h, f)
  {
    assert exists h: Bytes :: IsHeader(h, f) by {
      var b0, b1, b2, b3 := Uint32Onto(|f.payload|);
      var h: Bytes := [f.stream, f.pad1, f.pad2, f.pad3, b0, b1, b2, b3];
      assert IsHeader(h, f);
    }
    var h: Bytes :| IsHeader(h, f);
    h
  }

  lemma HeaderUnique(h: Bytes, f: Frame)
    requires WellFormed(f) && IsHeader(h, f)
    ensures h == Header(f)
  {
    var g := Header(f);
    Uint32Injective(h[4], h[5], h[6], h[7], g[4], g[5], g[6], g[7]);
    assert h == [h[0], h[1], h[2], h[3], h[4], h[5], h[6], h[7]];
    assert g == [g[0], g[1], g[2], g[3], g[4], g[5], g[6], g[7]];
  }

  ghost function Encode(frames: seq<Frame>): Bytes
    requires AllWellFormed(frames)
  {
    if frames == [] then [] else Header(frames[0]) + (frames[0].payload + Encode(frames[1..]))
  }

  ghost function Payloads(frames: seq<Frame>): Bytes {
    if frames == [] then [] else frames[0].payload + Payloads(frames[1..])
  }

  // ---------- Reading ----------

  function SizeAt(b: Bytes): nat
    requires |b| >= HEADER
  {
    Uint32(b[4], b[5], b[6], b[7])
  }

  /* The whole frames in some bytes, ignoring what is too short for another header; nothing when a
     header promises more than there is. */
  ghost function Parse(b: Bytes): Option<seq<Frame>> {
    if |b| < HEADER then Some([])
    else
      var n := SizeAt(b);
      if |b| - HEADER < n then None
      else match Parse(b[HEADER + n..])
        case None => None
        case Some(rest) => Some([Frame(b[0], b[1], b[2], b[3], b[HEADER..HEADER + n])] + rest)
  }

  /* The test on the first eight bytes. */
  predicate LooksMultiplexed(b: Bytes) {
    |b| >= HEADER && b[1] == 0 && b[2] == 0 && b[3] == 0 && b[0] <= 2
  }

  /* Whatever does not look or parse like a stream comes back as it is. */
  ghost function Decoded(b: Bytes): Bytes {
    if !LooksMultiplexed(b) then b
    else match Parse(b)
      case None => b
      case Some(frames) => Payloads(frames)
  }

  method StripDockerLogHeaders(logs: Bytes) returns (text: Bytes)
    ensures text == Decoded(logs)
  {
    if |logs| == 0 {
      return [];
    }
    if |logs| < HEADER {
      return logs;
    }
    var stream := logs[0];
    var isMultiplexed := (logs[1] == 0 && logs[2] == 0 && logs[3] == 0) && (stream == 0 || stream == 1 || stream == 2);
    if !isMultiplexed {
      return logs;
    }
    var ok, out := ReadFrames(logs);
    if !ok {
      return logs;
    }
    return out;
  }

  /* The loop: one frame a turn, stopping short when a size runs past the end. */
  method ReadFrames(logs: Bytes) returns (ok: bool, out: Bytes)
    ensures ok == Parse(logs).Some?
    ensures ok ==> out == Payloads(Parse(logs).value)
  {
    out := [];
    var pos := 0;
    ghost var whole, b := Parse(logs), logs;
    while |logs| - pos >= HEADER
      invariant 0 <= pos <= |logs| && b == logs[pos..]
      invariant Continues(whole, out, Parse(b))
      decreases |logs| - pos
    {
      var h := logs[pos..pos + 8];
      var sz := Uint32(h[4], h[5], h[6], h[7]);
      assert sz == SizeAt(b);
      pos := pos + 8;
      if |logs| - pos < sz {
        return false, [];
      }
      ghost var next := b[HEADER + sz..];
      assert logs[pos..pos + sz] == b[HEADER..HEADER + sz];
      ParseContinues(b);
      ContinuesTransitive(whole, out, Parse(b), logs[pos..pos + sz], Parse(next));
      out := out + logs[pos..pos + sz];
      pos := pos + sz;
      b := next;
    }
    ok := true;
  }

  /* Having written out, what is left to decode completes the whole, or fails with it. */
  ghost predicate Continues(whole: Option<seq<Frame>>, out: Bytes, left: Option<seq<Frame>>) {
    && (whole.None? <==> left.None?)
    && (whole.Some? ==> Payloads(whole.value) == out + Payloads(left.value))
  }

  lemma ContinuesTransitive(x: Option<seq<Frame>>, a: Bytes, y: Option<seq<Frame>>, b: Bytes, z: Option<seq<Frame>>)
    requires Continues(x, a, y) && Continues(y, b, z)
    ensures Continues(x, a + b, z)
  {
  }

  lemma ParseContinues(b: Bytes)
    requires |b| >= HEADER && |b| - HEADER >= SizeAt(b)
    ensures Continues(Parse(b), b[HEADER..HEADER + SizeAt(b)], Parse(b[HEADER + SizeAt(b)..]))
  {
    if Parse(b).Some? {
      assert Parse(b).value[1..] == Parse(b[HEADER + SizeAt(b)..]).value;
    }
  }

  // ---------- Round trips ----------

  lemma ParseStep(f: Frame, rest: Bytes, frames: seq<Frame>)
    requires WellFormed(f) && Parse(rest) == Some(frames)
    ensures Parse(Header(f) + (f.payload + rest)) == Some([f] + frames)
  {
    var h, n := Header(f), |f.payload|;
    var b := h + (f.payload + rest);
    assert b[4] == h[4] && b[5] == h[5] && b[6] == h[6] && b[7] == h[7];
    assert SizeAt(b) == n;
    assert b[HEADER..HEADER + n] == f.payload && b[HEADER + n..] == rest;
  }

  /* Reading what was written gives the frames back, whatever short remainder follows them. */
  lemma {:induction false} ParseOfEncode(frames: seq<Frame>, tail: Bytes)
    requires AllWellFormed(frames) && |tail| < HEADER
    ensures Parse(Encode(frames) + tail) == Some(frames)
  {
    if frames == [] {
      assert Encode(frames) + tail == tail;
    } else {
      var f, rest := frames[0], Encode(frames[1..]) + tail;
      ParseOfEncode(frames[1..], tail);
      assert Encode(frames) + tail == Header(f) + (f.payload + rest);
      ParseStep(f, rest, frames[1..]);
      assert frames == [f] + frames[1..];
    }
  }

  /* And reading succeeds only on bytes that were framed so. */
  lemma {:induction false} EncodeOfParse(b: Bytes) returns (tail: Bytes)
    requires Parse(b).Some?
    ensures AllWellFormed(Parse(b).value) && |tail| < HEADER
    ensures b == Encode(Parse(b).value) + tail
  {
    if |b| < HEADER {
      tail := b;
    } else {
      var n := SizeAt(b);
      tail := EncodeOfParse(b[HEADER + n..]);
      var frames := Parse(b).value;
      var f := frames[0];
      assert frames[1..] == Parse(b[HEADER + n..]).value;
      HeaderUnique(b[..HEADER], f);
      assert AllWellFormed(frames) by {
        assert forall i :: 0 < i < |frames| ==> frames[i] == frames[1..][i - 1];
      }
      calc {
        Encode(frames) + tail;
        Header(f) + (f.payload + Encode(frames[1..])) + tail;
        Header(f) + (f.payload + (Encode(frames[1..]) + tail));
        b[..HEADER] + (b[HEADER..HEADER + n] + b[HEADER + n..]);
        b;
      }
    }
  }

  /* Decoding a multiplexed stream yields exactly its payloads, in order. */
  lemma DecodedOfEncoded(frames: seq<Frame>)
    requires frames != [] && AllWellFormed(frames) && forall i :: 0 <= i < |frames| ==> Standard(frames[i])
    ensures Decoded(Encode(frames)) == Payloads(frames)
  {
    ParseOfEncode(frames, []);
    assert Encode(frames) + [] == Encode(frames);
    assert IsHeader(Header(frames[0]), frames[0]);
  }

  /* Bytes that look like a stream are decoded if and only if they are one: whole frames and less
     than a header. A byte string is framed in at most one way. */
  lemma DecodedIffFramed(b: Bytes, frames: seq<Frame>)
    requires LooksMultiplexed(b)
    ensures Parse(b) == Some(frames) <==>
              AllWellFormed(frames) && exists tail: Bytes :: |tail| < HEADER && b == Encode(frames) + tail
  {
    if Parse(b) == Some(frames) {
      var tail := EncodeOfParse(b);
    }
    if AllWellFormed(frames) && exists tail: Bytes :: |tail| < HEADER && b == Encode(frames) + tail {
      var tail: Bytes :| |tail| < HEADER && b == Encode(frames) + tail;
      ParseOfEncode(frames, tail);
    }
  }

  /* A stream starts with one of three stream numbers and three zero bytes. */
  ghost predicate StreamStart(b: Bytes) { |b| >= 8 && b[0] in {0, 1, 2} && b[1..4] == [0, 0, 0] }

  /* So what decoding yields is settled by the bytes: the payloads where they start and are framed as a stream,
     and the bytes themselves, unchanged, everywhere else. */
  lemma DecodedMeans(b: Bytes)
    ensures forall frames, tail: Bytes :: StreamStart(b) && FramedAs(b, frames, tail) ==> Decoded(b) == Payloads(frames)
    ensures !StreamStart(b) || (forall frames, tail: Bytes :: !FramedAs(b, frames, tail)) ==> Decoded(b) == b
  {
    assert StreamStart(b) <==> LooksMultiplexed(b) by {
      if |b| >= 8 { assert b[1..4] == [b[1], b[2], b[3]]; }
    }
    forall frames, tail: Bytes | FramedAs(b, frames, tail) ensures Parse(b) == Some(frames) {
      ParseOfEncode(frames, tail);
    }
    if Parse(b).Some? {
      var tail := EncodeOfParse(b);
      assert FramedAs(b, Parse(b).value, tail);
    }
  }

  /* Whole frames and less than a header after them. */
  ghost predicate FramedAs(b: Bytes, frames: seq<Frame>, tail: Bytes) {
    AllWellFormed(frames) && |tail| < 8 && b == Encode(frames) + tail
  }
}
