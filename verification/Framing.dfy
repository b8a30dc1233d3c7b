/** Length-prefixed frames on a byte pipe that delivers in chunks of any size. */
module Framing {
  import opened Prelude
  import opened Slices
  import opened Address
  import opened Varint

  const MAX_FRAME: nat := 0x100_0000

  /** A little-endian 32-bit length; larger numbers lose their upper bits. */
  function PutLength(n: nat): (b: Bytes)
    ensures |b| == 4
  {
    [n % 256, n / 0x100 % 256, n / 0x1_0000 % 256, n / 0x100_0000 % 256]
  }

  function GetLength(b: Bytes): nat
    requires |b| >= 4
  {
    b[0] as int + 0x100 * b[1] as int + 0x1_0000 * b[2] as int + 0x100_0000 * b[3] as int
  }

  function Wrap(body: Bytes): Bytes {
    PutLength(|body|) + body
  }

  // ---------- The pipe ----------

  /** A pipe from which the other end's bytes arrive in pieces nobody controls; it is closed once all have. */
  class Pipe {
    var coming: Bytes
    /** How much the next reads would deliver at most; everything when the list is used up. */
    var chunks: seq<nat>

    constructor (coming: Bytes, chunks: seq<nat>)
      ensures this.coming == coming && this.chunks == chunks
    {
      this.coming, this.chunks := coming, chunks;
    }

    /** At least one byte of at most `room`, or none when the pipe is closed. */
    method Read(room: nat) returns (got: Bytes)
      requires room > 0
      modifies this
      ensures got <= old(coming) && |got| <= room && coming == old(coming)[|got|..]
      ensures got == [] <==> old(coming) == []
    {
      var n := if |coming| < room then |coming| else room;
      if chunks != [] {
        if 0 < chunks[0] < n {
          n := chunks[0];
        }
        chunks := chunks[1..];
      }
      got := coming[..n];
      coming := coming[n..];
    }

    /** Fills a buffer however the bytes arrive; `None` when the pipe closes first. */
    method ReadExact(size: nat) returns (buf: Option<Bytes>)
      modifies this
      ensures |old(coming)| >= size ==> buf == Some(old(coming)[..size]) && coming == old(coming)[size..]
      ensures |old(coming)| < size ==> buf == None && coming == []
    {
      var read: Bytes := [];
      while |read| < size
        invariant |read| <= size && |read| <= |old(coming)|
        invariant read == old(coming)[..|read|] && coming == old(coming)[|read|..]
        decreases size - |read|
      {
        var got := Read(size - |read|);
        if got == [] {
          return None;
        }
        read := read + got;
      }
      buf := Some(read);
    }

    method ReadFrame() returns (frame: Option<Bytes>)
      modifies this
      ensures match NextFrame(old(coming))
              case None => frame == None
              case Some(body) => frame == Some(body) && coming == old(coming)[4 + |body|..]
    {
      var prefix := ReadExact(4);
      if prefix.None? {
        return None;
      }
      var size := GetLength(prefix.value);
      if size == 0 || size > MAX_FRAME {
        return None;
      }
      assert coming == old(coming)[4..] && size == GetLength(old(coming));
      assert |coming| >= size ==> old(coming)[4..][..size] == old(coming)[4..4 + size];
      assert |coming| >= size ==> old(coming)[4..][size..] == old(coming)[4 + size..];
      frame := ReadExact(size);
    }

    /** The receive loop: frames until one is invalid or the pipe closes. */
    method ReceiveAll() returns (frames: seq<Bytes>)
      modifies this
      ensures frames == Frames(old(coming))
    {
      hide NextFrame;
      frames := [];
      assert [] + Frames(coming) == Frames(coming);
      while true
        invariant frames + Frames(coming) == Frames(old(coming))
        decreases |coming|
      {
        ghost var before := coming;
        FrameIsSmaller(before);
        var frame := ReadFrame();
        if frame.None? {
          assert frames + Frames(before) == frames;
          return;
        }
        frames := frames + [frame.value];
      }
    }
  }

  // ---------- What is received ----------

  /** The first frame of a byte stream: 1 to 16 MiB, completely there. */
  function NextFrame(stream: Bytes): (r: Option<Bytes>) {
    if |stream| < 4 then None
    else
      var size := GetLength(stream);
      if size == 0 || size > MAX_FRAME || |stream| < 4 + size then None else Some(stream[4..4 + size])
  }

  lemma FrameIsSmaller(stream: Bytes)
    ensures NextFrame(stream).Some? ==> 4 + |NextFrame(stream).value| <= |stream|
  {
  }

  function Frames(stream: Bytes): seq<Bytes>
    decreases |stream|
  {
    FrameIsSmaller(stream);
    match NextFrame(stream)
    case None => []
    case Some(body) => [body] + Frames(stream[4 + |body|..])
  }

  // ---------- What was sent arrives ----------

  function Stream(bodies: seq<Bytes>): Bytes {
    if bodies == [] then [] else Wrap(bodies[0]) + Stream(bodies[1..])
  }

  predicate Carried(body: Bytes) {
    1 <= |body| <= 16 * 1024 * 1024
  }

  /** The bodies before the first that no frame can carry. */
  function UpToFirstBad(bodies: seq<Bytes>): seq<Bytes> {
    if bodies == [] || !Carried(bodies[0]) then [] else [bodies[0]] + UpToFirstBad(bodies[1..])
  }

  lemma LengthReadsBack(body: Bytes, rest: Bytes)
    requires |body| < 0x1_0000_0000
    ensures GetLength(Wrap(body) + rest) == |body|
  {
    var n := |body|;
    var q1, q2, q3 := n / 0x100, n / 0x1_0000, n / 0x100_0000;
    assert n == 0x100 * q1 + n % 0x100;
    assert q1 == 0x100 * q2 + q1 % 0x100;
    assert q2 == 0x100 * q3 + q2 % 0x100;
    assert q3 < 0x100;
    var w := Wrap(body) + rest;
    assert w[0] == n % 0x100 && w[1] == q1 % 0x100 && w[2] == q2 % 0x100 && w[3] == q3 % 0x100;
  }

  /** Exactly the frames sent arrive, up to the first whose size is out of range. */
  lemma {:induction false} FramesOfStream(bodies: seq<Bytes>)
    requires forall i | 0 <= i < |bodies| :: |bodies[i]| < 0x1_0000_0000
    ensures Frames(Stream(bodies)) == UpToFirstBad(bodies)
    decreases |bodies|
  {
    hide GetLength, PutLength;
    if bodies != [] {
      var s, rest := Stream(bodies), Stream(bodies[1..]);
      LengthReadsBack(bodies[0], rest);
      assert s[4..4 + |bodies[0]|] == bodies[0] && s[4 + |bodies[0]|..] == rest;
      FramesOfStream(bodies[1..]);
    }
  }

  lemma {:induction false} AllCarried(bodies: seq<Bytes>)
    ensures UpToFirstBad(bodies) == bodies <==> forall i | 0 <= i < |bodies| :: Carried(bodies[i])
    decreases |bodies|
  {
    if bodies != [] {
      AllCarried(bodies[1..]);
      assert bodies == [bodies[0]] + bodies[1..];
      assert Carried(bodies[0]) ==> UpToFirstBad(bodies)[1..] == UpToFirstBad(bodies[1..]);
      assert forall i | 0 < i < |bodies| :: bodies[i] == bodies[1..][i - 1];
    }
  }

  /** However the bytes are chunked, the receiver gets the same list of frames that was sent, if and only
      if each is of 1 byte to 16 MiB. */
  lemma FramesRoundTrip(bodies: seq<Bytes>)
    requires forall i | 0 <= i < |bodies| :: |bodies[i]| < 0x1_0000_0000
    ensures Frames(Stream(bodies)) == bodies <==> forall i | 0 <= i < |bodies| :: Carried(bodies[i])
  {
    FramesOfStream(bodies);
    AllCarried(bodies);
  }
}
