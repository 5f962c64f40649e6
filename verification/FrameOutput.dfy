/**
 cmds/screenrecord/FrameOutput.cpp: RGBA pixels are reduced to RGB in place and written to a
 stream, each frame behind a header that starts with the length of what follows.
 */
module FrameOutput {
  import opened Arithmetic
  import opened Wrappers

  const HEADER_BYTES := 20
  const FORMAT_RGB_888 := 3

  // ----- Pixels -----

  /** The first three bytes of every pixel. */
  function Rgb(rgba: seq<Byte>, n: nat): (r: seq<Byte>)
    requires 4 * n <= |rgba|
    ensures |r| == 3 * n
  {
    if n == 0 then []
    else Rgb(rgba, n - 1) + [rgba[4 * n - 4], rgba[4 * n - 3], rgba[4 * n - 2]]
  }

  lemma {:induction false} RgbAt(rgba: seq<Byte>, n: nat, p: nat, c: nat)
    requires 4 * n <= |rgba| && p < n && c < 3
    ensures Rgb(rgba, n)[3 * p + c] == rgba[4 * p + c]
  {
    if p < n - 1 {
      RgbAt(rgba, n - 1, p, c);
    }
  }

  /** reduceRgbaToRgb: the writing position never overtakes the reading position, so every pixel
      keeps its first three bytes although both run over the same buffer. */
  method ReduceRgbaToRgb(buf: array<Byte>, pixelCount: nat)
    requires 4 * pixelCount <= buf.Length
    modifies buf
    ensures buf[..3 * pixelCount] == Rgb(old(buf[..]), pixelCount)
    ensures forall k :: 3 * pixelCount <= k < buf.Length ==> buf[k] == old(buf[k])
  {
    var write, read := 0, 0;
    ghost var was := buf[..];
    for i := 0 to pixelCount
      invariant write == 3 * i && read == 4 * i
      invariant Reduced(was, buf[..], i)
    {
      ghost var before := buf[..];
      CopyPixel(buf, write, read);
      OnePixelMore(was, before, buf[..], i);
      write := write + 3;
      read := read + 4;
    }
  }

  /** The first `i` pixels of the buffer are reduced, the bytes behind them are as they were. */
  ghost predicate Reduced(was: seq<Byte>, now: seq<Byte>, i: nat) {
    && |now| == |was| && 4 * i <= |was|
    && now[..3 * i] == Rgb(was, i)
    && forall k :: 3 * i <= k < |was| ==> now[k] == was[k]
  }

  ghost predicate Copied(before: seq<Byte>, after: seq<Byte>, write: nat, read: nat) {
    && write <= read && read + 4 <= |before| && |after| == |before|
    && after[write] == before[read]
    && after[write + 1] == before[read + 1]
    && after[write + 2] == before[read + 2]
    && forall k :: 0 <= k < write || write + 3 <= k < |before| ==> after[k] == before[k]
  }

  /** The three copies for one pixel: none of them reads what another one wrote. */
  method CopyPixel(buf: array<Byte>, write: nat, read: nat)
    requires write <= read && read + 4 <= buf.Length
    modifies buf
    ensures Copied(old(buf[..]), buf[..], write, read)
  {
    buf[write] := buf[read];
    buf[write + 1] := buf[read + 1];
    buf[write + 2] := buf[read + 2];
  }

  lemma OnePixelMore(was: seq<Byte>, before: seq<Byte>, after: seq<Byte>, i: nat)
    requires Reduced(was, before, i) && Copied(before, after, 3 * i, 4 * i)
    ensures Reduced(was, after, i + 1)
  {
    PrefixAndThree(before, after, 3 * i);
    assert after[..3 * i + 3] == Rgb(was, i) + [was[4 * i], was[4 * i + 1], was[4 * i + 2]];
  }

  lemma PrefixAndThree(before: seq<Byte>, after: seq<Byte>, w: nat)
    requires w + 3 <= |after| == |before|
    requires forall k :: 0 <= k < w ==> after[k] == before[k]
    ensures after[..w + 3] == before[..w] + [after[w], after[w + 1], after[w + 2]]
  {
  }

  // ----- Little-endian words -----

  /** setValueLE, for a value that is first cut to 32 bits. */
  function LittleEndian(value: nat): (r: seq<Byte>)
    ensures |r| == 4
  {
    var v := value % WORD;
    [v % 256, v / 256 % 256, v / 65536 % 256, v / 16777216 % 256]
  }

  function Word(b0: nat, b1: nat, b2: nat, b3: nat): nat {
    b0 + 256 * b1 + 65536 * b2 + 16777216 * b3
  }

  function Decode(w: seq<Byte>): nat
    requires |w| == 4
  {
    Word(w[0], w[1], w[2], w[3])
  }

  function WordAt(s: seq<Byte>, i: nat): nat
    requires i + 4 <= |s|
  {
    Decode(s[i..i + 4])
  }

  /** Decoding gives back the value if it is a 32-bit one, and its low 32 bits otherwise. */
  lemma LittleEndianRoundTrip(value: nat)
    ensures Decode(LittleEndian(value)) == value % WORD
  {
    BytesOf(value % WORD);
  }

  lemma LowByte(v: nat)
    ensures v == v % 256 + 256 * (v / 256)
  {
  }

  lemma ByteByByte(v: nat)
    ensures v / 65536 == v / 256 / 256 && v / 16777216 == v / 65536 / 256
  {
  }

  lemma HighByte(v: nat)
    requires v < WORD
    ensures v / 16777216 % 256 == v / 16777216
  {
  }

  lemma WordOf(v: nat, q1: nat, q2: nat, q3: nat)
    requires v == v % 256 + 256 * q1 && q1 == q1 % 256 + 256 * q2 && q2 == q2 % 256 + 256 * q3
    ensures Word(v % 256, q1 % 256, q2 % 256, q3) == v
  {
    var b0, b1, b2 := v % 256, q1 % 256, q2 % 256;
    assert v == b0 + 256 * (b1 + 256 * (b2 + 256 * q3));
  }

  lemma BytesOf(v: nat)
    requires v < WORD
    ensures Word(v % 256, v / 256 % 256, v / 65536 % 256, v / 16777216 % 256) == v
  {
    var q1, q2, q3 := v / 256, v / 65536, v / 16777216;
    ByteByByte(v);
    HighByte(v);
    LowByte(v);
    LowByte(q1);
    LowByte(q2);
    WordOf(v, q1, q2, q3);
  }

  lemma Below(value: nat)
    ensures value % WORD < WORD && (value < WORD ==> value % WORD == value)
  {
  }

  lemma WordIs(s: seq<Byte>, i: nat, value: nat)
    requires i + 4 <= |s| && s[i..i + 4] == LittleEndian(value)
    ensures WordAt(s, i) < WORD && (value < WORD ==> WordAt(s, i) == value)
  {
    LittleEndianRoundTrip(value);
    Below(value);
  }

  // ----- Packets -----

  datatype Frame = Frame(width: nat, height: nat, rgb: seq<Byte>)

  /** The size, and the stride made from it, are 32-bit numbers. */
  predicate FrameOk(f: Frame) {
    f.width * 3 < WORD && f.height < WORD
  }

  /** The header: the length of the rest of the packet, the size, the stride and the format. */
  function Header(f: Frame): (h: seq<Byte>)
    ensures |h| == HEADER_BYTES
  {
    LittleEndian(HEADER_BYTES - 4 + |f.rgb|) + LittleEndian(f.width) + LittleEndian(f.height)
    + LittleEndian(f.width * 3) + LittleEndian(FORMAT_RGB_888)
  }

  function Packet(f: Frame): seq<Byte> {
    Header(f) + f.rgb
  }

  function Stream(fs: seq<Frame>): seq<Byte> {
    if fs == [] then [] else Packet(fs[0]) + Stream(fs[1..])
  }

  /** A reader of the stream: take the length, then that many bytes. */
  function ReadPacket(s: seq<Byte>): (r: Option<(Frame, seq<Byte>)>)
    ensures r.Some? ==> |r.value.1| < |s|
  {
    if |s| < HEADER_BYTES then None
    else
      var end := 4 + WordAt(s, 0);
      if end < HEADER_BYTES || |s| < end then None
      else Some((Frame(WordAt(s, 4), WordAt(s, 8), s[HEADER_BYTES..end]), s[end..]))
  }

  /** All frames of a stream; None if it does not end with a whole packet. */
  function ReadAll(s: seq<Byte>): Option<seq<Frame>>
    decreases |s|
  {
    if s == [] then Some([])
    else
      var p := ReadPacket(s);
      if p.None? then None
      else
        var rest := ReadAll(p.value.1);
        if rest.None? then None else Some([p.value.0] + rest.value)
  }

  lemma HeaderSlices(f: Frame, rest: seq<Byte>)
    ensures var s := Header(f) + rest;
            && s[0..4] == LittleEndian(16 + |f.rgb|)
            && s[4..8] == LittleEndian(f.width)
            && s[8..12] == LittleEndian(f.height)
            && s[12..16] == LittleEndian(f.width * 3)
            && s[16..20] == LittleEndian(FORMAT_RGB_888)
  {
  }

  /** The words of a header, in the order in which a reader of the stream expects them. */
  lemma HeaderWords(f: Frame, rest: seq<Byte>)
    requires FrameOk(f)
    ensures var s := Header(f) + rest;
            && WordAt(s, 4) == f.width && WordAt(s, 8) == f.height
            && WordAt(s, 12) == 3 * f.width && WordAt(s, 16) == FORMAT_RGB_888
            && WordAt(s, 0) < WORD && (16 + |f.rgb| < WORD ==> WordAt(s, 0) == 16 + |f.rgb|)
  {
    var s := Header(f) + rest;
    HeaderSlices(f, rest);
    WordIs(s, 0, 16 + |f.rgb|);
    WordIs(s, 4, f.width);
    WordIs(s, 8, f.height);
    WordIs(s, 12, f.width * 3);
    WordIs(s, 16, FORMAT_RGB_888);
  }

  /** What comes out of a packet is as long as its length field says. */
  lemma ReadLength(s: seq<Byte>)
    requires ReadPacket(s).Some?
    ensures |ReadPacket(s).value.0.rgb| + 16 == WordAt(s, 0)
  {
  }

  /** What the reader makes of a string with the right words and slices. */
  lemma ReadPacketIs(s: seq<Byte>, f: Frame, rest: seq<Byte>)
    requires |s| == HEADER_BYTES + |f.rgb| + |rest|
    requires WordAt(s, 0) == 16 + |f.rgb| && WordAt(s, 4) == f.width && WordAt(s, 8) == f.height
    requires s[HEADER_BYTES..HEADER_BYTES + |f.rgb|] == f.rgb && s[HEADER_BYTES + |f.rgb|..] == rest
    ensures ReadPacket(s) == Some((f, rest))
  {
  }

  lemma PacketWords(f: Frame, rest: seq<Byte>)
    requires FrameOk(f)
    ensures var s := Packet(f) + rest;
            && |s| == HEADER_BYTES + |f.rgb| + |rest|
            && WordAt(s, 4) == f.width && WordAt(s, 8) == f.height
            && WordAt(s, 0) < WORD && (16 + |f.rgb| < WORD ==> WordAt(s, 0) == 16 + |f.rgb|)
  {
    assert Packet(f) + rest == Header(f) + (f.rgb + rest);
    HeaderWords(f, f.rgb + rest);
  }

  lemma PacketFits(f: Frame, rest: seq<Byte>)
    requires FrameOk(f) && 16 + |f.rgb| < WORD
    ensures ReadPacket(Packet(f) + rest) == Some((f, rest))
  {
    PacketWords(f, rest);
    PacketSlices(f, rest);
    ReadPacketIs(Packet(f) + rest, f, rest);
  }

  lemma PacketTooLong(f: Frame, rest: seq<Byte>)
    requires FrameOk(f) && 16 + |f.rgb| >= WORD
    ensures ReadPacket(Packet(f) + rest) != Some((f, rest))
  {
    var s := Packet(f) + rest;
    PacketWords(f, rest);
    if ReadPacket(s).Some? {
      ReadLength(s);
    }
  }

  /** A packet is read back exactly if its length fits the length field. */
  lemma PacketRoundTripExactly(f: Frame, rest: seq<Byte>)
    requires FrameOk(f)
    ensures ReadPacket(Packet(f) + rest) == Some((f, rest)) <==> 16 + |f.rgb| < WORD
  {
    if 16 + |f.rgb| < WORD {
      PacketFits(f, rest);
    } else {
      PacketTooLong(f, rest);
    }
  }

  lemma PacketSlices(f: Frame, rest: seq<Byte>)
    ensures var s, end := Packet(f) + rest, HEADER_BYTES + |f.rgb|;
            s[HEADER_BYTES..end] == f.rgb && s[end..] == rest
  {
  }

  /** Every stream of framed packets can be taken apart in one way only. */
  lemma {:induction false} StreamRoundTrip(fs: seq<Frame>)
    requires forall i :: 0 <= i < |fs| ==> FrameOk(fs[i]) && 16 + |fs[i].rgb| < WORD
    ensures ReadAll(Stream(fs)) == Some(fs)
  {
    if fs != [] {
      PacketRoundTripExactly(fs[0], Stream(fs[1..]));
      StreamRoundTrip(fs[1..]);
      assert fs == [fs[0]] + fs[1..];
    }
  }

  lemma {:induction false} StreamAppend(fs: seq<Frame>, f: Frame)
    ensures Stream(fs + [f]) == Stream(fs) + Packet(f)
  {
    if fs == [] {
      assert fs + [f] == [f] && [f][1..] == [];
    } else {
      assert (fs + [f])[1..] == fs[1..] + [f];
      StreamAppend(fs[1..], f);
    }
  }

  /** Raw frames follow each other without headers. */
  function RawStream(fs: seq<Frame>): seq<Byte> {
    if fs == [] then [] else RawStream(fs[..|fs| - 1]) + fs[|fs| - 1].rgb
  }

  /** What a recording of some frames puts into the file. */
  function Recording(raw: bool, fs: seq<Frame>): seq<Byte> {
    if raw then RawStream(fs) else Stream(fs)
  }

  lemma RecordingAppend(raw: bool, fs: seq<Frame>, f: Frame)
    ensures Recording(raw, fs + [f]) == Recording(raw, fs) + if raw then f.rgb else Packet(f)
  {
    StreamAppend(fs, f);
    assert (fs + [f])[..|fs|] == fs;
  }

  lemma {:induction false} RawLength(fs: seq<Frame>, n: nat)
    requires forall i :: 0 <= i < |fs| ==> |fs[i].rgb| == n
    ensures |RawStream(fs)| == n * |fs|
  {
    if fs != [] {
      RawLength(fs[..|fs| - 1], n);
      assert n * |fs| == n * (|fs| - 1) + n;
    }
  }

  /** Frame `k` of raw frames of one size is at its place in the stream. */
  lemma {:induction false} RawFrameAt(fs: seq<Frame>, n: nat, k: nat)
    requires k < |fs| && forall i :: 0 <= i < |fs| ==> |fs[i].rgb| == n
    ensures |RawStream(fs)| == n * |fs| && n * k <= n * (k + 1) <= n * |fs|
    ensures RawStream(fs)[n * k..n * (k + 1)] == fs[k].rgb
  {
    var front := fs[..|fs| - 1];
    RawLength(fs, n);
    RawLength(front, n);
    assert n * (k + 1) == n * k + n;
    if k == |fs| - 1 {
      assert RawStream(fs) == RawStream(front) + fs[k].rgb;
    } else {
      RawFrameAt(front, n, k);
      assert RawStream(fs)[..|RawStream(front)|] == RawStream(front);
      assert RawStream(fs)[n * k..n * (k + 1)] == RawStream(front)[n * k..n * (k + 1)];
    }
  }

  lemma SliceOfPrefix(s: seq<Byte>, p: seq<Byte>, i: nat, j: nat)
    requires p <= s && i <= j <= |p|
    ensures s[i..j] == p[i..j]
  {
  }

  // ----- The code -----

  datatype Wait = Signalled(frame: bool) | TimedOut | Failed

  datatype Status = Done | Timeout | Error

  /** What the file takes of a header and of pixels, unless it takes all. */
  datatype Cut = Cut(header: nat, pixels: nat)

  function Taken(bytes: seq<Byte>, n: nat): seq<Byte> {
    bytes[..if n < |bytes| then n else |bytes|]
  }

  class FrameCopier {
    var frameAvailable: bool
    var file: seq<Byte>            // everything written so far
    var failed: bool               // the error flag of the stream, which stays set
    ghost var frames: seq<Frame>   // the frames copied before the first failing write
    const rawFrames: bool
    const pixels: array<Byte>
    const width: nat
    const height: nat
    const count: nat               // number of pixels

    ghost predicate Valid()
      reads this
    {
      && 4 * count <= pixels.Length
      && Recording(rawFrames, frames) <= file
      && (!failed ==> file == Recording(rawFrames, frames))
      && forall i :: 0 <= i < |frames| ==>
           frames[i].width == width && frames[i].height == height && |frames[i].rgb| == 3 * count
    }

    constructor (width: nat, height: nat, rawFrames: bool)
      ensures Valid() && fresh(pixels) && !frameAvailable && frames == [] && !failed
      ensures this.width == width && this.height == height && this.rawFrames == rawFrames && count == width * height
    {
      frameAvailable, file, failed, frames := false, [], false, [];
      this.width, this.height, this.rawFrames := width, height, rawFrames;
      this.count := width * height;
      pixels := new Byte[4 * (width * height)](i => 0);
    }

    /** At any time of a recording with headers, the file begins with bytes that are taken apart
        into exactly the frames copied before the first failing write; without one, these are
        all bytes.  A packet's length has to fit 32 bits. */
    lemma FileReadsBack()
      requires Valid() && !rawFrames
      requires width * 3 < WORD && height < WORD && 16 + 3 * count < WORD
      ensures Stream(frames) <= file && ReadAll(Stream(frames)) == Some(frames)
      ensures !failed ==> ReadAll(file) == Some(frames)
    {
      StreamRoundTrip(frames);
    }

    /** The file of raw frames has nothing but their pixels, each frame at its place. */
    lemma RawFile(k: nat, n: nat)
      requires Valid() && rawFrames && k < |frames| && n == 3 * count
      ensures n * |frames| <= |file| && n * (k + 1) <= n * |frames| && n * k <= n * (k + 1)
      ensures file[n * k..n * (k + 1)] == frames[k].rgb
      ensures !failed ==> |file| == n * |frames|
    {
      RawFrameAt(frames, n, k);
      SliceOfPrefix(file, RawStream(frames), n * k, n * (k + 1));
    }

    method OnFrameAvailable()
      requires Valid()
      modifies this`frameAvailable
      ensures Valid() && frameAvailable
    {
      frameAvailable := true;
    }

    method SetValueLE(buf: array<Byte>, at: nat, value: nat)
      requires at + 4 <= buf.Length
      modifies buf
      ensures buf[..] == old(buf[..at]) + LittleEndian(value) + old(buf[at + 4..])
    {
      var v := value % WORD;
      buf[at] := v % 256;
      buf[at + 1] := v / 256 % 256;
      buf[at + 2] := v / 65536 % 256;
      buf[at + 3] := v / 16777216 % 256;
      assert buf[..] == buf[..at] + buf[at..at + 4] + buf[at + 4..];
    }

    /** The five words of the header, stored one after the other. */
    method FillHeader(f: Frame) returns (h: seq<Byte>)
      ensures h == Header(f)
    {
      var header := new Byte[HEADER_BYTES](i => 0);
      SetValueLE(header, 0, HEADER_BYTES - 4 + |f.rgb|);
      ghost var h1 := header[..4];
      SetValueLE(header, 4, f.width);
      assert header[..8] == h1 + LittleEndian(f.width);
      ghost var h2 := header[..8];
      SetValueLE(header, 8, f.height);
      assert header[..12] == h2 + LittleEndian(f.height);
      ghost var h3 := header[..12];
      SetValueLE(header, 12, f.width * 3);
      assert header[..16] == h3 + LittleEndian(f.width * 3);
      ghost var h4 := header[..16];
      SetValueLE(header, 16, FORMAT_RGB_888);
      assert header[..] == h4 + LittleEndian(FORMAT_RGB_888);
      h := header[..];
    }

    /** glReadPixels into the pixel buffer and the reduction there. */
    method ReadRgb(gl: seq<Byte>) returns (rgb: seq<Byte>)
      requires 4 * count <= pixels.Length && |gl| == 4 * count
      modifies pixels
      ensures rgb == Rgb(gl, count)
    {
      var n := count;
      forall i | 0 <= i < 4 * n {
        pixels[i] := gl[i];
      }
      assert pixels[..4 * n] == gl;
      ghost var was := pixels[..];
      ReduceRgbaToRgb(pixels, n);
      RgbPrefix(was, gl, n);
      rgb := pixels[..3 * n];
    }

    /** copyFrame: `gl` are the pixels OpenGL delivers, None if one of its calls fails; `cut` is
        what the file takes if it does not take all.  The flag is consumed; a frame is copied
        exactly if the flag was set, there are pixels and no write has failed. */
    method CopyFrame(wait: Wait, gl: Option<seq<Byte>>, cut: Option<Cut>) returns (status: Status)
      requires Valid() && (gl.Some? ==> |gl.value| == 4 * count)
      modifies this, pixels
      ensures Valid() && !frameAvailable && old(file) <= file
      ensures var ready := old(frameAvailable) || wait == Signalled(true);
              && failed == (old(failed) || (ready && gl.Some? && cut.Some?))
              && (status == Done <==> ready && gl.Some? && !failed)
              && (status == Timeout <==> !ready && !wait.Failed?)
              && frames == if ready && gl.Some? && !failed
                           then old(frames) + [Frame(width, height, Rgb(gl.value, count))]
                           else old(frames)
    {
      if !frameAvailable {
        match wait {
          case TimedOut => return Timeout;
          case Failed => return Error;
          case Signalled(frame) => frameAvailable := frame;
        }
      }
      if !frameAvailable {
        return Timeout;
      }
      frameAvailable := false;
      if gl.None? {
        return Error;
      }
      var rgb := ReadRgb(gl.value);
      WriteFrame(rgb, cut);
      return if failed then Error else Done;
    }

    /** The header of a frame; none if frames are raw. */
    method FrameHeader(rgb: seq<Byte>) returns (h: seq<Byte>)
      ensures h == if rawFrames then [] else Header(Frame(width, height, rgb))
    {
      h := [];
      if !rawFrames {
        h := FillHeader(Frame(width, height, rgb));
      }
    }

    /** The two writes of a frame. */
    method WriteFrame(rgb: seq<Byte>, cut: Option<Cut>)
      requires Valid() && |rgb| == 3 * count
      modifies this`file, this`frames, this`failed
      ensures Valid() && old(file) <= file && failed == (old(failed) || cut.Some?)
      ensures frames == if failed then old(frames) else old(frames) + [Frame(width, height, rgb)]
      ensures var header := if rawFrames then [] else Header(Frame(width, height, rgb));
              file == if cut.None? then old(file) + header + rgb
                      else old(file) + Taken(header, cut.value.header) + Taken(rgb, cut.value.pixels)
    {
      var header := FrameHeader(rgb);
      RecordingAppend(rawFrames, frames, Frame(width, height, rgb));
      if cut.Some? {
        failed := true;
        file := file + Taken(header, cut.value.header);
        file := file + Taken(rgb, cut.value.pixels);
      } else {
        assert file + (header + rgb) == file + header + rgb;
        file := file + header;
        file := file + rgb;
      }
      if !failed {
        frames := frames + [Frame(width, height, rgb)];
      }
    }
  }

  lemma {:induction false} RgbPrefix(a: seq<Byte>, b: seq<Byte>, n: nat)
    requires 4 * n <= |a| && 4 * n <= |b| && a[..4 * n] == b[..4 * n]
    ensures Rgb(a, n) == Rgb(b, n)
  {
    if n > 0 {
      assert forall k :: 0 <= k < 4 * n ==> a[k] == a[..4 * n][k] && b[k] == b[..4 * n][k];
      assert a[..4 * (n - 1)] == b[..4 * (n - 1)];
      RgbPrefix(a, b, n - 1);
    }
  }
}
