/** The two readers of a PS2's TCP stream: the FinScanner of pkg/proto/fin.go and the read loop of
    pkg/battle/tcp_peer.go. After the join the stream is frames, each starting with its size. */
module Framing {
  import opened Bytes

  const JOIN_SIZE := 22
  const FIN: seq<byte> := [4, 0xF0, 0, 0]

  // ---- One parser ---------------------------------------------------------------------------

  /** A stream cut into frames: the whole ones, what follows, and whether that starts with size 0. */
  datatype Cut = Cut(frames: seq<seq<byte>>, rest: seq<byte>, lost: bool)

  function Frames(stream: seq<byte>): (c: Cut)
    decreases |stream|
  {
    if stream == [] then Cut([], [], false)
    else if stream[0] == 0 then Cut([], stream, true)
    else if |stream| < stream[0] as nat then Cut([], stream, false)
    else
      var more := Frames(stream[stream[0] as nat..]);
      Cut([stream[..stream[0] as nat]] + more.frames, more.rest, more.lost)
  }

  lemma {:induction false} JoinedConcat(a: seq<seq<byte>>, b: seq<seq<byte>>)
    ensures Joined(a + b) == Joined(a) + Joined(b)
  {
    if a == [] {
      assert a + b == b;
    } else {
      assert (a + b)[1..] == a[1..] + b;
      JoinedConcat(a[1..], b);
    }
  }

  lemma JoinedSnoc(parts: seq<seq<byte>>, f: seq<byte>)
    ensures Joined(parts + [f]) == Joined(parts) + f
  {
    JoinedConcat(parts, [f]);
    assert Joined([f]) == f + Joined([f][1..]) == f;
  }

  predicate IsFrame(f: seq<byte>) {
    |f| > 0 && f[0] as nat == |f|
  }

  /** The beginning of a frame, or nothing. */
  predicate IsPartial(f: seq<byte>) {
    f == [] || |f| < f[0] as nat
  }

  lemma FirstFrame(f: seq<byte>, others: seq<byte>, more: Cut)
    requires Joined(more.frames) + more.rest == others
    ensures Joined([f] + more.frames) + more.rest == f + others
  {
    assert ([f] + more.frames)[1..] == more.frames;
    assert f + (Joined(more.frames) + more.rest) == (f + Joined(more.frames)) + more.rest;
  }

  lemma {:induction false} FramesJoin(stream: seq<byte>)
    ensures Joined(Frames(stream).frames) + Frames(stream).rest == stream
    decreases |stream|
  {
    if stream != [] && stream[0] != 0 && |stream| >= stream[0] as nat {
      var n := stream[0] as nat;
      FramesJoin(stream[n..]);
      FirstFrame(stream[..n], stream[n..], Frames(stream[n..]));
    }
  }

  lemma {:induction false} FramesAreFrames(stream: seq<byte>)
    ensures forall f :: f in Frames(stream).frames ==> IsFrame(f)
    decreases |stream|
  {
    if stream != [] && stream[0] != 0 && |stream| >= stream[0] as nat {
      FramesAreFrames(stream[stream[0] as nat..]);
    }
  }

  lemma {:induction false} RestIsPartial(stream: seq<byte>)
    ensures var c := Frames(stream); if c.lost then c.rest != [] && c.rest[0] == 0 else IsPartial(c.rest)
    decreases |stream|
  {
    if stream != [] && stream[0] != 0 && |stream| >= stream[0] as nat {
      RestIsPartial(stream[stream[0] as nat..]);
    }
  }

  /** The cut is right: frames and rest are the stream, and the rest starts no whole frame. */
  lemma FramesAreRight(stream: seq<byte>)
    ensures var c := Frames(stream);
            && Joined(c.frames) + c.rest == stream
            && (forall f :: f in c.frames ==> IsFrame(f))
            && (if c.lost then c.rest != [] && c.rest[0] == 0 else IsPartial(c.rest))
  {
    FramesJoin(stream);
    FramesAreFrames(stream);
    RestIsPartial(stream);
  }

  /** It is the only one. */
  lemma {:induction false} FramesAreUnique(stream: seq<byte>, frames: seq<seq<byte>>, rest: seq<byte>)
    requires Joined(frames) + rest == stream && IsPartial(rest)
    requires forall f :: f in frames ==> IsFrame(f)
    ensures Frames(stream) == Cut(frames, rest, false)
    decreases |frames|
  {
    if frames == [] {
      assert stream == rest;
    } else {
      var f := frames[0];
      assert f in frames;
      assert stream == f + (Joined(frames[1..]) + rest);
      FramesAreUnique(Joined(frames[1..]) + rest, frames[1..], rest);
      assert stream[..|f|] == f && stream[|f|..] == Joined(frames[1..]) + rest;
      assert [f] + frames[1..] == frames;
    }
  }

  /** Cutting can be continued from what was left. */
  lemma {:induction false} FramesContinue(a: seq<byte>, b: seq<byte>)
    requires !Frames(a).lost
    ensures Frames(a + b) == Behind(Frames(a).frames, Frames(Frames(a).rest + b))
    decreases |a|
  {
    if IsPartial(a) {
      assert Frames(a) == Cut([], a, false);
      assert [] + Frames(a + b).frames == Frames(a + b).frames;
    } else {
      var (f, t) := (a[..a[0] as nat], a[a[0] as nat..]);
      assert a == f + t;
      CutFirst(f, t);
      FramesContinue(t, b);
      ContinuesBehind(f, t, b);
    }
  }

  lemma ContinuesBehind(f: seq<byte>, t: seq<byte>, b: seq<byte>)
    requires IsFrame(f) && Frames(t + b) == Behind(Frames(t).frames, Frames(Frames(t).rest + b))
    ensures Frames(f + t + b) == Behind(Frames(f + t).frames, Frames(Frames(f + t).rest + b))
  {
    CutFirst(f, t);
    CutFirstOfThree(f, t, b);
    BehindTwice([f], Frames(t).frames, Frames(Frames(t).rest + b));
  }

  lemma CutFirstOfThree(f: seq<byte>, t: seq<byte>, b: seq<byte>)
    requires IsFrame(f)
    ensures Frames(f + t + b) == Behind([f], Frames(t + b))
  {
    assert f + t + b == f + (t + b);
    CutFirst(f, t + b);
  }

  lemma CutFirst(f: seq<byte>, t: seq<byte>)
    requires IsFrame(f)
    ensures Frames(f + t) == Behind([f], Frames(t))
  {
    assert (f + t)[..|f|] == f && (f + t)[|f|..] == t;
  }

  lemma BehindTwice(a: seq<seq<byte>>, b: seq<seq<byte>>, c: Cut)
    ensures Behind(a, Behind(b, c)) == Behind(a + b, c)
  {
    assert a + (b + c.frames) == (a + b) + c.frames;
  }

  /** The cut with frames put before it. */
  function Behind(frames: seq<seq<byte>>, c: Cut): Cut {
    Cut(frames + c.frames, c.rest, c.lost)
  }

  lemma ZeroFrame(s: seq<byte>)
    requires s != [] && s[0] == 0
    ensures Frames(s) == Cut([], s, true)
  {
  }

  lemma NoFrame(s: seq<byte>)
    requires IsPartial(s)
    ensures Frames(s) == Cut([], s, false)
  {
  }

  /** Filling a partial frame up to its size, or with everything there is. */
  lemma FillStep(frame: seq<byte>, rest: seq<byte>, size: nat, n: nat)
    requires IsPartial(frame) && rest != [] && (frame == [] ==> rest[0] != 0)
    requires size == (if frame == [] then rest[0] else frame[0]) as nat
    requires n == if |rest| < size - |frame| then |rest| else size - |frame|
    ensures var (f, r) := (frame + rest[..n], rest[n..]);
            && f != [] && f[0] as nat == size
            && (if |f| == size then Frames(frame + rest) == Behind([f], Frames(r))
                else r == [] && IsPartial(f) && f + r == frame + rest)
  {
    var (f, r, all) := (frame + rest[..n], rest[n..], frame + rest);
    if |f| == size {
      assert all[..size] == f && all[size..] == r;
    } else {
      assert rest[..n] == rest;
    }
  }

  lemma FinFrame(f: seq<byte>)
    ensures f == FIN <==> |f| == 4 && f[0] == 4 && f[1] == 0xF0 && f[2] == 0 && f[3] == 0
  {
  }

  /** A lost framing stays lost. */
  lemma {:induction false} LostStays(a: seq<byte>, b: seq<byte>)
    requires Frames(a).lost
    ensures Frames(a + b).lost && Frames(a + b).frames == Frames(a).frames
    decreases |a|
  {
    if a[0] != 0 {
      var n := a[0] as nat;
      LostStays(a[n..], b);
      assert (a + b)[..n] == a[..n] && (a + b)[n..] == a[n..] + b;
    }
  }

  lemma NothingJoined(frames: seq<seq<byte>>)
    requires forall f :: f in frames ==> f != []
    ensures Joined(frames) == [] <==> frames == []
  {
    if frames != [] {
      assert frames[0] in frames;
    }
  }

  /** A stream of a frame of six bytes that holds the fin frame's, the fin frame, and half a frame. */
  lemma ThreeFrames()
    ensures Frames([6, 4, 0xF0, 0, 0, 9, 4, 0xF0, 0, 0, 3, 7]) == Cut([[6, 4, 0xF0, 0, 0, 9], FIN], [3, 7], false)
    ensures FIN == [0x04, 0xF0, 0x00, 0x00]
    ensures Frames([2, 1, 0, 5]) == Cut([[2, 1]], [0, 5], true)
  {
    var (a, b, c) := ([6, 4, 0xF0, 0, 0, 9], FIN, [3, 7]);
    var s: seq<byte> := [6, 4, 0xF0, 0, 0, 9, 4, 0xF0, 0, 0, 3, 7];
    assert s[..6] == a && s[6..] == b + c && (b + c)[..4] == b && (b + c)[4..] == c;
    var t: seq<byte> := [2, 1, 0, 5];
    assert t[..2] == [2, 1] && t[2..] == [0, 5];
  }

  // ---- The scanner --------------------------------------------------------------------------

  /** A scanner: the bytes dropped for the join, the partial frame, and whether the framing is lost. */
  datatype Scanned = Scanned(joined: nat, frame: seq<byte>, lost: bool)

  /** What a read makes of it, and whether a fin was in it: a join still incomplete swallows the read;
      without framing only a read that is exactly the fin frame is one. */
  function ScanRead(s: Scanned, data: seq<byte>): (Scanned, bool) {
    if s.joined < JOIN_SIZE then (s.(joined := s.joined + |data|), false)
    else if s.lost then (s, data == FIN)
    else
      var c := Frames(s.frame + data);
      (Scanned(s.joined, if c.lost then [] else c.rest, c.lost), FIN in c.frames)
  }

  class FinScanner {
    var joined: nat
    var frame: seq<byte>
    var lost: bool

    ghost function View(): Scanned
      reads this
    {
      Scanned(joined, frame, lost)
    }

    constructor ()
      ensures View() == Scanned(0, [], false)
    {
      joined, frame, lost := 0, [], false;
    }

    method Scan(data: seq<byte>) returns (fin: bool)
      requires IsPartial(frame)
      modifies this
      ensures IsPartial(frame)
      ensures (View(), fin) == ScanRead(old(View()), data)
    {
      if joined < JOIN_SIZE {
        joined := joined + |data|;
        return false;
      }
      FinFrame(data);
      if lost {
        return |data| == 4 && data[0] == 4 && data[1] == 0xF0 && data[2] == 0 && data[3] == 0;
      }
      fin := ScanFrames(data);
    }

    /** The loop of Scan. */
    method ScanFrames(data: seq<byte>) returns (fin: bool)
      requires IsPartial(frame) && !lost
      modifies this`frame, this`lost
      ensures IsPartial(frame)
      ensures var c := Frames(old(frame) + data);
              lost == c.lost && frame == (if c.lost then [] else c.rest) && fin == (FIN in c.frames)
    {
      fin := false;
      var rest := data;
      ghost var done: seq<seq<byte>> := [];
      ghost var all := Frames(frame + data);
      while 0 < |rest|
        invariant IsPartial(frame) && !lost
        invariant all == Behind(done, Frames(frame + rest))
        invariant fin == (FIN in done)
        decreases |rest|
      {
        if |frame| == 0 && rest[0] == 0 {
          lost := true;
          ZeroFrame(rest);
          assert frame + rest == rest;
          break;
        }
        var size := rest[0] as nat;
        if 0 < |frame| {
          size := frame[0] as nat;
        }
        var n := size - |frame|;
        if |rest| < n {
          n := |rest|;
        }
        FillStep(frame, rest, size, n);
        frame := frame + rest[..n];
        rest := rest[n..];
        if |frame| == size {
          FinFrame(frame);
          if size == 4 && frame[1] == 0xF0 && frame[2] == 0 && frame[3] == 0 {
            fin := true;
          }
          BehindTwice(done, [frame], Frames(rest));
          done := done + [frame];
          frame := [];
          assert [] + rest == rest;
        }
      }
      if !lost {
        NoFrame(frame);
        assert frame + rest == frame;
      }
      assert done + [] == done;
    }
  }

  // ---- The read loop ------------------------------------------------------------------------

  datatype Handling = Continue | Stop

  /** A read loop: ended, or joined to a room or not, with its buffer and the messages it sent. */
  datatype Looped = Stopped | Looped(joined: bool, inbuf: seq<byte>, sent: seq<seq<byte>>)

  /** One round of the loop with a read; rooms tells for which ten bytes of a join a room is found. */
  function LoopRead(l: Looped, data: seq<byte>, rooms: seq<byte> -> bool): Looped {
    if l.Stopped? || data == FIN then Stopped
    else if !l.joined then
      if |l.inbuf + data| < JOIN_SIZE then l.(inbuf := l.inbuf + data)
      else if rooms((l.inbuf + data)[12..22]) then Looped(true, [], l.sent) else Stopped
    else
      var c := Frames(l.inbuf + data);
      if c.lost then Stopped
      else Looped(true, c.rest, l.sent + if c.frames == [] then [] else [Joined(c.frames)])
  }

  class TCPReader {
    var joined: bool
    var inbuf: seq<byte>
    var number: uint32
    ghost var sent: seq<seq<byte>>

    /** The messages sent are numbered 1, 2, 3, ... in 32 bits. */
    ghost predicate Valid()
      reads this
    {
      number == (1 + |sent|) % WORD32
    }

    ghost function View(): Looped
      reads this
    {
      Looped(joined, inbuf, sent)
    }

    constructor ()
      ensures Valid() && View() == Looped(false, [], [])
    {
      joined, inbuf, number, sent := false, [], 1, [];
    }

    /** A loop that ends sends nothing more, not even the whole frames before a frame of size 0. */
    method OnRead(data: seq<byte>, rooms: seq<byte> -> bool) returns (h: Handling)
      requires Valid()
      modifies this
      ensures Valid()
      ensures LoopRead(old(View()), data, rooms) == if h == Continue then View() else Stopped
      ensures h == Stop ==> sent == old(sent)
    {
      FinFrame(data);
      if |data| == 4 && data[0] == 4 && data[1] == 240 && data[2] == 0 && data[3] == 0 {
        return Stop;
      }
      inbuf := inbuf + data;
      if !joined {
        if |inbuf| < JOIN_SIZE {
          return Continue;
        }
        var session := inbuf[12..22];
        inbuf := [];
        joined := rooms(session);
        return if joined then Continue else Stop;
      }
      h := Forward();
    }

    /** The branch of a loop that joined. */
    method Forward() returns (h: Handling)
      requires Valid()
      modifies this`inbuf, this`number, this`sent
      ensures Valid()
      ensures var c := Frames(old(inbuf));
              if c.lost then h == Stop && sent == old(sent)
              else h == Continue && inbuf == c.rest
                   && sent == old(sent) + if c.frames == [] then [] else [Joined(c.frames)]
    {
      var tmp, rest, zero := TakeFrames(inbuf);
      if zero {
        return Stop;
      }
      inbuf := rest;
      if 0 < |tmp| {
        Send(tmp);
      } else {
        assert sent + [] == sent;
      }
      return Continue;
    }

    /** The frames go to the room as one message. */
    method Send(body: seq<byte>)
      requires Valid()
      modifies this`number, this`sent
      ensures Valid() && sent == old(sent) + [body]
    {
      number := (number + 1) % WORD32;
      sent := sent + [body];
    }
  }

  /** The inner loop: the whole frames in one message, what is left, and whether size 0 came. */
  method TakeFrames(data: seq<byte>) returns (tmp: seq<byte>, inbuf: seq<byte>, zero: bool)
    ensures zero == Frames(data).lost
    ensures tmp == Joined(Frames(data).frames) && inbuf == Frames(data).rest
    ensures tmp + inbuf == data
    ensures tmp == [] <==> Frames(data).frames == []
  {
    tmp, inbuf, zero := [], data, false;
    ghost var done: seq<seq<byte>> := [];
    FramesAreRight(data);
    while 0 < |inbuf|
      invariant tmp == Joined(done)
      invariant Frames(data) == Behind(done, Frames(inbuf))
      decreases |inbuf|
    {
      var size := inbuf[0] as nat;
      if size == 0 {
        zero := true;
        break;
      }
      if size <= |inbuf| {
        BehindTwice(done, [inbuf[..size]], Frames(inbuf[size..]));
        JoinedSnoc(done, inbuf[..size]);
        done := done + [inbuf[..size]];
        tmp := tmp + inbuf[..size];
        inbuf := inbuf[size..];
      } else {
        break;
      }
    }
    assert Frames(data).frames == done;
    NothingJoined(done);
  }

  // ---- Both over a whole stream -------------------------------------------------------------

  function ScanReads(s: Scanned, chunks: seq<seq<byte>>): (Scanned, bool)
    decreases |chunks|
  {
    if chunks == [] then (s, false)
    else
      var (next, fin) := ScanRead(s, chunks[0]);
      var (last, later) := ScanReads(next, chunks[1..]);
      (last, fin || later)
  }

  function LoopReads(l: Looped, chunks: seq<seq<byte>>, rooms: seq<byte> -> bool): Looped
    decreases |chunks|
  {
    if chunks == [] then l else LoopReads(LoopRead(l, chunks[0], rooms), chunks[1..], rooms)
  }

  /** The reads behind the join, which ends with the read that brings its last byte. */
  function AfterJoin(chunks: seq<seq<byte>>, got: nat): seq<seq<byte>> {
    if got >= JOIN_SIZE || chunks == [] then chunks else AfterJoin(chunks[1..], got + |chunks[0]|)
  }

  /** Some read is exactly the fin frame after the framing of the stream was lost. */
  predicate LateFin(stream: seq<byte>, chunks: seq<seq<byte>>)
    decreases |chunks|
  {
    chunks != [] && ((chunks[0] == FIN && Frames(stream).lost) || LateFin(stream + chunks[0], chunks[1..]))
  }

  lemma {:induction false} LateFinWhenLost(stream: seq<byte>, chunks: seq<seq<byte>>)
    requires Frames(stream).lost
    ensures LateFin(stream, chunks) <==> FIN in chunks
    ensures Frames(stream + Joined(chunks)).lost
    ensures Frames(stream + Joined(chunks)).frames == Frames(stream).frames
    decreases |chunks|
  {
    LostStays(stream, Joined(chunks));
    if chunks != [] {
      LostStays(stream, chunks[0]);
      LateFinWhenLost(stream + chunks[0], chunks[1..]);
    }
  }

  lemma {:induction false} NoLateFin(stream: seq<byte>, chunks: seq<seq<byte>>)
    requires !Frames(stream + Joined(chunks)).lost
    ensures !LateFin(stream, chunks)
    decreases |chunks|
  {
    if Frames(stream).lost {
      LostStays(stream, Joined(chunks));
    } else if chunks != [] {
      assert stream + Joined(chunks) == (stream + chunks[0]) + Joined(chunks[1..]);
      NoLateFin(stream + chunks[0], chunks[1..]);
    }
  }

  // ---- The scanner over a stream ------------------------------------------------------------

  /** Behind the join, from partial frame s.frame on. */
  lemma {:induction false} ScansOn(s: Scanned, chunks: seq<seq<byte>>)
    requires s.joined >= JOIN_SIZE && !s.lost && IsPartial(s.frame)
    ensures var ((last, fin), c) := (ScanReads(s, chunks), Frames(s.frame + Joined(chunks)));
            && last.lost == c.lost && last.frame == (if c.lost then [] else c.rest)
            && (fin <==> FIN in c.frames || LateFin(s.frame, chunks))
    decreases |chunks|
  {
    NoFrame(s.frame);
    if chunks == [] {
      assert s.frame + [] == s.frame;
    } else {
      var (now, later) := (s.frame + chunks[0], chunks[1..]);
      assert s.frame + Joined(chunks) == now + Joined(later);
      var next := ScanRead(s, chunks[0]).0;
      if next.lost {
        LateFinWhenLost(now, later);
        LostScans(next, later);
      } else {
        FramesAreRight(now);
        FramesContinue(now, Joined(later));
        ScansOn(next, later);
        LateFinContinues(now, later);
      }
    }
  }

  /** Whether framing gets lost later is decided by the partial frame. */
  lemma {:induction false} LateFinContinues(stream: seq<byte>, chunks: seq<seq<byte>>)
    requires !Frames(stream).lost
    ensures LateFin(stream, chunks) <==> LateFin(Frames(stream).rest, chunks)
    decreases |chunks|
  {
    var rest := Frames(stream).rest;
    FramesAreRight(stream);
    NoFrame(rest);
    if chunks != [] {
      FramesContinue(stream, chunks[0]);
      if Frames(stream + chunks[0]).lost {
        LateFinWhenLost(stream + chunks[0], chunks[1..]);
        LateFinWhenLost(rest + chunks[0], chunks[1..]);
      } else {
        LateFinContinues(stream + chunks[0], chunks[1..]);
        LateFinContinues(rest + chunks[0], chunks[1..]);
      }
    }
  }

  lemma {:induction false} LostScans(s: Scanned, chunks: seq<seq<byte>>)
    requires s.joined >= JOIN_SIZE && s.lost
    ensures ScanReads(s, chunks) == (s, FIN in chunks)
    decreases |chunks|
  {
    if chunks != [] {
      LostScans(s, chunks[1..]);
    }
  }

  lemma {:induction false} ScansJoin(s: Scanned, chunks: seq<seq<byte>>) returns (joined: nat)
    requires s.frame == [] && !s.lost
    ensures ScanReads(s, chunks) == ScanReads(Scanned(joined, [], false), AfterJoin(chunks, s.joined))
    ensures joined >= JOIN_SIZE || AfterJoin(chunks, s.joined) == []
    decreases |chunks|
  {
    joined := s.joined;
    if joined < JOIN_SIZE && chunks != [] {
      joined := ScansJoin(s.(joined := joined + |chunks[0]|), chunks[1..]);
    }
  }

  const SCANNER := Scanned(0, [], false)

  /** The scanner exactly, for any split of any bytes into reads: it has reported a fin if and only if the
      stream behind the join has the fin frame before framing is lost, or a read after that was exactly the
      fin frame. While framing holds only the first counts, however the bytes are split; and the partial
      frame is the stream's. */
  lemma ScannerExactly(chunks: seq<seq<byte>>)
    ensures var ((s, fin), after) := (ScanReads(SCANNER, chunks), AfterJoin(chunks, 0));
            var c := Frames(Joined(after));
            && (fin <==> FIN in c.frames || LateFin([], after))
            && (!c.lost ==> (fin <==> FIN in c.frames) && s.frame == c.rest)
            && s.lost == c.lost
  {
    var after := AfterJoin(chunks, 0);
    var joined := ScansJoin(SCANNER, chunks);
    assert [] + Joined(after) == Joined(after);
    if joined >= JOIN_SIZE {
      ScansOn(Scanned(joined, [], false), after);
    }
    if !Frames(Joined(after)).lost {
      NoLateFin([], after);
    }
  }

  /** So while framing holds, the way the bytes are split does not matter to the scanner. */
  lemma ScannerSplit(one: seq<seq<byte>>, two: seq<seq<byte>>)
    requires Joined(AfterJoin(one, 0)) == Joined(AfterJoin(two, 0)) && !Frames(Joined(AfterJoin(one, 0))).lost
    ensures ScanReads(SCANNER, one).1 == ScanReads(SCANNER, two).1
    ensures ScanReads(SCANNER, one).0.frame == ScanReads(SCANNER, two).0.frame
  {
    ScannerExactly(one);
    ScannerExactly(two);
  }

  /** Once it is lost, it does: the four bytes of the fin frame are a fin only in one read. */
  lemma ScannerSplitOnceLost(s: Scanned)
    requires s.joined >= JOIN_SIZE && s.lost
    ensures ScanReads(s, [FIN]) == (s, true) && ScanReads(s, [[4], [0xF0, 0, 0]]) == (s, false)
  {
    LostScans(s, [FIN]);
    LostScans(s, [[4], [0xF0, 0, 0]]);
  }

  // ---- The read loop over a stream ----------------------------------------------------------

  lemma {:induction false} StoppedStays(chunks: seq<seq<byte>>, rooms: seq<byte> -> bool)
    ensures LoopReads(Stopped, chunks, rooms) == Stopped
    decreases |chunks|
  {
    if chunks != [] {
      StoppedStays(chunks[1..], rooms);
    }
  }

  /** Behind the join, from the partial frame l.inbuf on. */
  lemma {:induction false} LoopsOn(l: Looped, chunks: seq<seq<byte>>, rooms: seq<byte> -> bool)
    requires l.Looped? && l.joined && IsPartial(l.inbuf)
    ensures var (last, c) := (LoopReads(l, chunks, rooms), Frames(l.inbuf + Joined(chunks)));
            && (last.Looped? <==> FIN !in chunks && !c.lost)
            && (last.Looped? ==>
                  && last.joined && last.inbuf == c.rest
                  && Joined(last.sent) == Joined(l.sent) + Joined(c.frames))
    decreases |chunks|
  {
    NoFrame(l.inbuf);
    if chunks == [] {
      assert l.inbuf + [] == l.inbuf;
    } else {
      var (now, later) := (l.inbuf + chunks[0], chunks[1..]);
      assert l.inbuf + Joined(chunks) == now + Joined(later);
      var next := LoopRead(l, chunks[0], rooms);
      if next.Stopped? {
        StoppedStays(later, rooms);
        if chunks[0] != FIN {
          LostStays(now, Joined(later));
        }
      } else {
        FramesAreRight(now);
        FramesContinue(now, Joined(later));
        LoopsOn(next, later, rooms);
        SentMore(l.sent, Frames(now).frames, Frames(Frames(now).rest + Joined(later)).frames);
      }
    }
  }

  lemma SentMore(sent: seq<seq<byte>>, frames: seq<seq<byte>>, more: seq<seq<byte>>)
    ensures Joined(sent + if frames == [] then [] else [Joined(frames)]) + Joined(more) ==
            Joined(sent) + Joined(frames + more)
  {
    JoinedConcat(frames, more);
    if frames == [] {
      assert sent + [] == sent && frames + more == more;
    } else {
      JoinedSnoc(sent, Joined(frames));
      assert (Joined(sent) + Joined(frames)) + Joined(more) == Joined(sent) + (Joined(frames) + Joined(more));
    }
  }

  /** The loop up to the read that completes the join. */
  lemma {:induction false} LoopsJoin(l: Looped, chunks: seq<seq<byte>>, rooms: seq<byte> -> bool)
    requires l.Looped? && !l.joined && |l.inbuf| < JOIN_SIZE && l.sent == []
    ensures var (last, all, after) :=
            (LoopReads(l, chunks, rooms), l.inbuf + Joined(chunks), AfterJoin(chunks, |l.inbuf|));
            && (last.Looped? <==>
                  && FIN !in chunks && !Frames(Joined(after)).lost
                  && (|all| >= JOIN_SIZE ==> rooms(all[12..22])))
            && (last.Looped? ==>
                  && last.joined == (|all| >= JOIN_SIZE)
                  && last.inbuf == (if last.joined then Frames(Joined(after)).rest else all)
                  && Joined(last.sent) == Joined(Frames(Joined(after)).frames))
    decreases |chunks|
  {
    if chunks == [] {
      assert l.inbuf + [] == l.inbuf;
    } else {
      var (now, later) := (l.inbuf + chunks[0], chunks[1..]);
      assert l.inbuf + Joined(chunks) == now + Joined(later);
      if |now| >= JOIN_SIZE {
        assert (now + Joined(later))[12..22] == now[12..22];
      }
      var next := LoopRead(l, chunks[0], rooms);
      if next.Stopped? {
        StoppedStays(later, rooms);
      } else if next.joined {
        assert next.inbuf + Joined(later) == Joined(later);
        LoopsOn(next, later, rooms);
      } else {
        LoopsJoin(next, later, rooms);
      }
    }
  }

  /** The join takes 22 bytes; the last ten of them say which room. */
  lemma JoinOf22(data: seq<byte>, more: seq<byte>, rooms: seq<byte> -> bool)
    requires data != FIN
    ensures |data| < 22 ==> LoopRead(READER, data, rooms) == Looped(false, data, [])
    ensures |data| >= 22 ==>
              LoopRead(READER, data, rooms) == if rooms(data[12..22]) then Looped(true, [], []) else Stopped
    ensures ScanRead(SCANNER, data) == (Scanned(|data|, [], false), false)
    ensures !ScanRead(Scanned(21, [], false), more).1 && ScanRead(Scanned(22, [], false), FIN).1
  {
    assert [] + data == data;
    FramesAreUnique(FIN, [FIN], []);
    assert Joined([FIN]) == FIN + Joined([]) && [] + FIN == FIN;
  }

  const READER := Looped(false, [], [])

  /** The loop exactly, for any split of any bytes into reads: it still runs if and only if no read was
      exactly the fin frame, no frame had size 0, and the room of the join was found. It then has sent
      exactly the whole frames of the stream behind the join, and holds the partial one. */
  lemma ReadLoopExactly(chunks: seq<seq<byte>>, rooms: seq<byte> -> bool)
    ensures var (l, all, stream) := (LoopReads(READER, chunks, rooms), Joined(chunks), Joined(AfterJoin(chunks, 0)));
            && (l.Looped? <==>
                  FIN !in chunks && !Frames(stream).lost && (|all| >= JOIN_SIZE ==> rooms(all[12..22])))
            && (l.Looped? ==>
                  && l.joined == (|all| >= JOIN_SIZE)
                  && l.inbuf == (if l.joined then Frames(stream).rest else all)
                  && Joined(l.sent) == Joined(Frames(stream).frames)
                  && (l.joined ==> Joined(l.sent) + l.inbuf == stream))
  {
    assert [] + Joined(chunks) == Joined(chunks);
    LoopsJoin(READER, chunks, rooms);
    FramesAreRight(Joined(AfterJoin(chunks, 0)));
  }

  /** So without a read that is exactly the fin frame, the way the bytes are split does not matter to it. */
  lemma ReadLoopSplit(one: seq<seq<byte>>, two: seq<seq<byte>>, rooms: seq<byte> -> bool)
    requires Joined(one) == Joined(two) && Joined(AfterJoin(one, 0)) == Joined(AfterJoin(two, 0))
    requires FIN !in one && FIN !in two
    ensures var (l, m) := (LoopReads(READER, one, rooms), LoopReads(READER, two, rooms));
            && l.Looped? == m.Looped?
            && (l.Looped? ==> l.inbuf == m.inbuf && Joined(l.sent) == Joined(m.sent))
  {
    ReadLoopExactly(one, rooms);
    ReadLoopExactly(two, rooms);
  }

  /** With one it does: in two reads the same bytes end the loop only if they make a frame of size 0. */
  lemma ReadLoopSplitOfFin(l: Looped, rooms: seq<byte> -> bool)
    requires l.Looped? && l.joined && IsPartial(l.inbuf)
    ensures LoopReads(l, [FIN], rooms).Stopped?
    ensures LoopReads(l, [[4], [0xF0, 0, 0]], rooms).Looped? <==> !Frames(l.inbuf + FIN).lost
  {
    var halves: seq<seq<byte>> := [[4], [0xF0, 0, 0]];
    assert FIN in [FIN];
    LoopsOn(l, [FIN], rooms);
    assert Joined(halves) == FIN by {
      assert halves[1..] == [halves[1]] && [halves[1]][1..] == [];
      assert Joined([halves[1]]) == halves[1] + [] == halves[1];
      assert halves[0] + halves[1] == FIN;
    }
    LoopsOn(l, halves, rooms);
  }

  /** While the loop runs, both hold the same partial frame, and the scanner has reported a fin if and only
      if the loop has sent the fin frame inside its messages. */
  lemma ReadersAgree(chunks: seq<seq<byte>>, rooms: seq<byte> -> bool)
    requires LoopReads(READER, chunks, rooms).Looped? && LoopReads(READER, chunks, rooms).joined
    ensures var ((s, fin), l) := (ScanReads(SCANNER, chunks), LoopReads(READER, chunks, rooms));
            && s.frame == l.inbuf && !s.lost
            && (fin <==> FIN in Frames(Joined(l.sent)).frames)
  {
    ScannerExactly(chunks);
    ReadLoopExactly(chunks, rooms);
    var c := Frames(Joined(AfterJoin(chunks, 0)));
    FramesAreRight(Joined(AfterJoin(chunks, 0)));
    assert Joined(c.frames) + [] == Joined(c.frames);
    FramesAreUnique(Joined(c.frames), c.frames, []);
  }
}
