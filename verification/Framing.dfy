/** The frame scanner of internal/syslog/frame.go and the encoder inside
    `CollectorPool.Forward` (internal/syslog/pool.go), as a codec. */
module Framing {
  import opened ByteStrings

  /** What one `ReadFrame` call returns. */
  datatype ReadResult = Frame(body: Bytes) | Eof | Invalid | TooLarge

  /** `readOctetCountedFrame` on the unread part of a stream: the result and what is
      left unread. */
  function ScanOctetCounted(unread: Bytes, maxFrame: int): (ReadResult, Bytes)
  {
    var sp := IndexByte(unread, ' ');
    if sp == -1 then (Invalid, [])
    else
      var after := unread[sp + 1..];
      match ParseInt(unread[..sp])
      case None => (Invalid, after)
      case Some(n) =>
        if n > maxFrame then (TooLarge, after)
        else if n < 0 then (Invalid, after)
        else if |after| < n then (Invalid, [])
        else (Frame(after[..n]), after[n..])
  }

  /** `readNewlineFrame`; a last line without a newline is still a frame. */
  function ScanLine(unread: Bytes): (ReadResult, Bytes)
  {
    var nl := IndexByte(unread, '\n');
    if nl >= 0 then (Frame(unread[..nl]), unread[nl + 1..])
    else if unread == [] then (Eof, [])
    else (Frame(unread), [])
  }

  /** `ReadFrame`: the first byte selects the framing. */
  function Scan(unread: Bytes, maxFrame: int): (r: (ReadResult, Bytes))
    ensures r.0.Frame? ==> |r.1| < |unread|
    ensures r.0.Eof? <==> unread == []
  {
    if unread == [] then (Eof, [])
    else if IsDigit(unread[0]) then ScanOctetCounted(unread, maxFrame)
    else ScanLine(unread)
  }

  /** The scanner object: `unread` is what the buffered reader has not consumed. */
  class FrameScanner {
    var unread: Bytes
    const maxFrame: int

    constructor (stream: Bytes, maxFrameBytes: int)
      ensures unread == stream && maxFrame == maxFrameBytes
    {
      unread := stream;
      maxFrame := maxFrameBytes;
    }

    method ReadFrame() returns (r: ReadResult)
      modifies this
      ensures (r, unread) == Scan(old(unread), maxFrame)
    {
      if |unread| == 0 {
        return Eof;
      }
      if IsDigit(unread[0]) {
        r := ReadOctetCountedFrame();
      } else {
        r := ReadNewlineFrame();
      }
    }

    method ReadOctetCountedFrame() returns (r: ReadResult)
      modifies this
      ensures (r, unread) == ScanOctetCounted(old(unread), maxFrame)
    {
      var sp := IndexByte(unread, ' ');
      if sp == -1 {
        unread := [];
        return Invalid;
      }
      var lenStr := unread[..sp];
      unread := unread[sp + 1..];
      var declared := ParseInt(lenStr);
      if declared.None? {
        return Invalid;
      }
      if declared.value > maxFrame {
        return TooLarge;
      }
      if declared.value < 0 {
        return Invalid;
      }
      if |unread| < declared.value {
        unread := [];
        return Invalid;
      }
      r := Frame(unread[..declared.value]);
      unread := unread[declared.value..];
    }

    method ReadNewlineFrame() returns (r: ReadResult)
      modifies this
      ensures (r, unread) == ScanLine(old(unread))
    {
      var nl := IndexByte(unread, '\n');
      IndexByteFirst(unread, '\n');
      var line := if nl == -1 then unread else unread[..nl + 1];
      assert nl >= 0 ==> line[..nl] == unread[..nl];
      assert nl == -1 ==> unread[|line|..] == [];
      assert nl == -1 && |line| > 0 ==> line[|line| - 1] in unread;
      unread := unread[|line|..];
      if nl == -1 && |line| == 0 {
        return Eof;
      }
      if |line| > 0 && line[|line| - 1] == '\n' {
        line := line[..|line| - 1];
      }
      r := Frame(line);
    }
  }

  /** All frames a reader obtains by calling `ReadFrame` until it stops, and the result
      that stopped it. */
  function ReadAll(unread: Bytes, maxFrame: int): (r: (seq<Bytes>, ReadResult))
    ensures !r.1.Frame?
    decreases |unread|
  {
    var (first, rest) := Scan(unread, maxFrame);
    if first.Frame? then
      var (more, end) := ReadAll(rest, maxFrame);
      ([first.body] + more, end)
    else ([], first)
  }

  lemma ReadAllUnfold(unread: Bytes, maxFrame: int)
    ensures var (first, rest) := Scan(unread, maxFrame);
            if first.Frame? then
              && |rest| < |unread|
              && ReadAll(unread, maxFrame) == ([first.body] + ReadAll(rest, maxFrame).0, ReadAll(rest, maxFrame).1)
            else ReadAll(unread, maxFrame) == ([], first)
  {
  }

  /** The payload `Forward` writes for a frame: decimal length, space, body. */
  function Encode(frame: Bytes): Bytes
  {
    Itoa(|frame|) + " " + frame
  }

  function EncodeAll(frames: seq<Bytes>): Bytes
  {
    if frames == [] then [] else Encode(frames[0]) + EncodeAll(frames[1..])
  }

  /** A frame on the wire in either framing of RFC 6587, sections 3.4.1 and 3.4.2. */
  datatype WireFrame = Counted(body: Bytes) | Line(body: Bytes)

  function EncodeWire(w: WireFrame): Bytes
  {
    match w
    case Counted(b) => Encode(b)
    case Line(b) => b + ['\n']
  }

  function EncodeWires(ws: seq<WireFrame>): Bytes
  {
    if ws == [] then [] else EncodeWire(ws[0]) + EncodeWires(ws[1..])
  }

  function Bodies(ws: seq<WireFrame>): seq<Bytes>
  {
    if ws == [] then [] else [ws[0].body] + Bodies(ws[1..])
  }

  /** Exactly the wire frames the scanner can tell apart from their surroundings. */
  predicate Decodable(w: WireFrame, maxFrame: int)
  {
    match w
    case Counted(b) => |b| <= maxFrame
    case Line(b) => '\n' !in b && (b == [] || !IsDigit(b[0]))
  }

  /** What the scanner makes of a decimal length, a space and whatever follows. */
  lemma ScanHead(n: nat, after: Bytes, maxFrame: int)
    ensures Scan(Itoa(n) + [' '] + after, maxFrame) ==
            if n > MAX_INT64 then (Invalid, after)
            else if n > maxFrame then (TooLarge, after)
            else if |after| < n then (Invalid, [])
            else (Frame(after[..n]), after[n..])
  {
    var p := Itoa(n);
    ItoaBytes(n, ' ');
    DigitsRoundTrip(n);
    ParseDigits(Digits(n));
    FirstByteAt(p, ' ', after);
    assert IsDigit((p + [' '] + after)[0]);
    hide Itoa, ParseInt, IndexByte, Digits, Value;
  }

  lemma ScanCounted(b: Bytes, tail: Bytes, maxFrame: int)
    requires maxFrame <= MAX_INT64
    ensures |b| <= maxFrame <==> Scan(Encode(b) + tail, maxFrame) == (Frame(b), tail)
    ensures |b| <= maxFrame <==> Scan(Encode(b) + tail, maxFrame).0.Frame?
  {
    hide Scan, Itoa;
    ScanHead(|b|, b + tail, maxFrame);
    assert Encode(b) + tail == Itoa(|b|) + [' '] + (b + tail);
    assert (b + tail)[..|b|] == b && (b + tail)[|b|..] == tail;
  }

  lemma ScanWholeLine(b: Bytes, tail: Bytes)
    ensures '\n' !in b <==> ScanLine(b + ['\n'] + tail) == (Frame(b), tail)
  {
    if '\n' in b {
      var k := IndexByte(b, '\n');
      IndexByteFirst(b, '\n');
      var rest := b[k + 1..] + ['\n'] + tail;
      FirstByteAt(b[..k], '\n', rest);
      assert b + ['\n'] + tail == b[..k] + ['\n'] + rest;
    } else {
      FirstByteAt(b, '\n', tail);
    }
  }

  /** A wire frame is read back whole, whatever follows it, exactly when it is decodable. */
  lemma ScanWire(w: WireFrame, tail: Bytes, maxFrame: int)
    requires maxFrame <= MAX_INT64
    ensures Decodable(w, maxFrame) <==> Scan(EncodeWire(w) + tail, maxFrame) == (Frame(w.body), tail)
  {
    match w
    case Counted(b) =>
      ScanCounted(b, tail, maxFrame);
    case Line(b) =>
      ScanWholeLine(b, tail);
      assert b != [] ==> (b + ['\n'] + tail)[0] == b[0];
  }

  lemma ScanWithoutSpace(s: Bytes, maxFrame: int)
    requires s != [] && IsDigit(s[0]) && ' ' !in s
    ensures Scan(s, maxFrame).0 == Invalid
  {
    IndexByteFirst(s, ' ');
  }

  lemma ItoaDigit(n: nat)
    ensures Itoa(n) != [] && IsDigit(Itoa(n)[0])
  {
  }

  /** A proper, nonempty part of a counted frame never yields a frame. */
  lemma ScanTornFrame(f: Bytes, torn: Bytes, maxFrame: int)
    requires torn < Encode(f) && torn != []
    ensures !Scan(torn, maxFrame).0.Frame?
  {
    var p := Itoa(|f|);
    ItoaBytes(|f|, ' ');
    ItoaDigit(|f|);
    hide Scan, Itoa;
    assert torn == Encode(f)[..|torn|];
    if |torn| <= |p| {
      assert torn == p[..|torn|];
      ScanWithoutSpace(torn, maxFrame);
    } else {
      var part := torn[|p| + 1..];
      assert torn == p + [' '] + part;
      ScanHead(|f|, part, maxFrame);
    }
  }

  /** Reading one decodable frame off the front. */
  lemma ReadAllWire(w: WireFrame, tail: Bytes, maxFrame: int)
    requires maxFrame <= MAX_INT64 && Decodable(w, maxFrame)
    ensures ReadAll(EncodeWire(w) + tail, maxFrame) ==
            ([w.body] + ReadAll(tail, maxFrame).0, ReadAll(tail, maxFrame).1)
  {
    ScanWire(w, tail, maxFrame);
  }

  lemma ReadAllTorn(f: Bytes, torn: Bytes, maxFrame: int)
    requires torn < Encode(f)
    ensures ReadAll(torn, maxFrame).0 == []
    ensures ReadAll(torn, maxFrame).1 == Eof <==> torn == []
  {
    if torn != [] {
      ScanTornFrame(f, torn, maxFrame);
    }
  }

  /** Section 4.3 of RFC 5425 and both framings of RFC 6587: any mixture of decodable
      frames, optionally followed by a torn counted frame, reads back as exactly those
      frames; the stream then ends cleanly if and only if nothing was torn. */
  lemma {:induction false} RoundTrip(ws: seq<WireFrame>, f: Bytes, torn: Bytes, maxFrame: int)
    requires maxFrame <= MAX_INT64
    requires forall i :: 0 <= i < |ws| ==> Decodable(ws[i], maxFrame)
    requires torn < Encode(f)
    ensures ReadAll(EncodeWires(ws) + torn, maxFrame).0 == Bodies(ws)
    ensures ReadAll(EncodeWires(ws) + torn, maxFrame).1 == Eof <==> torn == []
  {
    if ws == [] {
      assert EncodeWires(ws) + torn == torn;
      ReadAllTorn(f, torn, maxFrame);
    } else {
      var rest := EncodeWires(ws[1..]) + torn;
      assert EncodeWires(ws) + torn == EncodeWire(ws[0]) + rest;
      ReadAllWire(ws[0], rest, maxFrame);
      RoundTrip(ws[1..], f, torn, maxFrame);
    }
  }

  /** A last line without its newline is still a frame. */
  lemma ScanLastLine(b: Bytes, maxFrame: int)
    requires b != [] && '\n' !in b && !IsDigit(b[0])
    ensures Scan(b, maxFrame) == (Frame(b), [])
  {
    IndexByteFirst(b, '\n');
  }

  /** A device that closes in the middle of a line: the frames before it, then the line, then a clean
      end. */
  lemma {:induction false} RoundTripLastLine(ws: seq<WireFrame>, last: Bytes, maxFrame: int)
    requires maxFrame <= MAX_INT64
    requires forall i :: 0 <= i < |ws| ==> Decodable(ws[i], maxFrame)
    requires last != [] && '\n' !in last && !IsDigit(last[0])
    ensures ReadAll(EncodeWires(ws) + last, maxFrame) == (Bodies(ws) + [last], Eof)
  {
    if ws == [] {
      assert EncodeWires(ws) + last == last;
      ScanLastLine(last, maxFrame);
      ReadAllUnfold([], maxFrame);
      ReadAllUnfold(last, maxFrame);
      assert [last] + [] == [] + [last];
    } else {
      hide Scan, ReadAll;
      var rest := EncodeWires(ws[1..]) + last;
      assert EncodeWires(ws) + last == EncodeWire(ws[0]) + rest;
      ReadAllWire(ws[0], rest, maxFrame);
      RoundTripLastLine(ws[1..], last, maxFrame);
      assert [ws[0].body] + (Bodies(ws[1..]) + [last]) == Bodies(ws) + [last];
    }
  }

  function Counteds(frames: seq<Bytes>): (ws: seq<WireFrame>)
    ensures |ws| == |frames| && forall i :: 0 <= i < |ws| ==> ws[i] == Counted(frames[i])
  {
    if frames == [] then [] else [Counted(frames[0])] + Counteds(frames[1..])
  }

  lemma {:induction false} BodiesOfCounteds(frames: seq<Bytes>)
    ensures Bodies(Counteds(frames)) == frames
  {
    if frames != [] {
      BodiesOfCounteds(frames[1..]);
    }
  }

  lemma {:induction false} EncodeAllIsWires(frames: seq<Bytes>)
    ensures EncodeAll(frames) == EncodeWires(Counteds(frames))
  {
    if frames != [] {
      EncodeAllIsWires(frames[1..]);
    }
  }

  /** Appending a frame appends its payload. */
  lemma {:induction false} EncodeAllAppend(frames: seq<Bytes>, f: Bytes)
    ensures EncodeAll(frames + [f]) == EncodeAll(frames) + Encode(f)
  {
    hide Encode;
    if frames == [] {
      assert (frames + [f])[1..] == [];
    } else {
      EncodeAllAppend(frames[1..], f);
      assert (frames + [f])[1..] == frames[1..] + [f];
    }
  }

  /** The bytes one collector connection carries: whole payloads, then possibly a torn one. */
  lemma ForwardedRoundTrip(frames: seq<Bytes>, f: Bytes, torn: Bytes, maxFrame: int)
    requires maxFrame <= MAX_INT64
    requires forall i :: 0 <= i < |frames| ==> |frames[i]| <= maxFrame
    requires torn < Encode(f)
    ensures ReadAll(EncodeAll(frames) + torn, maxFrame).0 == frames
    ensures ReadAll(EncodeAll(frames) + torn, maxFrame).1 == Eof <==> torn == []
  {
    EncodeAllIsWires(frames);
    RoundTrip(Counteds(frames), f, torn, maxFrame);
    BodiesOfCounteds(frames);
  }

  /** How many frames come before the first one above the cap. */
  function Fitting(frames: seq<Bytes>, maxFrame: int): (n: nat)
    ensures n <= |frames| && forall i :: 0 <= i < n ==> |frames[i]| <= maxFrame
    ensures n < |frames| ==> |frames[n]| > maxFrame
  {
    if frames == [] || |frames[0]| > maxFrame then 0 else 1 + Fitting(frames[1..], maxFrame)
  }

  /** Without any hypothesis on the frames: the reader gets exactly those before the first one above
      its cap. */
  lemma {:induction false} ForwardedFitting(frames: seq<Bytes>, f: Bytes, torn: Bytes, maxFrame: int)
    requires maxFrame <= MAX_INT64 && torn < Encode(f)
    ensures ReadAll(EncodeAll(frames) + torn, maxFrame).0 == frames[..Fitting(frames, maxFrame)]
  {
    hide Encode, Scan, ReadAll;
    if frames == [] {
      assert EncodeAll(frames) + torn == torn;
      ReadAllTorn(f, torn, maxFrame);
    } else {
      var rest := EncodeAll(frames[1..]) + torn;
      assert EncodeAll(frames) + torn == Encode(frames[0]) + rest;
      ScanCounted(frames[0], rest, maxFrame);
      ReadAllUnfold(Encode(frames[0]) + rest, maxFrame);
      ForwardedFitting(frames[1..], f, torn, maxFrame);
      if |frames[0]| <= maxFrame {
        var n := Fitting(frames[1..], maxFrame);
        assert [frames[0]] + frames[1..][..n] == frames[..n + 1];
      }
    }
  }

  /** The cap holds for every counted frame; the negative-length branch is dead because the
      length prefix starts with a digit. */
  lemma CountedFrameWithinCap(unread: Bytes, maxFrame: int)
    requires unread != [] && IsDigit(unread[0])
    ensures Scan(unread, maxFrame).0.Frame? ==> |Scan(unread, maxFrame).0.body| <= maxFrame
    ensures var sp := IndexByte(unread, ' ');
            sp >= 0 && ParseInt(unread[..sp]).Some? ==> ParseInt(unread[..sp]).value >= 0
  {
    var sp := IndexByte(unread, ' ');
    if sp >= 0 {
      assert sp > 0 && unread[..sp][0] == unread[0];
    }
  }

  /** The cap does not bind newline frames: every line is returned whatever the cap is. */
  lemma LineFrameIgnoresCap(line: Bytes, maxFrame: int)
    requires '\n' !in line && (line == [] || !IsDigit(line[0]))
    ensures Scan(line + ['\n'], maxFrame) == (Frame(line), [])
  {
    FirstByteAt(line, '\n', []);
    assert line + ['\n'] == line + ['\n'] + [];
  }

  /** Every frame that a reader obtains from the stream is octet-counted. */
  predicate CountedOnly(unread: Bytes, maxFrame: int)
    decreases |unread|
  {
    var (first, rest) := Scan(unread, maxFrame);
    first.Frame? ==> IsDigit(unread[0]) && CountedOnly(rest, maxFrame)
  }

  /** So the cap binds all frames of a stream without newline frames. */
  lemma {:induction false} CountedWithinCap(unread: Bytes, maxFrame: int)
    requires CountedOnly(unread, maxFrame)
    ensures forall f :: f in ReadAll(unread, maxFrame).0 ==> |f| <= maxFrame
    decreases |unread|
  {
    var (first, rest) := Scan(unread, maxFrame);
    ReadAllUnfold(unread, maxFrame);
    if first.Frame? {
      CountedFrameWithinCap(unread, maxFrame);
      hide Scan, ReadAll;
      CountedWithinCap(rest, maxFrame);
    }
  }

  // ----- what is a frame, as a grammar -----

  /** A length prefix: decimal digits, leading zeros allowed. */
  predicate IsLength(p: Bytes) { p != [] && AllDigits(p) }

  lemma LengthHasNoSpace(p: Bytes)
    requires IsLength(p)
    ensures ' ' !in p && IsDigit(p[0])
  {
  }

  /** Digits, a space, and whatever follows: accepted, refused for its size, or cut short. */
  lemma ScanLength(p: Bytes, after: Bytes, maxFrame: int)
    requires IsLength(p)
    ensures var n := Value(p);
            Scan(p + [' '] + after, maxFrame) ==
            if n > MAX_INT64 then (Invalid, after)
            else if n > maxFrame then (TooLarge, after)
            else if |after| < n then (Invalid, [])
            else (Frame(after[..n]), after[n..])
  {
    LengthHasNoSpace(p);
    FirstByteAt(p, ' ', after);
    ParseDigits(p);
    assert (p + [' '] + after)[0] == p[0];
    hide ParseInt, IndexByte, Value, AllDigits;
  }

  /** A frame in the grammar of RFC 6587: a counted body within the cap, a line, or an unterminated
      last line. `p` is the length prefix of a counted frame. */
  predicate FrameText(unread: Bytes, p: Bytes, body: Bytes, tail: Bytes, maxFrame: int)
  {
    if unread != [] && IsDigit(unread[0]) then
      && IsLength(p) && Value(p) == |body| && |body| <= maxFrame && |body| <= MAX_INT64
      && unread == p + [' '] + (body + tail)
    else
      '\n' !in body && (unread == body + ['\n'] + tail || (unread == body != [] && tail == []))
  }

  /** Everything in the grammar is read, as it stands there. */
  lemma GrammarIsRead(unread: Bytes, p: Bytes, body: Bytes, tail: Bytes, maxFrame: int)
    requires FrameText(unread, p, body, tail, maxFrame)
    ensures Scan(unread, maxFrame) == (Frame(body), tail)
  {
    if unread != [] && IsDigit(unread[0]) {
      ScanLength(p, body + tail, maxFrame);
      assert (body + tail)[..|body|] == body && (body + tail)[|body|..] == tail;
    } else if unread == body + ['\n'] + tail {
      ScanWholeLine(body, tail);
    } else {
      ScanLastLine(body, maxFrame);
    }
  }

  /** Nothing else is. */
  lemma ReadIsGrammar(unread: Bytes, maxFrame: int) returns (p: Bytes)
    requires Scan(unread, maxFrame).0.Frame?
    ensures FrameText(unread, p, Scan(unread, maxFrame).0.body, Scan(unread, maxFrame).1, maxFrame)
  {
    if IsDigit(unread[0]) {
      p := CountedPrefix(unread, maxFrame);
      hide Scan, Value, AllDigits;
    } else {
      p := [];
      LineText(unread);
      hide ScanLine, ScanOctetCounted;
    }
  }

  lemma LineText(unread: Bytes)
    requires unread != []
    ensures var (r, tail) := ScanLine(unread);
            && r.Frame? && '\n' !in r.body
            && (unread == r.body + ['\n'] + tail || (unread == r.body && tail == []))
  {
    hide IndexByte;
    if IndexByte(unread, '\n') >= 0 {
      CutAtFirst(unread, '\n');
    } else {
      IndexByteFirst(unread, '\n');
    }
  }

  lemma CountedPrefix(unread: Bytes, maxFrame: int) returns (p: Bytes)
    requires Scan(unread, maxFrame).0.Frame? && IsDigit(unread[0])
    ensures IsLength(p) && Value(p) == |Scan(unread, maxFrame).0.body| <= maxFrame
    ensures Value(p) <= MAX_INT64
    ensures unread == p + [' '] + (Scan(unread, maxFrame).0.body + Scan(unread, maxFrame).1)
  {
    var sp := IndexByte(unread, ' ');
    p := unread[..sp];
    var after := unread[sp + 1..];
    assert sp > 0 && p[0] == unread[0];
    assert unread == p + [' '] + after;
    assert IsLength(p);
    ScanLength(p, after, maxFrame);
    assert after == after[..Value(p)] + after[Value(p)..];
  }

  lemma ScanBadLength(p: Bytes, after: Bytes, maxFrame: int)
    requires p != [] && IsDigit(p[0]) && !AllDigits(p) && ' ' !in p
    ensures Scan(p + [' '] + after, maxFrame).0 == Invalid
  {
    FirstByteAt(p, ' ', after);
    assert (p + [' '] + after)[0] == p[0];
    assert ParseInt(p).None?;
    hide ParseInt, IndexByte, AllDigits;
  }

  lemma LineIsNotTooLarge(unread: Bytes, maxFrame: int)
    requires unread == [] || !IsDigit(unread[0])
    ensures Scan(unread, maxFrame).0 != TooLarge
  {
    hide IndexByte;
  }

  /** A frame is refused for its size exactly when its length prefix says so. */
  lemma TooLargeIff(unread: Bytes, maxFrame: int)
    ensures Scan(unread, maxFrame).0 == TooLarge <==>
            var sp := IndexByte(unread, ' ');
            sp > 0 && AllDigits(unread[..sp]) && maxFrame < Value(unread[..sp]) <= MAX_INT64
  {
    var sp := IndexByte(unread, ' ');
    hide Scan, Value, IndexByte;
    if sp == -1 {
      IndexByteFirst(unread, ' ');
      if unread != [] && IsDigit(unread[0]) {
        ScanWithoutSpace(unread, maxFrame);
      } else {
        LineIsNotTooLarge(unread, maxFrame);
      }
    } else if IsDigit(unread[0]) {
      CutAtFirst(unread, ' ');
      var p, after := unread[..sp], unread[sp + 1..];
      assert sp > 0 && p[0] == unread[0];
      if AllDigits(p) {
        ScanLength(p, after, maxFrame);
      } else {
        ScanBadLength(p, after, maxFrame);
      }
    } else {
      LineIsNotTooLarge(unread, maxFrame);
      assert sp > 0 ==> unread[..sp][0] == unread[0];
    }
  }
}
