/**
 The strict chunked-body relay (section 7.1 of RFC 9112, without chunk extensions):
 which bodies it accepts, what it returns or writes, and that the response parser
 agrees on where the body ends.
 */
module ChunkedBody {
  import opened Wrappers
  import opened ByteText
  import opened HttpFraming
  import opened FramingRoundTrip

  const MAX_HEADERS := 65536
  const STREAM_LIMIT := 65536

  const REJECTED := "POLICY_STREAM_REJECTED"
  const OVERSIZED := "POLICY_BODY_OVERSIZED"

  /** `Escaped`: the end of input or an overlong line in the trailers is not turned into
      a policy violation.  The server counts the end of input as a forwarding error; the
      overlong line is an exception of its own, which nothing counts. */
  datatype Verdict =
    | Accepted(chunks: seq<Chunk>, lastLine: Bytes, trailers: seq<Bytes>)
    | Refused(code: string)
    | Escaped(overlong: bool)

  function Payload(chunks: seq<Chunk>): Bytes {
    if chunks == [] then [] else chunks[0].data + Payload(chunks[1..])
  }

  function ChunkText(c: Chunk): Bytes {
    c.sizeLine + CRLF + c.data + CRLF
  }

  predicate SizeLine(line: Bytes) {
    |line| + 2 <= MAX_LINE && ';' !in line && ParseNumber(line, 16).Some?
  }

  function SizeOf(line: Bytes): nat
    requires SizeLine(line)
  {
    ParseNumber(line, 16).value
  }

  /** The first line of `rest`, if `readuntil` finds it. */
  function FirstLine(rest: Bytes): (line: Option<Bytes>)
    ensures line.Some? ==> |line.value| + 2 <= |rest| && rest[..|line.value|] == line.value
    ensures line.Some? ==> rest[|line.value|..|line.value| + 2] == CRLF
  {
    var m := FindCrlf(rest);
    if m < 0 || m > STREAM_LIMIT then None else Some(rest[..m])
  }

  /** What `readuntil` raises when it finds no line: it gives up on a line that is longer
      than its limit, and otherwise at the end of input. */
  predicate LineOverruns(rest: Bytes) {
    FindCrlf(rest) > STREAM_LIMIT || (FindCrlf(rest) < 0 && |rest| > STREAM_LIMIT + 1)
  }

  /** The trailer lines at the start of `rest`, up to the empty one. */
  function TakeTrailerLines(rest: Bytes, room: nat): Verdict
    decreases |rest|
  {
    match FirstLine(rest)
    case None => Escaped(LineOverruns(rest))
    case Some(line) =>
      if |line| + 2 > room then Refused(REJECTED)
      else if line == [] then Accepted([], [], [])
      else match TakeTrailerLines(rest[|line| + 2..], room - (|line| + 2))
        case Accepted(_, _, trailers) => Accepted([], [], [line] + trailers)
        case v => v
  }

  /** The next piece of a chunked body. */
  datatype Piece = NoSize | TooMuch(line: Bytes) | NoData(line: Bytes) | Last(line: Bytes) | Full(chunk: Chunk)

  /** How many octets a piece takes. */
  function Octets(p: Piece): nat {
    match p
    case Last(line) => |line| + 2
    case Full(chunk) => |chunk.sizeLine| + 2 + |chunk.data| + 2
    case _ => 0
  }

  /** The piece at the start of `rest`, with `room` octets still allowed. */
  function NextPiece(rest: Bytes, room: nat): (p: Piece)
    ensures Octets(p) <= |rest|
    ensures p.Full? ==> 0 < |p.chunk.data| <= room
  {
    match FirstLine(rest)
    case None => NoSize
    case Some(line) =>
      if !SizeLine(line) then NoSize
      else
        var size, from := SizeOf(line), |line| + 2;
        if size == 0 then Last(line)
        else if size > room then TooMuch(line)
        else if |rest| < from + size + 2 || rest[from + size..from + size + 2] != CRLF then NoData(line)
        else Full(Chunk(line, rest[from..from + size]))
  }

  function Prepend(chunks: seq<Chunk>, v: Verdict): Verdict {
    if v.Accepted? then v.(chunks := chunks + v.chunks) else v
  }

  function PrependTrailers(trailers: seq<Bytes>, v: Verdict): Verdict {
    if v.Accepted? then v.(trailers := trailers + v.trailers) else v
  }

  /** A body whose chunks are followed by the last size line and the trailers. */
  function EndWith(line: Bytes, v: Verdict): Verdict {
    if v.Accepted? then v.(chunks := [], lastLine := line) else v
  }

  /** The verdict on the body at the start of `rest`, with `room` octets still allowed. */
  function Take(rest: Bytes, room: nat): Verdict
    decreases |rest|
  {
    var p := NextPiece(rest, room);
    match p
    case NoSize => Refused(REJECTED)
    case NoData(_) => Refused(REJECTED)
    case TooMuch(_) => Refused(OVERSIZED)
    case Last(line) => EndWith(line, TakeTrailerLines(rest[Octets(p)..], MAX_HEADERS))
    case Full(chunk) => Prepend([chunk], Take(rest[Octets(p)..], room - |chunk.data|))
  }

  // ----- the streams -----

  datatype ReadResult = Got(data: Bytes) | Incomplete | Overrun

  class StreamReader {
    const input: Bytes
    var pos: nat

    predicate Valid()
      reads this
    {
      pos <= |input|
    }

    constructor (input: Bytes)
      ensures Valid() && this.input == input && pos == 0
    {
      this.input, pos := input, 0;
    }

    /** `readuntil(b"\r\n")`; what is left at the end of input is discarded. */
    method ReadLine() returns (r: ReadResult)
      requires Valid()
      modifies this
      ensures Valid() && old(pos) <= pos
      ensures
        match FirstLine(input[old(pos)..])
        case None => r == if LineOverruns(input[old(pos)..]) then Overrun else Incomplete
        case Some(line) => r == Got(line + CRLF) && pos == old(pos) + |line| + 2
    {
      var rest := input[pos..];
      var m := FindCrlf(rest);
      if LineOverruns(rest) {
        return Overrun;
      }
      if m < 0 {
        pos := |input|;
        return Incomplete;
      }
      assert rest[..m + 2] == rest[..m] + CRLF;
      r, pos := Got(rest[..m + 2]), pos + m + 2;
    }

    /** `readexactly(n)` */
    method ReadExactly(n: nat) returns (r: ReadResult)
      requires Valid()
      modifies this
      ensures Valid() && old(pos) <= pos
      ensures
        if |input| < old(pos) + n then r == Incomplete
        else r == Got(input[old(pos)..pos]) && pos == old(pos) + n
    {
      if |input| < pos + n {
        pos := |input|;
        return Incomplete;
      }
      r, pos := Got(input[pos..pos + n]), pos + n;
    }
  }

  class StreamWriter {
    var output: Bytes

    constructor ()
      ensures output == []
    {
      output := [];
    }

    method Write(data: Bytes)
      modifies this
      ensures output == old(output) + data
    {
      output := output + data;
    }
  }

  /** What went out is on the writer if there is one, and in `parts` otherwise. */
  function Shown(w: StreamWriter?, parts: Bytes): Bytes
    reads w
  {
    if w == null then parts else w.output
  }

  method Emit(w: StreamWriter?, parts: Bytes, data: Bytes) returns (after: Bytes)
    modifies w
    ensures Shown(w, after) == old(Shown(w, parts)) + data
    ensures w != null ==> after == parts
  {
    after := parts;
    if w != null {
      w.Write(data);
    } else {
      after := parts + data;
    }
  }

  datatype Relayed =
    | Relayed(raw: Bytes, decoded: Bytes, total: nat)
    | Failed(code: string)
    | Leaked(overlong: bool)

  // ----- the octets of lines and chunks -----

  lemma {:induction false} Slices(before: Bytes, input: Bytes, a: nat, b: nat, c: nat)
    requires a <= b <= c <= |input|
    ensures input[b..][..c - b] == input[b..c] && input[b..][c - b..] == input[c..]
    ensures input[a..b] + input[b..c] == input[a..c]
    ensures before + input[a..b] + input[b..c] == before + input[a..c]
  {
    assert before + input[a..b] + input[b..c] == before + (input[a..b] + input[b..c]);
  }

  lemma {:induction false} LineOctets(input: Bytes, p: nat)
    requires p <= |input| && FirstLine(input[p..]).Some?
    ensures
      var line := FirstLine(input[p..]).value;
      && p + |line| + 2 <= |input| && input[p..p + |line| + 2] == line + CRLF
      && input[p..][|line| + 2..] == input[p + |line| + 2..]
  {
    hide FirstLine;
    var line := FirstLine(input[p..]).value;
    var rest := input[p..];
    assert rest[..|line| + 2] == rest[..|line|] + rest[|line|..|line| + 2];
    assert rest[..|line| + 2] == input[p..p + |line| + 2];
  }

  lemma {:induction false} PieceOctets(input: Bytes, p: nat, room: nat)
    requires p <= |input|
    ensures
      var piece := NextPiece(input[p..], room);
      var q := p + Octets(piece);
      && q <= |input| && input[p..][Octets(piece)..] == input[q..]
      && (piece.Last? ==>
            SizeLine(piece.line) && SizeOf(piece.line) == 0 && input[p..q] == piece.line + CRLF)
      && (piece.Full? ==>
            && SizeLine(piece.chunk.sizeLine) && SizeOf(piece.chunk.sizeLine) == |piece.chunk.data|
            && input[p..q] == ChunkText(piece.chunk))
  {
    hide FirstLine, SizeLine, SizeOf, ChunkText;
    if FirstLine(input[p..]).Some? {
      LineOctets(input, p);
      var line := FirstLine(input[p..]).value;
      if SizeLine(line) && p + |line| + 2 + SizeOf(line) + 2 <= |input| {
        DataOctets(input, p, |line| + 2, SizeOf(line));
        var from := p + |line| + 2;
        if input[from + SizeOf(line)..from + SizeOf(line) + 2] == CRLF {
          TextOfChunk(input, p, line, SizeOf(line));
        }
      }
    }
  }

  lemma {:induction false} DataOctets(input: Bytes, p: nat, n: nat, size: nat)
    requires p + n + size + 2 <= |input|
    ensures input[p..][n..n + size] == input[p + n..p + n + size]
    ensures input[p..][n + size..n + size + 2] == input[p + n + size..p + n + size + 2]
    ensures input[p..][n + size + 2..] == input[p + n + size + 2..]
  {
  }

  lemma {:induction false} TextOfChunk(input: Bytes, p: nat, line: Bytes, size: nat)
    requires p + |line| + 2 + size + 2 <= |input|
    requires input[p..p + |line| + 2] == line + CRLF
    requires input[p + |line| + 2 + size..p + |line| + 2 + size + 2] == CRLF
    ensures
      var from := p + |line| + 2;
      input[p..from + size + 2] == ChunkText(Chunk(line, input[from..from + size]))
  {
    var from := p + |line| + 2;
    assert input[p..from + size + 2] == input[p..from] + input[from..from + size] + input[from + size..from + size + 2];
  }

  lemma {:induction false} RenderLinesAppend(lines: seq<Bytes>, line: Bytes, before: Bytes)
    requires RenderLines(lines) == before + CRLF
    ensures RenderLines(lines + [line]) == before + (line + CRLF) + CRLF
    decreases |lines|
  {
    if lines == [] {
      assert [line][1..] == [] && before == [];
    } else {
      var tail := RenderLines(lines[1..]);
      RenderLinesEnds(lines[1..]);
      var b := tail[..|tail| - 2];
      assert RenderLines(lines) == lines[0] + CRLF + b + CRLF;
      assert before == lines[0] + CRLF + b by {
        assert before == RenderLines(lines)[..|RenderLines(lines)| - 2];
      }
      RenderLinesAppend(lines[1..], line, b);
      assert (lines + [line])[1..] == lines[1..] + [line];
      assert RenderLines(lines + [line]) == lines[0] + CRLF + (b + (line + CRLF) + CRLF);
    }
  }

  lemma {:induction false} RenderLinesEnds(lines: seq<Bytes>)
    ensures |RenderLines(lines)| >= 2
    ensures RenderLines(lines) == RenderLines(lines)[..|RenderLines(lines)| - 2] + CRLF
    decreases |lines|
  {
    if lines != [] {
      RenderLinesEnds(lines[1..]);
    }
  }

  lemma {:induction false} ChunksUnfold(chunks: seq<Chunk>)
    requires chunks != []
    ensures RenderChunks(chunks) == ChunkText(chunks[0]) + RenderChunks(chunks[1..])
    ensures Payload(chunks) == chunks[0].data + Payload(chunks[1..])
  {
  }

  lemma {:induction false} Associative(a: Bytes, b: Bytes, c: Bytes)
    ensures a + (b + c) == a + b + c
  {
  }

  lemma {:induction false} RenderChunksAppend(chunks: seq<Chunk>, c: Chunk)
    ensures RenderChunks(chunks + [c]) == RenderChunks(chunks) + ChunkText(c)
    ensures Payload(chunks + [c]) == Payload(chunks) + c.data
    decreases |chunks|
  {
    ChunksUnfold(chunks + [c]);
    if chunks == [] {
      assert (chunks + [c])[1..] == [];
      assert RenderChunks([]) == [] && Payload([]) == [];
      hide RenderChunks, ChunkText, Payload;
      assert ChunkText(c) + [] == [] + ChunkText(c) && c.data + [] == [] + c.data;
    } else {
      ChunksUnfold(chunks);
      hide RenderChunks, ChunkText, Payload;
      RenderChunksAppend(chunks[1..], c);
      assert (chunks + [c])[1..] == chunks[1..] + [c];
      Associative(ChunkText(chunks[0]), RenderChunks(chunks[1..]), ChunkText(c));
      Associative(chunks[0].data, Payload(chunks[1..]), c.data);
    }
  }

  // ----- trailers -----

  /** `trailers` are the lines of `input` from `a` to `b`. */
  ghost predicate TrailersRead(input: Bytes, a: nat, b: nat, trailers: seq<Bytes>) {
    && a <= b <= |input| && b - a <= MAX_HEADERS
    && RenderLines(trailers) == input[a..b] + CRLF
    && TakeTrailerLines(input[a..], MAX_HEADERS)
         == PrependTrailers(trailers, TakeTrailerLines(input[b..], MAX_HEADERS - (b - a)))
  }

  lemma {:induction false} NoTrailersYet(input: Bytes, a: nat)
    requires a <= |input|
    ensures TrailersRead(input, a, a, [])
  {
    hide TakeTrailerLines;
    var v := TakeTrailerLines(input[a..], MAX_HEADERS);
    assert v.Accepted? ==> [] + v.trailers == v.trailers;
  }

  lemma {:induction false} OnlyTrailers(rest: Bytes, room: nat)
    ensures
      var v := TakeTrailerLines(rest, room);
      v.Accepted? ==> v.chunks == [] && v.lastLine == []
    decreases |rest|
  {
    hide FirstLine;
    var line := FirstLine(rest);
    if line.Some? && |line.value| + 2 <= room && line.value != [] {
      OnlyTrailers(rest[|line.value| + 2..], room - (|line.value| + 2));
    }
  }

  /** What follows from the next trailer line. */
  lemma {:induction false} NextTrailer(input: Bytes, a: nat, b: nat, trailers: seq<Bytes>)
    requires TrailersRead(input, a, b, trailers)
    ensures
      var v := TakeTrailerLines(input[a..], MAX_HEADERS);
      match FirstLine(input[b..])
      case None => v == Escaped(LineOverruns(input[b..]))
      case Some(line) =>
        var c := b + |line| + 2;
        if c - a > MAX_HEADERS then v == Refused(REJECTED)
        else if line == [] then v == Accepted([], [], trailers) && c <= |input| && input[a..c] == RenderLines(trailers)
        else TrailersRead(input, a, c, trailers + [line])
  {
    hide FirstLine, RenderLines;
    var first, room := FirstLine(input[b..]), MAX_HEADERS - (b - a);
    if first.Some? && |first.value| + 2 <= room {
      LineOctets(input, b);
      var line := first.value;
      var c := b + |line| + 2;
      Slices([], input, a, b, c);
      if line == [] {
        assert trailers + [] == trailers;
        assert [] + CRLF == CRLF;
      } else {
        RenderLinesAppend(trailers, line, input[a..b]);
        var v := TakeTrailerLines(input[c..], room - (|line| + 2));
        OnlyTrailers(input[c..], room - (|line| + 2));
        if v.Accepted? {
          assert trailers + ([line] + v.trailers) == trailers + [line] + v.trailers;
        }
      }
    }
  }

  method RelayTrailers(reader: StreamReader, w: StreamWriter?, rawParts: Bytes)
    returns (r: Relayed, ghost end: nat)
    requires reader.Valid()
    modifies reader, w
    ensures reader.Valid() && old(reader.pos) <= end <= reader.pos
    ensures w != null ==> w.output == old(w.output) + reader.input[old(reader.pos)..end]
    ensures
      var went := reader.input[old(reader.pos)..end];
      match TakeTrailerLines(reader.input[old(reader.pos)..], MAX_HEADERS)
      case Accepted(_, _, trailers) =>
        && went == RenderLines(trailers) && reader.pos == end
        && r == Relayed(if w == null then rawParts + went else rawParts, [], 0)
      case Refused(code) => r == Failed(code)
      case Escaped(overlong) => r == Leaked(overlong)
  {
    hide FirstLine, TakeTrailerLines, RenderLines, TrailersRead;
    var parts, trailerBytes := rawParts, 0;
    ghost var trailers: seq<Bytes>, a := [], reader.pos;
    ghost var before := Shown(w, parts);
    end := a;
    assert before + reader.input[a..a] == before;
    NoTrailersYet(reader.input, a);
    while true
      invariant reader.Valid() && a <= reader.pos == end && trailerBytes == end - a <= MAX_HEADERS
      invariant TrailersRead(reader.input, a, end, trailers)
      invariant Shown(w, parts) == before + reader.input[a..end] && (w != null ==> parts == rawParts)
      decreases |reader.input| - reader.pos
    {
      NextTrailer(reader.input, a, end, trailers);
      var line := reader.ReadLine();
      if !line.Got? {
        return Leaked(line.Overrun?), end;
      }
      trailerBytes := trailerBytes + |line.data|;
      if trailerBytes > MAX_HEADERS {
        return Failed(REJECTED), end;
      }
      LineOctets(reader.input, end);
      Slices(before, reader.input, a, end, reader.pos);
      parts := Emit(w, parts, line.data);
      trailers := trailers + [FirstLine(reader.input[end..]).value];
      end := reader.pos;
      if line.data == CRLF {
        return Relayed(parts, [], 0), end;
      }
    }
  }

  // ----- chunks -----

  /** `chunks` are what `input` holds from `a` to `b`, within `maximum`. */
  ghost predicate ChunksRead(input: Bytes, a: nat, b: nat, chunks: seq<Chunk>, maximum: nat) {
    && a <= b <= |input| && input[a..b] == RenderChunks(chunks) && |Payload(chunks)| <= maximum
    && Take(input[a..], maximum) == Prepend(chunks, Take(input[b..], maximum - |Payload(chunks)|))
  }

  lemma {:induction false} NoChunksYet(input: Bytes, a: nat, maximum: nat)
    requires a <= |input|
    ensures ChunksRead(input, a, a, [], maximum) && Payload([]) == []
  {
    hide Take;
    var v := Take(input[a..], maximum);
    assert v.Accepted? ==> [] + v.chunks == v.chunks;
  }

  lemma {:induction false} PrependTwice(chunks: seq<Chunk>, c: Chunk, v: Verdict)
    ensures Prepend(chunks, Prepend([c], v)) == Prepend(chunks + [c], v)
  {
    if v.Accepted? {
      assert chunks + ([c] + v.chunks) == chunks + [c] + v.chunks;
    }
  }

  /** What follows from the next piece. */
  lemma {:induction false} NextChunk(input: Bytes, a: nat, b: nat, chunks: seq<Chunk>, maximum: nat)
    requires ChunksRead(input, a, b, chunks, maximum)
    ensures
      var v := Take(input[a..], maximum);
      var piece := NextPiece(input[b..], maximum - |Payload(chunks)|);
      var c := b + Octets(piece);
      && c <= |input|
      && match piece
         case NoSize => v == Refused(REJECTED)
         case NoData(_) => v == Refused(REJECTED)
         case TooMuch(_) => v == Refused(OVERSIZED)
         case Last(line) =>
           && v == Prepend(chunks, EndWith(line, TakeTrailerLines(input[c..], MAX_HEADERS)))
           && input[a..c] == RenderChunks(chunks) + (line + CRLF)
         case Full(chunk) =>
           && Payload(chunks + [chunk]) == Payload(chunks) + chunk.data
           && ChunksRead(input, a, c, chunks + [chunk], maximum)
  {
    hide NextPiece, TakeTrailerLines, RenderChunks, ChunkText, Payload, SizeLine, SizeOf;
    var room := maximum - |Payload(chunks)|;
    PieceOctets(input, b, room);
    var piece := NextPiece(input[b..], room);
    var c := b + Octets(piece);
    Slices([], input, a, b, c);
    if piece.Full? {
      PrependTwice(chunks, piece.chunk, Take(input[c..], room - |piece.chunk.data|));
      RenderChunksAppend(chunks, piece.chunk);
    }
  }

  /** The next piece, told by positions in the input. */
  lemma {:induction false} PieceIs(input: Bytes, a: nat, room: nat)
    requires a <= |input| && FirstLine(input[a..]).Some?
    ensures
      var line := FirstLine(input[a..]).value;
      var piece, b := NextPiece(input[a..], room), a + |line| + 2;
      if !SizeLine(line) then piece == NoSize
      else
        var size := SizeOf(line);
        if size == 0 then piece == Last(line)
        else if size > room then piece == TooMuch(line)
        else if |input| < b + size + 2 || input[b + size..b + size + 2] != CRLF then piece == NoData(line)
        else piece == Full(Chunk(line, input[b..b + size]))
  {
    hide FirstLine, SizeLine, SizeOf;
    LineOctets(input, a);
    var line := FirstLine(input[a..]).value;
    if SizeLine(line) && a + |line| + 2 + SizeOf(line) + 2 <= |input| {
      var size, from := SizeOf(line), |line| + 2;
      assert input[a..][from..from + size] == input[a + from..a + from + size];
      assert input[a..][from + size..from + size + 2] == input[a + from + size..a + from + size + 2];
    }
  }

  lemma {:induction false} PayloadSplits(input: Bytes, b: nat, size: nat)
    requires b + size + 2 <= |input|
    ensures input[b..b + size + 2][size..] == input[b + size..b + size + 2]
    ensures input[b..b + size + 2][..size] == input[b..b + size]
  {
  }

  /** Relay the data of a chunk if CR LF follows it. */
  method RelayPayload(reader: StreamReader, w: StreamWriter?, parts: Bytes, decoded: Bytes, size: nat)
    returns (ok: bool, after: Bytes, nowDecoded: Bytes)
    requires reader.Valid()
    modifies reader, w
    ensures reader.Valid() && old(reader.pos) <= reader.pos
    ensures w != null ==> after == parts && nowDecoded == decoded
    ensures
      var b := old(reader.pos);
      if |reader.input| < b + size + 2 || reader.input[b + size..b + size + 2] != CRLF then
        !ok && Shown(w, after) == old(Shown(w, parts))
      else
        && ok && reader.pos == b + size + 2
        && Shown(w, after) == old(Shown(w, parts)) + reader.input[b..reader.pos]
        && (w == null ==> nowDecoded == decoded + reader.input[b..b + size])
  {
    ok, after, nowDecoded := false, parts, decoded;
    ghost var b := reader.pos;
    var payload := reader.ReadExactly(size + 2);
    if payload == Incomplete {
      return;
    }
    PayloadSplits(reader.input, b, size);
    if payload.data[size..] != CRLF {
      return;
    }
    ok := true;
    after := Emit(w, after, payload.data);
    if w == null {
      nowDecoded := decoded + payload.data[..size];
    }
  }

  datatype Progress = Stopped(code: string) | AtLast | AtChunk(size: nat)

  /** Relay a size line. */
  method RelaySizeLine(reader: StreamReader, w: StreamWriter?, parts: Bytes)
    returns (size: Option<nat>, after: Bytes)
    requires reader.Valid()
    modifies reader, w
    ensures reader.Valid() && old(reader.pos) <= reader.pos
    ensures w != null ==> after == parts
    ensures
      var a := old(reader.pos);
      var first := FirstLine(reader.input[a..]);
      if first == None || !SizeLine(first.value) then size == None && Shown(w, after) == old(Shown(w, parts))
      else
        && size == Some(SizeOf(first.value)) && reader.pos == a + |first.value| + 2
        && Shown(w, after) == old(Shown(w, parts)) + reader.input[a..reader.pos]
  {
    hide FirstLine, SizeLine, SizeOf;
    size, after := None, parts;
    ghost var a := reader.pos;
    var line := reader.ReadLine();
    if line.Got? {
      LineOctets(reader.input, a);
      var sizeLine := line.data[..|line.data| - 2];
      assert sizeLine == FirstLine(reader.input[a..]).value;
      if SizeLine(sizeLine) {
        size := Some(SizeOf(sizeLine));
        after := Emit(w, after, line.data);
      }
    }
  }

  /** Relay one size line and, unless it is the last one, its data. */
  method RelayPiece(reader: StreamReader, w: StreamWriter?, parts: Bytes, decoded: Bytes, room: nat)
    returns (p: Progress, after: Bytes, nowDecoded: Bytes, ghost end: nat)
    requires reader.Valid()
    modifies reader, w
    ensures reader.Valid() && old(reader.pos) <= end <= reader.pos
    ensures Shown(w, after) == old(Shown(w, parts)) + reader.input[old(reader.pos)..end]
    ensures w != null ==> after == parts && nowDecoded == decoded
    ensures
      var piece := NextPiece(reader.input[old(reader.pos)..], room);
      && (!p.Stopped? ==> reader.pos == end == old(reader.pos) + Octets(piece))
      && match piece
         case NoSize => p == Stopped(REJECTED)
         case NoData(_) => p == Stopped(REJECTED)
         case TooMuch(_) => p == Stopped(OVERSIZED)
         case Last(line) => p == AtLast && nowDecoded == decoded
         case Full(c) => p == AtChunk(|c.data|) && (w == null ==> nowDecoded == decoded + c.data)
  {
    hide FirstLine, SizeLine, SizeOf, NextPiece;
    ghost var a, before := reader.pos, Shown(w, parts);
    after, nowDecoded, end := parts, decoded, a;
    assert before + reader.input[a..a] == before;
    NothingIsNoSize(reader.input[a..], room);
    if FirstLine(reader.input[a..]).Some? {
      PieceIs(reader.input, a, room);
    }
    var read;
    read, after := RelaySizeLine(reader, w, parts);
    if read == None {
      return Stopped(REJECTED), after, nowDecoded, end;
    }
    var size := read.value;
    end := reader.pos;
    if size == 0 {
      return AtLast, after, nowDecoded, end;
    }
    if size > room {
      return Stopped(OVERSIZED), after, nowDecoded, end;
    }
    var ok;
    ok, after, nowDecoded := RelayPayload(reader, w, after, decoded, size);
    if !ok {
      return Stopped(REJECTED), after, nowDecoded, end;
    }
    Slices(before, reader.input, a, end, reader.pos);
    end := reader.pos;
    p := AtChunk(size);
  }

  lemma {:induction false} NothingIsNoSize(rest: Bytes, room: nat)
    ensures FirstLine(rest) == None ==> NextPiece(rest, room) == NoSize
  {
    hide FirstLine;
  }

  /** `_read_chunked_body`: it accepts exactly what `Take` accepts; what went out is
      then exactly what was consumed, and otherwise a part of it. */
  method ReadChunkedBody(reader: StreamReader, maximum: nat, w: StreamWriter?)
    returns (r: Relayed, ghost end: nat)
    requires reader.Valid()
    modifies reader, w
    ensures reader.Valid() && old(reader.pos) <= end <= reader.pos
    ensures w != null ==> w.output == old(w.output) + reader.input[old(reader.pos)..end]
    ensures
      var went := reader.input[old(reader.pos)..end];
      match Take(reader.input[old(reader.pos)..], maximum)
      case Accepted(chunks, lastLine, trailers) =>
        && went == RenderBody(Chunked(chunks, lastLine, trailers)) && reader.pos == end
        && r == (if w == null then Relayed(went, Payload(chunks), |Payload(chunks)|)
                 else Relayed([], [], |Payload(chunks)|))
      case Refused(code) => r == Failed(code)
      case Escaped(overlong) => r == Leaked(overlong)
  {
    hide NextPiece, Take, TakeTrailerLines, RenderChunks, RenderLines, Payload, ChunksRead;
    var parts, decoded, total := [], [], 0;
    ghost var chunks: seq<Chunk>, a := [], reader.pos;
    ghost var before := Shown(w, parts);
    end := a;
    assert before + reader.input[a..a] == before;
    NoChunksYet(reader.input, a, maximum);
    while true
      invariant reader.Valid() && a <= reader.pos == end
      invariant ChunksRead(reader.input, a, end, chunks, maximum) && total == |Payload(chunks)| <= maximum
      invariant Shown(w, parts) == before + reader.input[a..end] && (w != null ==> parts == [] && decoded == [])
      invariant w == null ==> decoded == Payload(chunks)
      decreases |reader.input| - reader.pos
    {
      NextChunk(reader.input, a, end, chunks, maximum);
      ghost var piece := NextPiece(reader.input[end..], maximum - total);
      var p;
      ghost var b := end;
      p, parts, decoded, end := RelayPiece(reader, w, parts, decoded, maximum - total);
      Slices(before, reader.input, a, b, end);
      if p.Stopped? {
        return Failed(p.code), end;
      }
      if p == AtLast {
        b := end;
        r, end := RelayTrailers(reader, w, parts);
        Slices(before, reader.input, a, b, end);
        OnlyTrailers(reader.input[b..], MAX_HEADERS);
        LastOctets(chunks, piece.line, TakeTrailerLines(reader.input[b..], MAX_HEADERS), reader.input, a, b, end);
        if r.Relayed? {
          r := Relayed(r.raw, decoded, total);
        }
        return;
      }
      total := total + p.size;
      chunks := chunks + [piece.chunk];
    }
  }

  lemma {:induction false} LastOctets(
    chunks: seq<Chunk>, line: Bytes, v: Verdict, input: Bytes, a: nat, b: nat, c: nat)
    requires a <= b <= c <= |input| && input[a..b] == RenderChunks(chunks) + (line + CRLF)
    requires v.Accepted? ==> v.chunks == [] && input[b..c] == RenderLines(v.trailers)
    ensures v.Accepted? ==> input[a..c] == RenderBody(Chunked(chunks, line, v.trailers))
    ensures v.Accepted? ==> Prepend(chunks, EndWith(line, v)) == Accepted(chunks, line, v.trailers)
  {
    hide RenderLines, RenderChunks;
    if v.Accepted? {
      assert input[a..c] == input[a..b] + input[b..c];
      assert chunks + [] == chunks;
      assert RenderChunks(chunks) + (line + CRLF) + RenderLines(v.trailers)
        == RenderChunks(chunks) + (line + CRLF + RenderLines(v.trailers));
    }
  }

  // ----- what is accepted -----

  ghost predicate Acceptable(chunks: seq<Chunk>, lastLine: Bytes, trailers: seq<Bytes>, maximum: nat) {
    && (forall i :: 0 <= i < |chunks| ==> AcceptableChunk(chunks[i]))
    && |Payload(chunks)| <= maximum
    && NoCrlf(lastLine) && SizeLine(lastLine) && SizeOf(lastLine) == 0
    && AcceptableTrailers(trailers, MAX_HEADERS)
  }

  ghost predicate AcceptableChunk(c: Chunk) {
    NoCrlf(c.sizeLine) && SizeLine(c.sizeLine) && SizeOf(c.sizeLine) == |c.data| && c.data != []
  }

  ghost predicate AcceptableTrailers(trailers: seq<Bytes>, room: nat) {
    (forall i :: 0 <= i < |trailers| ==> trailers[i] != [] && NoCrlf(trailers[i])) && |RenderLines(trailers)| <= room
  }

  lemma {:induction false} FirstLineIs(line: Bytes, rest: Bytes)
    requires NoCrlf(line) && |line| <= STREAM_LIMIT
    ensures FirstLine(line + CRLF + rest) == Some(line) && (line + CRLF + rest)[|line| + 2..] == rest
  {
    FindCrlfLine(line, rest);
    assert (line + CRLF + rest)[..|line|] == line;
  }

  lemma {:induction false} FirstLineHasNoCrlf(rest: Bytes)
    ensures FirstLine(rest).Some? ==> NoCrlf(FirstLine(rest).value) && |FirstLine(rest).value| <= STREAM_LIMIT
    ensures FirstLine(rest).Some? ==>
      rest == FirstLine(rest).value + CRLF + rest[|FirstLine(rest).value| + 2..]
  {
    var m := FindCrlf(rest);
    if m >= 0 {
      FindCrlfFirst(rest);
      var r := FindCrlf(rest[..m]);
      assert r >= 0 ==> CrlfAt(rest, r);
      assert rest == rest[..m] + CRLF + rest[m + 2..];
    }
  }

  lemma {:induction false} TrailersAccepted(trailers: seq<Bytes>, room: nat, tail: Bytes)
    requires AcceptableTrailers(trailers, room) && room <= MAX_HEADERS
    ensures TakeTrailerLines(RenderLines(trailers) + tail, room) == Accepted([], [], trailers)
    decreases |trailers|
  {
    hide FirstLine, NoCrlf;
    if trailers == [] {
      assert CRLF + tail == [] + CRLF + tail;
      EmptyHasNoCrlf();
      FirstLineIs([], tail);
    } else {
      var line, rest := trailers[0], RenderLines(trailers[1..]) + tail;
      assert RenderLines(trailers) + tail == line + CRLF + rest;
      assert |RenderLines(trailers)| == |line| + 2 + |RenderLines(trailers[1..])|;
      hide RenderLines;
      RenderLinesEnds(trailers[1..]);
      FirstLineIs(line, rest);
      TrailersAccepted(trailers[1..], room - (|line| + 2), tail);
    }
  }

  lemma {:induction false} EmptyHasNoCrlf()
    ensures NoCrlf([])
  {
  }

  lemma {:induction false} TrailersSound(rest: Bytes, room: nat)
    requires room <= MAX_HEADERS
    ensures
      var v := TakeTrailerLines(rest, room);
      v.Accepted? ==>
        && AcceptableTrailers(v.trailers, room)
        && RenderLines(v.trailers) <= rest
    decreases |rest|
  {
    hide FirstLine, NoCrlf;
    FirstLineHasNoCrlf(rest);
    var first := FirstLine(rest);
    if first.Some? && |first.value| + 2 <= room {
      var line := first.value;
      var after := rest[|line| + 2..];
      if line == [] {
        assert RenderLines([]) <= rest;
      } else {
        TrailersSound(after, room - (|line| + 2));
        var v := TakeTrailerLines(after, room - (|line| + 2));
        if v.Accepted? {
          TrailersJoin(line, v.trailers, after, room);
        }
      }
    }
  }

  lemma {:induction false} TrailersJoin(line: Bytes, trailers: seq<Bytes>, after: Bytes, room: nat)
    requires line != [] && NoCrlf(line) && |line| + 2 <= room
    requires AcceptableTrailers(trailers, room - (|line| + 2)) && RenderLines(trailers) <= after
    ensures AcceptableTrailers([line] + trailers, room)
    ensures RenderLines([line] + trailers) <= line + CRLF + after
  {
    hide NoCrlf;
    assert ([line] + trailers)[1..] == trailers;
    var k := |RenderLines(trailers)|;
    assert line + CRLF + after == line + CRLF + RenderLines(trailers) + after[k..];
  }

  lemma {:induction false} AcceptableChunkIsNext(c: Chunk, after: Bytes, room: nat)
    requires AcceptableChunk(c) && |c.data| <= room
    ensures
      var rest := ChunkText(c) + after;
      NextPiece(rest, room) == Full(c) && rest[Octets(Full(c))..] == after
  {
    hide FirstLine, SizeLine, SizeOf, NoCrlf;
    ChunkTextSplits(c, after);
    var tail := c.data + CRLF + after;
    hide ChunkText;
    SizeLineIsShort(c.sizeLine);
    FirstLineIs(c.sizeLine, tail);
  }

  lemma {:induction false} ChunkTextSplits(c: Chunk, after: Bytes)
    ensures
      var rest := ChunkText(c) + after;
      var from, size := |c.sizeLine| + 2, |c.data|;
      && |rest| == from + size + 2 + |after|
      && rest == c.sizeLine + CRLF + (c.data + CRLF + after)
      && rest[from..from + size] == c.data && rest[from + size..from + size + 2] == CRLF
      && rest[from + size + 2..] == after
  {
  }

  lemma {:induction false} LastLineIsNext(line: Bytes, after: Bytes, room: nat)
    requires NoCrlf(line) && SizeLine(line) && SizeOf(line) == 0
    ensures
      var rest := line + CRLF + after;
      NextPiece(rest, room) == Last(line) && rest[Octets(Last(line))..] == after
  {
    hide FirstLine, SizeLine, SizeOf, NoCrlf;
    SizeLineIsShort(line);
    FirstLineIs(line, after);
  }

  lemma {:induction false} BodyStarts(chunks: seq<Chunk>, lastLine: Bytes, trailers: seq<Bytes>, tail: Bytes)
    requires chunks != []
    ensures
      var c := chunks[0];
      RenderBody(Chunked(chunks, lastLine, trailers)) + tail
        == ChunkText(c) + (RenderBody(Chunked(chunks[1..], lastLine, trailers)) + tail)
  {
    ChunksUnfold(chunks);
    hide RenderLines, RenderChunks, ChunkText;
    var end := lastLine + CRLF + RenderLines(trailers);
    Associative(ChunkText(chunks[0]), RenderChunks(chunks[1..]), end);
    Associative(ChunkText(chunks[0]), RenderChunks(chunks[1..]) + end, tail);
  }

  lemma {:induction false} AcceptableRest(chunks: seq<Chunk>, lastLine: Bytes, trailers: seq<Bytes>, maximum: nat)
    requires Acceptable(chunks, lastLine, trailers, maximum) && chunks != []
    ensures AcceptableChunk(chunks[0]) && |chunks[0].data| <= maximum
    ensures Acceptable(chunks[1..], lastLine, trailers, maximum - |chunks[0].data|)
  {
    ChunksUnfold(chunks);
    hide AcceptableChunk, NoCrlf, SizeLine, SizeOf, AcceptableTrailers, Payload;
  }

  lemma {:induction false} TakeFull(rest: Bytes, room: nat, c: Chunk, after: Bytes)
    requires NextPiece(rest, room) == Full(c) && rest[Octets(Full(c))..] == after
    ensures |c.data| <= room && Take(rest, room) == Prepend([c], Take(after, room - |c.data|))
  {
    hide NextPiece;
  }

  lemma {:induction false} LastIsTaken(lastLine: Bytes, trailers: seq<Bytes>, room: nat, tail: Bytes)
    requires NoCrlf(lastLine) && SizeLine(lastLine) && SizeOf(lastLine) == 0
    requires AcceptableTrailers(trailers, MAX_HEADERS)
    ensures Take(RenderBody(Chunked([], lastLine, trailers)) + tail, room) == Accepted([], lastLine, trailers)
  {
    hide NextPiece, SizeLine, SizeOf, NoCrlf, TakeTrailerLines, RenderLines, AcceptableTrailers;
    var after := RenderLines(trailers) + tail;
    assert RenderBody(Chunked([], lastLine, trailers)) + tail == lastLine + CRLF + after;
    LastLineIsNext(lastLine, after, room);
    TrailersAccepted(trailers, MAX_HEADERS, tail);
  }

  /** A trailer line beyond the limit of the reader escapes as an exception of its own,
      which is neither a violation nor an end of input. */
  lemma {:induction false} OverlongTrailerEscapes(lastLine: Bytes, trailer: Bytes, tail: Bytes, maximum: nat)
    requires NoCrlf(lastLine) && SizeLine(lastLine) && SizeOf(lastLine) == 0
    requires NoCrlf(trailer) && |trailer| > STREAM_LIMIT
    ensures Take(lastLine + CRLF + (trailer + CRLF + tail), maximum) == Escaped(true)
  {
    hide NextPiece, SizeLine, SizeOf, NoCrlf;
    LastLineIsNext(lastLine, trailer + CRLF + tail, maximum);
    FindCrlfLine(trailer, tail);
  }

  /** Whatever starts with an acceptable body is accepted as that body. */
  lemma {:induction false} AcceptableIsTaken(
    chunks: seq<Chunk>, lastLine: Bytes, trailers: seq<Bytes>, maximum: nat, tail: Bytes)
    requires Acceptable(chunks, lastLine, trailers, maximum)
    ensures Take(RenderBody(Chunked(chunks, lastLine, trailers)) + tail, maximum) == Accepted(chunks, lastLine, trailers)
    decreases |chunks|
  {
    hide *;
    if chunks == [] {
      AcceptableEnd(lastLine, trailers, maximum);
      LastIsTaken(lastLine, trailers, maximum, tail);
    } else {
      BodyStarts(chunks, lastLine, trailers, tail);
      AcceptableRest(chunks, lastLine, trailers, maximum);
      var c := chunks[0];
      var after := RenderBody(Chunked(chunks[1..], lastLine, trailers)) + tail;
      AcceptableChunkIsNext(c, after, maximum);
      TakeFull(ChunkText(c) + after, maximum, c, after);
      AcceptableIsTaken(chunks[1..], lastLine, trailers, maximum - |c.data|, tail);
      PrependFirst(chunks, lastLine, trailers);
    }
  }

  lemma {:induction false} PrependFirst(chunks: seq<Chunk>, lastLine: Bytes, trailers: seq<Bytes>)
    requires chunks != []
    ensures Prepend([chunks[0]], Accepted(chunks[1..], lastLine, trailers)) == Accepted(chunks, lastLine, trailers)
  {
    assert [chunks[0]] + chunks[1..] == chunks;
  }

  lemma {:induction false} AcceptableEnd(lastLine: Bytes, trailers: seq<Bytes>, maximum: nat)
    requires Acceptable([], lastLine, trailers, maximum)
    ensures NoCrlf(lastLine) && SizeLine(lastLine) && SizeOf(lastLine) == 0
    ensures AcceptableTrailers(trailers, MAX_HEADERS)
  {
  }

  lemma {:induction false} SizeLineIsShort(line: Bytes)
    requires SizeLine(line)
    ensures |line| + 2 <= MAX_LINE <= STREAM_LIMIT
  {
  }

  /** Whatever is accepted starts with an acceptable body. */
  lemma {:induction false} TakenIsAcceptable(rest: Bytes, maximum: nat)
    ensures
      var v := Take(rest, maximum);
      v.Accepted? ==>
        && Acceptable(v.chunks, v.lastLine, v.trailers, maximum)
        && RenderBody(Chunked(v.chunks, v.lastLine, v.trailers)) <= rest
    decreases |rest|
  {
    hide FirstLine, SizeLine, SizeOf, NoCrlf, TakeTrailerLines, NextPiece, AcceptableTrailers, ChunkText, RenderBody;
    var p := NextPiece(rest, maximum);
    PieceOctets(rest, 0, maximum);
    assert rest[0..] == rest;
    PieceHasNoCrlf(rest, maximum);
    var after := rest[Octets(p)..];
    assert rest == rest[..Octets(p)] + after;
    if p.Last? {
      LastSound(p.line, after, rest, maximum);
    } else if p.Full? {
      TakenIsAcceptable(after, maximum - |p.chunk.data|);
      var v := Take(after, maximum - |p.chunk.data|);
      if v.Accepted? {
        ChunkJoin(p.chunk, v.chunks, v.lastLine, v.trailers, after, maximum);
      }
    }
  }

  lemma {:induction false} LastSound(line: Bytes, after: Bytes, rest: Bytes, maximum: nat)
    requires NoCrlf(line) && SizeLine(line) && SizeOf(line) == 0 && rest == line + CRLF + after
    ensures
      var v := TakeTrailerLines(after, MAX_HEADERS);
      v.Accepted? ==>
        && Acceptable([], line, v.trailers, maximum)
        && RenderBody(Chunked([], line, v.trailers)) <= rest
  {
    hide SizeLine, SizeOf, NoCrlf, TakeTrailerLines, RenderLines, AcceptableTrailers;
    TrailersSound(after, MAX_HEADERS);
    var v := TakeTrailerLines(after, MAX_HEADERS);
    if v.Accepted? {
      assert after == RenderLines(v.trailers) + after[|RenderLines(v.trailers)|..];
      assert rest == RenderBody(Chunked([], line, v.trailers)) + after[|RenderLines(v.trailers)|..];
    }
  }

  lemma {:induction false} PieceHasNoCrlf(rest: Bytes, room: nat)
    ensures
      var p := NextPiece(rest, room);
      && (p.Last? ==> NoCrlf(p.line))
      && (p.Full? ==> NoCrlf(p.chunk.sizeLine))
  {
    hide FirstLine, SizeLine, SizeOf, NoCrlf;
    FirstLineHasNoCrlf(rest);
  }

  lemma {:induction false} ChunkJoin(
    c: Chunk, chunks: seq<Chunk>, lastLine: Bytes, trailers: seq<Bytes>, after: Bytes, maximum: nat)
    requires RenderBody(Chunked(chunks, lastLine, trailers)) <= after
    requires AcceptableChunk(c) && |c.data| <= maximum && Acceptable(chunks, lastLine, trailers, maximum - |c.data|)
    ensures Acceptable([c] + chunks, lastLine, trailers, maximum)
    ensures RenderBody(Chunked([c] + chunks, lastLine, trailers)) <= ChunkText(c) + after
  {
    hide *;
    assert ([c] + chunks)[1..] == chunks;
    AcceptableJoin(c, chunks, lastLine, trailers, maximum);
    BodyStarts([c] + chunks, lastLine, trailers, []);
    var body, whole := RenderBody(Chunked(chunks, lastLine, trailers)), RenderBody(Chunked([c] + chunks, lastLine, trailers));
    assert whole + [] == whole && body + [] == body;
    assert after == body + after[|body|..];
    Associative(ChunkText(c), body, after[|body|..]);
  }

  lemma {:induction false} AcceptableJoin(
    c: Chunk, chunks: seq<Chunk>, lastLine: Bytes, trailers: seq<Bytes>, maximum: nat)
    requires AcceptableChunk(c) && |c.data| <= maximum && Acceptable(chunks, lastLine, trailers, maximum - |c.data|)
    ensures Acceptable([c] + chunks, lastLine, trailers, maximum)
  {
    assert ([c] + chunks)[1..] == chunks;
    ChunksUnfold([c] + chunks);
    hide AcceptableChunk, AcceptableTrailers, NoCrlf, SizeLine, SizeOf, Payload;
  }

  // ----- the incremental parser agrees -----

  lemma {:induction false} ParserTakesTrailers(c: Conn, trailers: seq<Bytes>, tail: Bytes)
    requires c.Valid() && c.core.state == ChunkTrailer
    requires forall i :: 0 <= i < |trailers| ==> trailers[i] != [] && NoCrlf(trailers[i])
    ensures Parse(Response, At(c, RenderLines(trailers) + tail)) == Parse(Response, At(c.Enter(Line), tail))
    decreases |trailers|
  {
    hide NoCrlf;
    if trailers == [] {
      assert CRLF + tail == [] + CRLF + tail;
      ParserTakesLine(c, [], tail);
    } else {
      var line, rest := trailers[0], RenderLines(trailers[1..]) + tail;
      assert RenderLines(trailers) + tail == line + CRLF + rest;
      ParserTakesLine(c, line, rest);
      ParserTakesTrailers(c, trailers[1..], tail);
    }
  }

  lemma {:induction false} ParserTakesLine(c: Conn, line: Bytes, rest: Bytes)
    requires c.Valid() && c.core.state == ChunkTrailer && (line == [] || NoCrlf(line))
    ensures Parse(Response, At(c, line + CRLF + rest))
      == Parse(Response, At(if line == [] then c.Enter(Line) else c, rest))
  {
    var b := line + CRLF + rest;
    FindCrlfLine(line, rest);
    assert b[..|line|] == line && b[|line| + 2..] == rest;
  }

  /** The response parser, fed an accepted body from where it expects a size, is back at
      the start of a line with exactly what followed the body. */
  lemma {:induction false} ParserAgrees(
    c: Conn, chunks: seq<Chunk>, lastLine: Bytes, trailers: seq<Bytes>, maximum: nat, tail: Bytes)
    requires c.core.state == ChunkSize && c.core.chunkRemaining == 0
    requires Acceptable(chunks, lastLine, trailers, maximum)
    ensures Parse(Response, At(c, RenderBody(Chunked(chunks, lastLine, trailers)) + tail))
      == Parse(Response, At(c.Enter(Line), tail))
    ensures Parse(Response, At(c, RenderBody(Chunked(chunks, lastLine, trailers)))) == Ok(At(c.Enter(Line), []))
  {
    ParserTakesBody(c, chunks, lastLine, trailers, maximum, tail);
    ParserTakesBody(c, chunks, lastLine, trailers, maximum, []);
    var body := RenderBody(Chunked(chunks, lastLine, trailers));
    assert body + [] == body;
  }

  lemma {:induction false} ParserTakesBody(
    c: Conn, chunks: seq<Chunk>, lastLine: Bytes, trailers: seq<Bytes>, maximum: nat, tail: Bytes)
    requires c.core.state == ChunkSize && c.core.chunkRemaining == 0
    requires Acceptable(chunks, lastLine, trailers, maximum)
    ensures Parse(Response, At(c, RenderBody(Chunked(chunks, lastLine, trailers)) + tail))
      == Parse(Response, At(c.Enter(Line), tail))
  {
    hide Parse, ParseNumber, NoCrlf;
    var after := RenderLines(trailers) + tail;
    assert RenderBody(Chunked(chunks, lastLine, trailers)) + tail == RenderChunks(chunks) + (lastLine + CRLF + after);
    forall i | 0 <= i < |chunks| ensures ProperChunk(chunks[i]) {
      assert AcceptableChunk(chunks[i]);
      NoSemicolon(chunks[i].sizeLine);
    }
    NoSemicolon(lastLine);
    TakeChunks(Response, c, chunks, lastLine + CRLF + after);
    TakeLine(Response, c, lastLine, after);
    ParserTakesTrailers(c.Enter(ChunkTrailer), trailers, tail);
  }

  lemma {:induction false} NoSemicolon(line: Bytes)
    requires ';' !in line
    ensures UpTo(line, ';') == line
  {
    NotFound(line, ';');
  }

  lemma {:induction false} NotFound(b: Bytes, c: Byte)
    requires c !in b
    ensures IndexOf(b, c) < 0
    decreases |b|
  {
    if b != [] {
      NotFound(b[1..], c);
    }
  }
}
