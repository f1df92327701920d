/** Well-formed messages, and what the parsers make of them. */
module FramingRoundTrip {
  import opened Wrappers
  import opened ByteText
  import opened HttpFraming
  import opened FramingLaws

  datatype Chunk = Chunk(sizeLine: Bytes, data: Bytes)

  datatype BodyText =
    | Plain(octets: Bytes)
    | Chunked(chunks: seq<Chunk>, lastLine: Bytes, trailers: seq<Bytes>)

  datatype Message = Message(start: Bytes, headers: seq<Bytes>, body: BodyText)

  function RenderLines(lines: seq<Bytes>): Bytes {
    if lines == [] then CRLF else lines[0] + CRLF + RenderLines(lines[1..])
  }

  function RenderChunks(chunks: seq<Chunk>): Bytes {
    if chunks == [] then []
    else chunks[0].sizeLine + CRLF + chunks[0].data + CRLF + RenderChunks(chunks[1..])
  }

  function RenderBody(body: BodyText): Bytes {
    match body
    case Plain(octets) => octets
    case Chunked(chunks, lastLine, trailers) => RenderChunks(chunks) + (lastLine + CRLF + RenderLines(trailers))
  }

  function RenderTail(m: Message): Bytes {
    RenderLines(m.headers) + RenderBody(m.body)
  }

  function Render(m: Message): Bytes {
    m.start + CRLF + RenderTail(m)
  }

  function RenderAll(ms: seq<Message>): Bytes {
    if ms == [] then [] else Render(ms[0]) + RenderAll(ms[1..])
  }

  ghost predicate ProperLine(line: Bytes) {
    NoCrlf(line) && |line| < MAX_LINE
  }

  ghost predicate ProperLines(lines: seq<Bytes>) {
    forall i :: 0 <= i < |lines| ==> lines[i] != [] && ProperLine(lines[i])
  }

  function ChunkLength(sizeLine: Bytes): Option<nat> {
    ParseNumber(UpTo(sizeLine, ';'), 16)
  }

  /** What a list of header lines declares, if each of them is accepted. */
  function Declares(headers: seq<Bytes>, d: Declared): Option<Declared> {
    if headers == [] then Some(d)
    else match ParseHeader(headers[0], d)
      case None => None
      case Some(e) => Declares(headers[1..], e)
  }

  ghost predicate ProperChunk(c: Chunk) {
    ProperLine(c.sizeLine) && c.data != [] && ChunkLength(c.sizeLine) == Some(|c.data|)
  }

  /** The body is the one that the headers announce. */
  ghost predicate Framed(d: Declared, noBody: bool, body: BodyText) {
    if noBody then body == Plain([])
    else match body
      case Plain(octets) => !d.chunked && d.length == |octets|
      case Chunked(chunks, lastLine, trailers) =>
        && d.chunked
        && (forall i :: 0 <= i < |chunks| ==> ProperChunk(chunks[i]))
        && ProperLine(lastLine) && ChunkLength(lastLine) == Some(0)
        && ProperLines(trailers)
  }

  ghost predicate WellFormed(m: Message, noBody: bool) {
    && ProperLine(m.start)
    && ProperLines(m.headers)
    && Declares(m.headers, Declared(false, 0)).Some?
    && Framed(Declares(m.headers, Declared(false, 0)).value, noBody, m.body)
  }

  /** Parsing `c` amounts to parsing `n`, and no line up to there is too long. */
  ghost predicate Leads(role: Role, c: Conn, n: Conn) {
    && c.Valid() && n.Valid()
    && Parse(role, c) == Parse(role, n)
    && (LinesShort(role, n) ==> LinesShort(role, c))
  }

  function At(c: Conn, buffer: Bytes): Conn {
    c.(core := c.core.(buffer := buffer))
  }

  lemma {:induction false} TakeLine(role: Role, c: Conn, line: Bytes, rest: Bytes)
    requires c.Valid() && AwaitsLine(c.core) && ProperLine(line)
    requires OnLine(role, At(c, rest), line).Next?
    ensures Leads(role, At(c, line + CRLF + rest), OnLine(role, At(c, rest), line).conn)
  {
    hide OnLine;
    var b := line + CRLF + rest;
    FindCrlfLine(line, rest);
    assert b[..|line|] == line && b[|line| + 2..] == rest;
    assert Step(role, At(c, b)) == OnLine(role, At(c, rest), line);
  }

  lemma {:induction false} TakeOctets(role: Role, c: Conn, octets: Bytes, rest: Bytes)
    requires c.Valid() && c.core.state in {Body, ChunkData} && BodyLeft(c.core) == |octets|
    ensures Leads(role, At(c, octets + rest), At(
      if c.core.state.Body? then c.(core := c.core.(state := Line, contentRemaining := 0))
      else c.(core := c.core.(state := ChunkCrlf, chunkRemaining := 0)), rest))
  {
    hide OnLine;
    assert (octets + rest)[|octets|..] == rest;
  }

  lemma {:induction false} TakeChunkEnd(role: Role, c: Conn, rest: Bytes)
    requires c.Valid() && c.core.state == ChunkCrlf
    ensures Leads(role, At(c, CRLF + rest), At(c.Enter(ChunkSize), rest))
  {
    hide OnLine;
    assert (CRLF + rest)[..2] == CRLF && (CRLF + rest)[2..] == rest;
  }

  lemma {:induction false} TakeHeaders(role: Role, c: Conn, headers: seq<Bytes>, rest: Bytes)
    requires c.Valid() && c.core.state == Headers && ProperLines(headers)
    requires Declares(headers, Declared(c.core.chunked, c.core.contentLength)).Some?
    ensures var d := Declares(headers, Declared(c.core.chunked, c.core.contentLength)).value;
      var last := At(c.(core := c.core.(chunked := d.chunked, contentLength := d.length)), rest);
      && OnHeaderLine(role, last, []).Next?
      && Leads(role, At(c, RenderLines(headers) + rest), OnHeaderLine(role, last, []).conn)
    decreases |headers|
  {
    hide ParseHeader;
    if headers == [] {
      assert CRLF + rest == [] + CRLF + rest;
      TakeLine(role, c, [], rest);
    } else {
      var line, tail := headers[0], RenderLines(headers[1..]) + rest;
      assert RenderLines(headers) + rest == line + CRLF + tail;
      TakeLine(role, c, line, tail);
      var n := OnLine(role, At(c, tail), line).conn;
      TakeHeaders(role, n, headers[1..], rest);
    }
  }

  lemma {:induction false} TakeTrailers(role: Role, c: Conn, trailers: seq<Bytes>, rest: Bytes)
    requires c.Valid() && c.core.state == ChunkTrailer && ProperLines(trailers)
    ensures Leads(role, At(c, RenderLines(trailers) + rest), At(c.Enter(Line), rest))
    decreases |trailers|
  {
    if trailers == [] {
      assert CRLF + rest == [] + CRLF + rest;
      TakeLine(role, c, [], rest);
    } else {
      var line, tail := trailers[0], RenderLines(trailers[1..]) + rest;
      assert RenderLines(trailers) + rest == line + CRLF + tail;
      TakeLine(role, c, line, tail);
      TakeTrailers(role, c, trailers[1..], rest);
    }
  }

  lemma {:induction false} TakeChunks(role: Role, c: Conn, chunks: seq<Chunk>, rest: Bytes)
    requires c.core.state == ChunkSize && c.core.chunkRemaining == 0
    requires forall i :: 0 <= i < |chunks| ==> ProperChunk(chunks[i])
    ensures Leads(role, At(c, RenderChunks(chunks) + rest), At(c, rest))
    decreases |chunks|
  {
    hide ParseNumber, UpTo;
    if chunks == [] {
      assert [] + rest == rest;
    } else {
      var chunk, tail := chunks[0], RenderChunks(chunks[1..]) + rest;
      var afterLine := chunk.data + (CRLF + tail);
      assert RenderChunks(chunks) + rest == chunk.sizeLine + CRLF + afterLine;
      TakeLine(role, c, chunk.sizeLine, afterLine);
      var d := c.(core := c.core.(state := ChunkData, chunkRemaining := |chunk.data|));
      TakeOctets(role, d, chunk.data, CRLF + tail);
      TakeChunkEnd(role, c.Enter(ChunkCrlf), tail);
      TakeChunks(role, c, chunks[1..], rest);
    }
  }

  lemma {:induction false} TakeBody(role: Role, c: Conn, d: Declared, body: BodyText, rest: Bytes)
    requires c.core == FinishHeaders(IDLE.(chunked := d.chunked, contentLength := d.length))
    requires Framed(d, false, body)
    ensures Leads(role, At(c, RenderBody(body) + rest), c.(core := IDLE.(buffer := rest)))
  {
    hide ParseNumber, UpTo;
    match body
    case Plain(octets) =>
      if octets == [] {
        assert [] + rest == rest;
      } else {
        TakeOctets(role, c, octets, rest);
      }
    case Chunked(chunks, lastLine, trailers) =>
      var after := RenderLines(trailers) + rest;
      assert RenderBody(body) + rest == RenderChunks(chunks) + (lastLine + CRLF + after);
      TakeChunks(role, c, chunks, lastLine + CRLF + after);
      TakeLine(role, c, lastLine, after);
      TakeTrailers(role, c.Enter(ChunkTrailer), trailers, rest);
  }

  /** After the start line, a well-formed message brings the parser back to rest. */
  lemma {:induction false} TakeTail(role: Role, c: Conn, m: Message, rest: Bytes)
    requires c.core == IDLE.(state := Headers)
    requires WellFormed(m, role == Response && c.noBody)
    ensures Leads(role, At(c, RenderTail(m) + rest), c.(core := IDLE.(buffer := rest), noBody := false))
  {
    hide ParseHeader, Declares;
    var d := Declares(m.headers, Declared(false, 0)).value;
    var after := RenderBody(m.body) + rest;
    assert RenderTail(m) + rest == RenderLines(m.headers) + after;
    TakeHeaders(role, c, m.headers, after);
    if role == Response && c.noBody {
      assert after == rest;
    } else {
      var e := c.(core := FinishHeaders(IDLE.(chunked := d.chunked, contentLength := d.length)), noBody := false);
      TakeBody(role, e, d, m.body, rest);
    }
  }

  lemma {:induction false} TakeMessage(role: Role, c: Conn, n: Conn, m: Message, rest: Bytes)
    requires c.core == IDLE && OnLine(role, c, m.start) == Next(n) && n.core == IDLE.(state := Headers)
    requires WellFormed(m, role == Response && n.noBody)
    ensures Leads(role, At(c, Render(m) + rest), n.(core := IDLE.(buffer := rest), noBody := false))
    ensures Leads(role, At(c, Render(m) + rest), At(n, RenderTail(m) + rest))
  {
    hide OnLine;
    var tail := RenderTail(m) + rest;
    assert Render(m) + rest == m.start + CRLF + tail;
    OnLineStable(role, c, m.start, tail);
    assert [] + tail == tail;
    assert c.Plus(tail) == At(c, tail) && n.Plus(tail) == At(n, tail);
    TakeLine(role, c, m.start, tail);
    TakeTail(role, n, m, rest);
  }
}
