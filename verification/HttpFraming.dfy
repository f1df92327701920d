/**
 Incremental HTTP/1.1 framing: what one request or response parser does with
 its buffer, as a function of the parser's state.  Body length follows sections
 6.3 and 7.1 of RFC 9112, except where the program is more permissive.
 */
module HttpFraming {
  import opened Wrappers
  import opened ByteText

  const MAX_LINE := 16384

  datatype Phase =
    | ApiNegotiation | ImageInspect | ImagePull | NetworkInspectReuse
    | VolumeInspect | VolumeCreate | ContainerInspect | ContainerList
    | ContainerCreate | ContainerStart | ContainerLogs | ContainerRemove
    | CleanupApiPhase | UnknownApiPhase

  datatype MethodClass = Read | Write | Delete | Other

  function MethodClassOf(verb: Bytes): MethodClass {
    if verb == "GET" || verb == "HEAD" then Read
    else if verb == "POST" || verb == "PUT" || verb == "PATCH" then Write
    else if verb == "DELETE" then Delete
    else Other
  }

  function SkipDigits(b: Bytes): (r: Bytes)
    ensures |r| <= |b|
  {
    if b != [] && DigitValue(b[0], 10) >= 0 then SkipDigits(b[1..]) else b
  }

  /** What follows a leading `/v<major>[.<minor>]` path segment, if there is one. */
  function AfterApiPrefix(path: Bytes): Option<Bytes> {
    if !StartsWith(path, "/v") then None
    else
      var major := SkipDigits(path[2..]);
      var minor := if StartsWith(major, ".") then SkipDigits(major[1..]) else major;
      var rest := if |minor| + 1 < |major| then minor else major;
      if |major| < |path| - 2 && (rest == [] || rest == "\n" || rest[0] == '/') then Some(rest) else None
  }

  function NormalizePath(target: Bytes): Bytes {
    var path := UpTo(target, '?');
    var rest := match AfterApiPrefix(path) case Some(r) => r case None => path;
    if rest == [] then "/" else rest
  }

  function ClassifyPath(verb: Bytes, target: Bytes): Phase {
    var path := NormalizePath(target);
    var container := StartsWith(path, "/containers/");
    if path == "/_ping" || path == "/version" || path == "/info" then ApiNegotiation
    else if path == "/images/create" then ImagePull
    else if StartsWith(path, "/images/") && EndsWith(path, "/json") then ImageInspect
    else if StartsWith(path, "/networks/") then NetworkInspectReuse
    else if path == "/volumes/create" then VolumeCreate
    else if StartsWith(path, "/volumes/") then VolumeInspect
    else if path == "/containers/create" then ContainerCreate
    else if path == "/containers/json" then ContainerList
    else if container && EndsWith(path, "/start") then ContainerStart
    else if container && EndsWith(path, "/logs") then ContainerLogs
    else if verb == "DELETE" && container then ContainerRemove
    else if container && EndsWith(path, "/json") then ContainerInspect
    else if path == "/containers/prune" then CleanupApiPhase
    else UnknownApiPhase
  }

  /** A request line that was read and waits for its response. */
  datatype Asked = Asked(phase: Phase, verb: Bytes)

  /** A status line, with the request it was attributed to (none if nothing waited). */
  datatype Answer = Answer(asked: Option<Asked>, code: nat)

  /** Everything the parsers ever told the receipt. */
  datatype Log = Log(requests: seq<Asked>, responses: seq<Answer>, writeAttempts: nat)

  datatype Fsm = Line | Headers | Body | ChunkSize | ChunkData | ChunkCrlf | ChunkTrailer

  datatype Core = Core(
    buffer: Bytes, state: Fsm, contentRemaining: nat, chunkRemaining: nat,
    chunked: bool, contentLength: nat)
  {
    predicate Valid() {
      && (state.Body? ==> contentRemaining > 0)
      && (state.ChunkData? ==> chunkRemaining > 0)
    }

    function Plus(data: Bytes): Core {
      this.(buffer := buffer + data)
    }
  }

  const IDLE := Core([], Line, 0, 0, false, 0)

  datatype Role = Request | Response

  /** One parser together with the queue and the receipt it shares with its peer. */
  datatype Conn = Conn(core: Core, noBody: bool, pending: seq<Asked>, log: Log) {
    predicate Valid() {
      core.Valid()
    }

    function Plus(data: Bytes): Conn {
      this.(core := core.Plus(data))
    }

    function Enter(state: Fsm): Conn {
      this.(core := core.(state := state))
    }
  }

  datatype Error =
    | LineTooLong | BadChunkFraming | BadChunkSize | BadHeader | BadStartLine | WriteAttempted

  /** What a call of `feed` leaves behind: either it returned or it raised. */
  datatype Run = Ok(conn: Conn) | Raised(error: Error, conn: Conn)

  datatype StepResult = Wait | Next(conn: Conn) | Fail(error: Error, conn: Conn)

  datatype Declared = Declared(chunked: bool, length: nat)

  /** The effect of one header line on the declared body length. */
  function ParseHeader(line: Bytes, d: Declared): Option<Declared> {
    var i := IndexOf(line, ':');
    if i < 0 then None
    else
      var name, value := Lower(Strip(line[..i])), Lower(Strip(line[i + 1..]));
      if name == "content-length" then
        match ParseNumber(value, 10)
        case None => None
        case Some(n) => Some(d.(length := n))
      else if name == "transfer-encoding" && Contains(value, "chunked") then Some(d.(chunked := true))
      else Some(d)
  }

  function FinishHeaders(c: Core): (r: Core)
    ensures r.Valid() && r.buffer == c.buffer
  {
    var done := c.(chunked := false, contentLength := 0);
    if c.chunked then done.(state := ChunkSize)
    else if c.contentLength != 0 then done.(state := Body, contentRemaining := c.contentLength)
    else done.(state := Line)
  }

  function OnRequestLine(c: Conn, line: Bytes): (s: StepResult)
    requires c.Valid()
    ensures s.Next? ==> s.conn.Valid() && s.conn.core.buffer == c.core.buffer
    ensures s.Fail? ==> s.conn.core == c.core
  {
    var parts := SplitTwice(line);
    if |parts| != 3 || !StartsWith(parts[2], "HTTP/1.") then Fail(BadStartLine, c)
    else
      var asked := Asked(ClassifyPath(parts[0], parts[1]), parts[0]);
      var seen := c.(log := c.log.(requests := c.log.requests + [asked]));
      if MethodClassOf(parts[0]) != Read then
        Fail(WriteAttempted, seen.(log := seen.log.(writeAttempts := seen.log.writeAttempts + 1)))
      else Next(seen.(pending := seen.pending + [asked]).Enter(Headers))
  }

  predicate HasNoBody(asked: Option<Asked>, code: nat) {
    (asked.Some? && asked.value.verb == "HEAD") || code == 204 || code == 304 || 100 <= code < 200
  }

  function OnStatusLine(c: Conn, line: Bytes): (s: StepResult)
    requires c.Valid()
    ensures s.Next? ==> s.conn.Valid() && s.conn.core.buffer == c.core.buffer
    ensures s.Fail? ==> s.conn.core == c.core
  {
    var parts := SplitTwice(line);
    if |parts| < 2 || !StartsWith(parts[0], "HTTP/1.") then Fail(BadStartLine, c)
    else match ParseNumber(parts[1], 10)
      case None => Fail(BadStartLine, c)
      case Some(code) =>
        var asked := if c.pending == [] then None else Some(c.pending[0]);
        Next(c.(
          pending := if c.pending == [] then [] else c.pending[1..],
          log := c.log.(responses := c.log.responses + [Answer(asked, code)]),
          noBody := HasNoBody(asked, code)).Enter(Headers))
  }

  function OnHeaderLine(role: Role, c: Conn, line: Bytes): (s: StepResult)
    requires c.Valid()
    ensures s.Next? ==> s.conn.Valid() && s.conn.core.buffer == c.core.buffer
    ensures s.Fail? ==> s.conn.core == c.core
  {
    if line != [] then
      match ParseHeader(line, Declared(c.core.chunked, c.core.contentLength))
      case None => Fail(BadHeader, c)
      case Some(d) => Next(c.(core := c.core.(chunked := d.chunked, contentLength := d.length)))
    else if role == Response && c.noBody then
      Next(c.(core := c.core.(state := Line, chunked := false, contentLength := 0), noBody := false))
    else Next(c.(core := FinishHeaders(c.core), noBody := false))
  }

  function OnChunkSize(c: Conn, line: Bytes): (s: StepResult)
    requires c.Valid()
    ensures s.Next? ==> s.conn.Valid() && s.conn.core.buffer == c.core.buffer
    ensures s.Fail? ==> s.conn.core == c.core
  {
    match ParseNumber(UpTo(line, ';'), 16)
    case None => Fail(BadChunkSize, c)
    case Some(n) =>
      if n == 0 then Next(c.Enter(ChunkTrailer))
      else Next(c.(core := c.core.(state := ChunkData, chunkRemaining := n)))
  }

  function OnLine(role: Role, c: Conn, line: Bytes): (s: StepResult)
    requires c.Valid() && c.core.state !in {Body, ChunkData, ChunkCrlf}
    ensures !s.Wait?
    ensures s.Next? ==> s.conn.Valid() && s.conn.core.buffer == c.core.buffer
    ensures s.Fail? ==> s.conn.core == c.core
  {
    match c.core.state
    case ChunkSize => OnChunkSize(c, line)
    case ChunkTrailer => Next(if line == [] then c.Enter(Line) else c)
    case Line => if role == Request then OnRequestLine(c, line) else OnStatusLine(c, line)
    case Headers => OnHeaderLine(role, c, line)
  }

  function Min(a: nat, b: nat): nat {
    if a <= b then a else b
  }

  /** Consume as much of a sized body, or of a chunk, as the buffer holds. */
  function Consume(c: Core): (r: Core)
    requires c.Valid() && c.state in {Body, ChunkData} && c.buffer != []
    ensures r.Valid() && |r.buffer| < |c.buffer|
  {
    if c.state.Body? then
      var n := Min(|c.buffer|, c.contentRemaining);
      var rest := c.contentRemaining - n;
      c.(buffer := c.buffer[n..], contentRemaining := rest, state := if rest == 0 then Line else Body)
    else
      var n := Min(|c.buffer|, c.chunkRemaining);
      var rest := c.chunkRemaining - n;
      c.(buffer := c.buffer[n..], chunkRemaining := rest, state := if rest == 0 then ChunkCrlf else ChunkData)
  }

  /** One turn of the feeding loop; the buffer is not empty. */
  function Step(role: Role, c: Conn): (s: StepResult)
    requires c.Valid() && c.core.buffer != []
    ensures s.Next? ==> s.conn.Valid() && |s.conn.core.buffer| < |c.core.buffer|
    ensures s.Fail? ==> s.conn.Valid()
  {
    var core := c.core;
    if core.state in {Body, ChunkData} then Next(c.(core := Consume(core)))
    else if core.state == ChunkCrlf then
      if |core.buffer| < 2 then Wait
      else if core.buffer[..2] != CRLF then Fail(BadChunkFraming, c)
      else Next(c.(core := core.(buffer := core.buffer[2..], state := ChunkSize)))
    else
      var marker := FindCrlf(core.buffer);
      if marker < 0 then
        if |core.buffer| > MAX_LINE then Fail(LineTooLong, c) else Wait
      else
        OnLine(role, c.(core := core.(buffer := core.buffer[marker + 2..])), core.buffer[..marker])
  }

  /** Turn the loop until the buffer is empty, more bytes are needed, or it raises. */
  function Parse(role: Role, c: Conn): (r: Run)
    requires c.Valid()
    ensures r.conn.Valid()
    decreases |c.core.buffer|
  {
    if c.core.buffer == [] then Ok(c)
    else match Step(role, c)
      case Wait => Ok(c)
      case Next(n) => Parse(role, n)
      case Fail(e, n) => Raised(e, n)
  }

  /** `feed(data)` */
  function Feed(role: Role, c: Conn, data: Bytes): (r: Run)
    requires c.Valid()
    ensures r.conn.Valid()
  {
    Parse(role, c.Plus(data))
  }

  /** Feed fragments in turn, stopping at the first one that raises. */
  function FeedAll(role: Role, c: Conn, fragments: seq<Bytes>): (r: Run)
    requires c.Valid()
    ensures r.conn.Valid()
    decreases |fragments|
  {
    if fragments == [] then Ok(c)
    else
      var first := Feed(role, c, fragments[0]);
      if first.Ok? then FeedAll(role, first.conn, fragments[1..]) else first
  }

  function Concat(fragments: seq<Bytes>): Bytes {
    if fragments == [] then [] else fragments[0] + Concat(fragments[1..])
  }
}
