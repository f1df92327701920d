/** The parsers as objects: they update their buffer, state, queue and receipt. */
module FramingParsers {
  import opened Wrappers
  import opened ByteText
  import opened HttpFraming
  import opened BoundaryReceipt

  class PendingQueue {
    var items: seq<Asked>

    constructor ()
      ensures items == []
    {
      items := [];
    }
  }

  class HTTPFramingParser {
    var buffer: Bytes
    var state: Fsm
    var contentRemaining: nat
    var chunkRemaining: nat
    var chunked: bool
    var contentLength: nat

    constructor ()
      ensures View() == IDLE
    {
      buffer, state, contentRemaining, chunkRemaining := [], Line, 0, 0;
      chunked, contentLength := false, 0;
    }

    function View(): Core
      reads this
    {
      Core(buffer, state, contentRemaining, chunkRemaining, chunked, contentLength)
    }

    /** Take one line, if a whole one has come. */
    method PopLine() returns (line: Option<Bytes>, tooLong: bool)
      modifies `buffer
      ensures var b := old(buffer); var marker := FindCrlf(b);
        if marker < 0 then line == None && buffer == b && tooLong == (|b| > MAX_LINE)
        else !tooLong && line == Some(b[..marker]) && buffer == b[marker + 2..]
    {
      var marker := FindCrlf(buffer);
      if marker < 0 {
        return None, |buffer| > MAX_LINE;
      }
      line, tooLong := Some(buffer[..marker]), false;
      buffer := buffer[marker + 2..];
    }

    /** Consume body bytes; `progress` says whether the feeding loop goes on. */
    method ConsumeBody() returns (progress: bool, bad: bool)
      requires View().Valid() && buffer != []
      modifies this
      ensures View().Valid()
      ensures var c := old(View());
        match c.state
        case Body => progress && !bad && View() == Consume(c)
        case ChunkData => progress && !bad && View() == Consume(c)
        case ChunkCrlf =>
          && progress == (|c.buffer| >= 2 && c.buffer[..2] == CRLF)
          && bad == (|c.buffer| >= 2 && c.buffer[..2] != CRLF)
          && View() == (if progress then c.(buffer := c.buffer[2..], state := ChunkSize) else c)
        case _ => !progress && !bad && View() == c
    {
      progress, bad := false, false;
      if state == Body {
        var consumed := Min(|buffer|, contentRemaining);
        buffer := buffer[consumed..];
        contentRemaining := contentRemaining - consumed;
        if contentRemaining == 0 {
          state := Line;
        }
        progress := consumed > 0;
      } else if state == ChunkData {
        var consumed := Min(|buffer|, chunkRemaining);
        buffer := buffer[consumed..];
        chunkRemaining := chunkRemaining - consumed;
        if chunkRemaining == 0 {
          state := ChunkCrlf;
        }
        progress := consumed > 0;
      } else if state == ChunkCrlf {
        if |buffer| < 2 {
        } else if buffer[..2] != CRLF {
          bad := true;
        } else {
          buffer := buffer[2..];
          state := ChunkSize;
          progress := true;
        }
      }
    }

    method TakeHeader(line: Bytes) returns (ok: bool)
      modifies `chunked, `contentLength
      ensures var d := ParseHeader(line, old(Declared(chunked, contentLength)));
        ok == d.Some? && Declared(chunked, contentLength) == (if ok then d.value else old(Declared(chunked, contentLength)))
    {
      var d := ParseHeader(line, Declared(chunked, contentLength));
      ok := d.Some?;
      if ok {
        chunked, contentLength := d.value.chunked, d.value.length;
      }
    }

    method EndHeaders()
      modifies `state, `contentRemaining, `chunked, `contentLength
      ensures View() == FinishHeaders(old(View()))
    {
      if chunked {
        state := ChunkSize;
      } else if contentLength != 0 {
        contentRemaining := contentLength;
        state := Body;
      } else {
        state := Line;
      }
      chunked, contentLength := false, 0;
    }

    /** A chunk-size line, or a trailer line; the same for both parsers. */
    method TakeChunkLine(line: Bytes) returns (ok: bool)
      requires View().Valid() && state in {ChunkSize, ChunkTrailer}
      modifies `state, `chunkRemaining
      ensures View().Valid()
      ensures forall role: Role, noBody: bool, pending: seq<Asked>, log: Log ::
        OnLine(role, Conn(old(View()), noBody, pending, log), line)
        == var c := Conn(View(), noBody, pending, log); if ok then Next(c) else Fail(BadChunkSize, c)
    {
      ok := true;
      if state == ChunkSize {
        match ParseNumber(UpTo(line, ';'), 16)
        case None => ok := false;
        case Some(size) =>
          if size == 0 {
            state := ChunkTrailer;
          } else {
            chunkRemaining := size;
            state := ChunkData;
          }
      } else if line == [] {
        state := Line;
      }
    }
  }

  class RequestParser {
    const framing: HTTPFramingParser
    const pending: PendingQueue
    const receipt: Receipt

    constructor (receipt: Receipt, pending: PendingQueue)
      ensures this.receipt == receipt && this.pending == pending && fresh(framing)
      ensures framing.View() == IDLE
    {
      this.receipt, this.pending := receipt, pending;
      framing := new HTTPFramingParser();
    }

    ghost function Conn(): Conn
      reads framing, pending, receipt
    {
      HttpFraming.Conn(framing.View(), false, pending.items, receipt.log)
    }

    ghost predicate Valid()
      reads framing, pending, receipt
    {
      framing.View().Valid() && receipt.Valid()
    }

    /** Read the first line of a request. */
    method TakeRequestLine(line: Bytes) returns (error: Option<Error>)
      requires Valid() && framing.state == Line
      modifies framing`state, pending, receipt
      ensures Valid() && receipt.parserErrorCount == old(receipt.parserErrorCount)
      ensures OnRequestLine(old(Conn()), line)
        == match error case None => Next(Conn()) case Some(e) => Fail(e, Conn())
    {
      hide ClassifyPath, SplitTwice, StartsWith, MethodClassOf, PhasesOf, MethodsOf, StatusesOf, ErrorsIn, FirstError, PhaseOfAnswer;
      var parts := SplitTwice(line);
      if |parts| != 3 || !StartsWith(parts[2], "HTTP/1.") {
        return Some(BadStartLine);
      }
      var asked := Asked(ClassifyPath(parts[0], parts[1]), parts[0]);
      receipt.Request(asked);
      if MethodClassOf(parts[0]) != Read {
        receipt.WriteAttempt();
        return Some(WriteAttempted);
      }
      pending.items := pending.items + [asked];
      framing.state := Headers;
      return None;
    }

    method TakeHeaderLine(line: Bytes) returns (error: Option<Error>)
      requires Valid() && framing.state == Headers
      modifies framing
      ensures Valid()
      ensures OnHeaderLine(Request, old(Conn()), line)
        == match error case None => Next(Conn()) case Some(e) => Fail(e, Conn())
    {
      hide ParseHeader;
      error := None;
      if line != [] {
        var ok := framing.TakeHeader(line);
        if !ok {
          error := Some(BadHeader);
        }
      } else {
        framing.EndHeaders();
      }
    }

    /** One turn of the feeding loop. */
    method Turn() returns (more: bool, error: Option<Error>)
      requires Valid() && framing.buffer != []
      modifies framing, pending, receipt
      ensures Valid() && receipt.parserErrorCount == old(receipt.parserErrorCount)
      ensures Step(Request, old(Conn()))
        == if error.Some? then Fail(error.value, Conn()) else if more then Next(Conn()) else Wait
      ensures error == None && !more ==> Conn() == old(Conn())
    {
      hide OnRequestLine, OnHeaderLine, OnChunkSize, OnStatusLine, FindCrlf, ParseNumber, UpTo, Consume,
        PhasesOf, MethodsOf, StatusesOf, ErrorsIn, FirstError, PhaseOfAnswer;
      more, error := true, None;
      var progress, bad := framing.ConsumeBody();
      if bad {
        error := Some(BadChunkFraming);
      } else if !progress {
        var line, tooLong := framing.PopLine();
        if tooLong {
          error := Some(LineTooLong);
        } else if line == None {
          more := false;
        } else if framing.state in {ChunkSize, ChunkTrailer} {
          var ok := framing.TakeChunkLine(line.value);
          error := if ok then None else Some(BadChunkSize);
        } else if framing.state == Line {
          error := TakeRequestLine(line.value);
        } else {
          error := TakeHeaderLine(line.value);
        }
      }
    }

    /** `feed`: the result and the new state are those of `HttpFraming.Feed`. */
    method Feed(data: Bytes) returns (error: Option<Error>)
      requires Valid()
      modifies framing, pending, receipt
      ensures Valid() && receipt.parserErrorCount == old(receipt.parserErrorCount)
      ensures HttpFraming.Feed(Request, old(Conn()), data)
        == match error case None => Ok(Conn()) case Some(e) => Raised(e, Conn())
    {
      hide Step, PhasesOf, MethodsOf, StatusesOf, ErrorsIn, FirstError, PhaseOfAnswer;
      framing.buffer := framing.buffer + data;
      ghost var start := Conn();
      error := None;
      while framing.buffer != []
        invariant Valid() && receipt.parserErrorCount == old(receipt.parserErrorCount)
        invariant Parse(Request, start) == Parse(Request, Conn())
        invariant error == None
        decreases |framing.buffer|
      {
        var more;
        more, error := Turn();
        if error != None || !more {
          return;
        }
      }
    }
  }

  class ResponseParser {
    const framing: HTTPFramingParser
    const pending: PendingQueue
    const receipt: Receipt
    var noBody: bool

    constructor (receipt: Receipt, pending: PendingQueue)
      ensures this.receipt == receipt && this.pending == pending && fresh(framing)
      ensures framing.View() == IDLE && !noBody
    {
      this.receipt, this.pending, noBody := receipt, pending, false;
      framing := new HTTPFramingParser();
    }

    ghost function Conn(): Conn
      reads this, framing, pending, receipt
    {
      HttpFraming.Conn(framing.View(), noBody, pending.items, receipt.log)
    }

    ghost predicate Valid()
      reads framing, pending, receipt
    {
      framing.View().Valid() && receipt.Valid()
    }

    /** Read a status line; it answers the request that has waited longest. */
    method TakeStatusLine(line: Bytes) returns (error: Option<Error>)
      requires Valid() && framing.state == Line
      modifies this`noBody, framing`state, pending, receipt
      ensures Valid() && receipt.parserErrorCount == old(receipt.parserErrorCount)
      ensures OnStatusLine(old(Conn()), line)
        == match error case None => Next(Conn()) case Some(e) => Fail(e, Conn())
    {
      hide ParseNumber, SplitTwice, StartsWith, HasNoBody, PhasesOf, MethodsOf, StatusesOf, ErrorsIn, FirstError, PhaseOfAnswer;
      var parts := SplitTwice(line);
      if |parts| < 2 || !StartsWith(parts[0], "HTTP/1.") {
        return Some(BadStartLine);
      }
      var code := ParseNumber(parts[1], 10);
      if code == None {
        return Some(BadStartLine);
      }
      var asked := None;
      if pending.items != [] {
        asked := Some(pending.items[0]);
        pending.items := pending.items[1..];
      }
      receipt.Response(Answer(asked, code.value));
      noBody := HasNoBody(asked, code.value);
      framing.state := Headers;
      return None;
    }

    method TakeHeaderLine(line: Bytes) returns (error: Option<Error>)
      requires Valid() && framing.state == Headers
      modifies this`noBody, framing
      ensures Valid()
      ensures OnHeaderLine(Response, old(Conn()), line)
        == match error case None => Next(Conn()) case Some(e) => Fail(e, Conn())
    {
      hide ParseHeader;
      error := None;
      if line != [] {
        var ok := framing.TakeHeader(line);
        if !ok {
          error := Some(BadHeader);
        }
      } else {
        if noBody {
          framing.state, framing.chunked, framing.contentLength := Line, false, 0;
        } else {
          framing.EndHeaders();
        }
        noBody := false;
      }
    }

    /** One turn of the feeding loop. */
    method Turn() returns (more: bool, error: Option<Error>)
      requires Valid() && framing.buffer != []
      modifies this, framing, pending, receipt
      ensures Valid() && receipt.parserErrorCount == old(receipt.parserErrorCount)
      ensures Step(Response, old(Conn()))
        == if error.Some? then Fail(error.value, Conn()) else if more then Next(Conn()) else Wait
      ensures error == None && !more ==> Conn() == old(Conn())
    {
      hide OnRequestLine, OnHeaderLine, OnChunkSize, OnStatusLine, FindCrlf, ParseNumber, UpTo, Consume,
        PhasesOf, MethodsOf, StatusesOf, ErrorsIn, FirstError, PhaseOfAnswer;
      more, error := true, None;
      var progress, bad := framing.ConsumeBody();
      if bad {
        error := Some(BadChunkFraming);
      } else if !progress {
        var line, tooLong := framing.PopLine();
        if tooLong {
          error := Some(LineTooLong);
        } else if line == None {
          more := false;
        } else if framing.state in {ChunkSize, ChunkTrailer} {
          var ok := framing.TakeChunkLine(line.value);
          error := if ok then None else Some(BadChunkSize);
        } else if framing.state == Line {
          error := TakeStatusLine(line.value);
        } else {
          error := TakeHeaderLine(line.value);
        }
      }
    }

    /** `feed`: the result and the new state are those of `HttpFraming.Feed`. */
    method Feed(data: Bytes) returns (error: Option<Error>)
      requires Valid()
      modifies this, framing, pending, receipt
      ensures Valid() && receipt.parserErrorCount == old(receipt.parserErrorCount)
      ensures HttpFraming.Feed(Response, old(Conn()), data)
        == match error case None => Ok(Conn()) case Some(e) => Raised(e, Conn())
    {
      hide Step, PhasesOf, MethodsOf, StatusesOf, ErrorsIn, FirstError, PhaseOfAnswer;
      framing.buffer := framing.buffer + data;
      ghost var start := Conn();
      error := None;
      while framing.buffer != []
        invariant Valid() && receipt.parserErrorCount == old(receipt.parserErrorCount)
        invariant Parse(Response, start) == Parse(Response, Conn())
        invariant error == None
        decreases |framing.buffer|
      {
        var more;
        more, error := Turn();
        if error != None || !more {
          return;
        }
      }
    }
  }
}
