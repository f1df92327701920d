/**
 The relay of the default mode: it shows every fragment to a parser, forwards it
 unchanged, and stops in front of the fragment that completes a request line
 whose method is not GET or HEAD.
 */
module ReadOnlyRelay {
  import opened Wrappers
  import opened ByteText
  import opened HttpFraming
  import opened FramingLaws
  import opened FramingRoundTrip
  import opened FramingPairing
  import opened BoundaryReceipt
  import opened FramingParsers

  datatype Relayed = Relayed(forwarded: Bytes, stopped: bool, conn: Conn, parserErrors: nat)

  /** What becomes of the fragments a client sends, after `sent` was forwarded. */
  function RelayFrom(sent: Bytes, parserErrors: nat, c: Conn, fragments: seq<Bytes>): (r: Relayed)
    requires c.Valid()
    ensures r.conn.Valid() && r.parserErrors >= parserErrors
    decreases |fragments|
  {
    if fragments == [] then Relayed(sent, false, c, parserErrors)
    else
      var first := Feed(Request, c, fragments[0]);
      if first.Raised? && first.error == WriteAttempted then Relayed(sent, true, first.conn, parserErrors)
      else RelayFrom(
        sent + fragments[0], parserErrors + if first.Raised? then 1 else 0, first.conn, fragments[1..])
  }

  lemma {:induction false} RelayOne(sent: Bytes, parserErrors: nat, c: Conn, fragments: seq<Bytes>)
    requires c.Valid() && fragments != []
    ensures var first := Feed(Request, c, fragments[0]);
      RelayFrom(sent, parserErrors, c, fragments) ==
      if first.Raised? && first.error == WriteAttempted then Relayed(sent, true, first.conn, parserErrors)
      else RelayFrom(
        sent + fragments[0], parserErrors + if first.Raised? then 1 else 0, first.conn, fragments[1..])
  {
  }

  lemma {:induction false} RelayNone(sent: Bytes, parserErrors: nat, c: Conn)
    requires c.Valid()
    ensures RelayFrom(sent, parserErrors, c, []) == Relayed(sent, false, c, parserErrors)
  {
  }

  function RelayAll(c: Conn, fragments: seq<Bytes>): (r: Relayed)
    requires c.Valid()
    ensures r.conn.Valid()
  {
    RelayFrom([], 0, c, fragments)
  }

  class BoundaryServer {
    const receipt: Receipt

    constructor (receipt: Receipt)
      ensures this.receipt == receipt
    {
      this.receipt := receipt;
    }

    /** `relay` from the client to the daemon. */
    method RelayRequests(parser: RequestParser, fragments: seq<Bytes>) returns (forwarded: Bytes, stopped: bool)
      requires parser.Valid() && parser.receipt == receipt
      modifies parser.framing, parser.pending, receipt
      ensures parser.Valid() && receipt.parserErrorCount >= old(receipt.parserErrorCount)
      ensures RelayAll(old(parser.Conn()), fragments)
        == Relayed(forwarded, stopped, parser.Conn(), receipt.parserErrorCount - old(receipt.parserErrorCount))
    {
      hide Feed, Parse, RelayFrom, ErrorsIn, FirstError, PhasesOf, MethodsOf, StatusesOf;
      ghost var all := RelayAll(parser.Conn(), fragments);
      ghost var errors := 0;
      forwarded, stopped := [], false;
      var i := 0;
      while i < |fragments|
        invariant 0 <= i <= |fragments| && parser.Valid()
        invariant receipt.parserErrorCount == old(receipt.parserErrorCount) + errors
        invariant all == RelayFrom(forwarded, errors, parser.Conn(), fragments[i..])
      {
        assert fragments[i..][1..] == fragments[i + 1..];
        RelayOne(forwarded, errors, parser.Conn(), fragments[i..]);
        var error := parser.Feed(fragments[i]);
        if error == Some(WriteAttempted) {
          stopped := true;
          return;
        }
        if error != None {
          receipt.ParserError();
          errors := errors + 1;
        }
        forwarded := forwarded + fragments[i];
        i := i + 1;
      }
      assert fragments[i..] == [];
      RelayNone(forwarded, errors, parser.Conn());
    }
  }

  ghost predicate AllRead(requests: seq<Asked>) {
    forall i :: 0 <= i < |requests| ==> MethodClassOf(requests[i].verb) == Read
  }

  lemma {:induction false} LineStepReads(c: Conn)
    requires c.Valid() && c.core.buffer != [] && Step(Request, c).Next? && AllRead(c.log.requests)
    ensures AllRead(Step(Request, c).conn.log.requests)
  {
    hide ClassifyPath, SplitTwice, FindCrlf, OnHeaderLine, OnChunkSize, OnStatusLine, Consume, ParseNumber, UpTo;
    if c.core.state != Line {
      QuietStep(Request, c, [], NO_LOG);
    }
  }

  /** A parser that raised nothing has read only GET and HEAD request lines. */
  lemma {:induction false} ParsedRequestsAreReads(c: Conn)
    requires c.Valid() && Parse(Request, c).Ok? && AllRead(c.log.requests)
    ensures AllRead(Parse(Request, c).conn.log.requests)
    decreases |c.core.buffer|
  {
    hide Step;
    if c.core.buffer != [] && Step(Request, c).Next? {
      LineStepReads(c);
      ParsedRequestsAreReads(Step(Request, c).conn);
    }
  }

  /** Without parser errors, what is forwarded is the fragments before the one
      that attempts a write, or all of them. */
  lemma {:induction false} RelayedPrefix(sent: Bytes, c: Conn, fragments: seq<Bytes>) returns (n: nat)
    requires c.Valid() && RelayFrom(sent, 0, c, fragments).parserErrors == 0
    ensures n <= |fragments| && FeedAll(Request, c, fragments[..n]).Ok?
    ensures var r := RelayFrom(sent, 0, c, fragments);
      && r.forwarded == sent + Concat(fragments[..n])
      && (!r.stopped ==> n == |fragments|)
      && (r.stopped ==>
            && n < |fragments|
            && Feed(Request, FeedAll(Request, c, fragments[..n]).conn, fragments[n])
               == Raised(WriteAttempted, r.conn))
    decreases |fragments|
  {
    hide Feed;
    n := 0;
    if fragments != [] {
      var first := Feed(Request, c, fragments[0]);
      if !(first.Raised? && first.error == WriteAttempted) {
        var k := RelayedPrefix(sent + fragments[0], first.conn, fragments[1..]);
        n := k + 1;
        assert fragments[..n][1..] == fragments[1..][..k] && fragments[..n][0] == fragments[0];
      }
    }
  }

  /** Read-only relay: on a fresh connection without parser errors, the bytes that
      went upstream, parsed again in one piece, hold only GET and HEAD requests;
      and a write request is not among them, not even with its last byte missing:
      one more fragment is what completes its request line. */
  lemma {:induction false} ForwardedBytesAreReadOnly(c: Conn, fragments: seq<Bytes>)
    requires c.core == IDLE && !c.noBody && AllRead(c.log.requests) && RelayAll(c, fragments).parserErrors == 0
    ensures var r := RelayAll(c, fragments);
      && Feed(Request, c, r.forwarded).Ok?
      && AllRead(Feed(Request, c, r.forwarded).conn.log.requests)
      && Feed(Request, c, r.forwarded).conn.log.writeAttempts == c.log.writeAttempts
      && r.forwarded <= Concat(fragments)
      && (r.stopped ==>
            (exists last ::
              && r.forwarded + last <= Concat(fragments)
              && Feed(Request, c, r.forwarded + last) == Raised(WriteAttempted, r.conn)))
      && (!r.stopped ==> r.forwarded == Concat(fragments))
  {
    hide Step;
    var r := RelayAll(c, fragments);
    var n := RelayedPrefix([], c, fragments);
    assert [] + Concat(fragments[..n]) == Concat(fragments[..n]);
    var whole := FeedAll(Request, c, fragments[..n]);
    FragmentationIndependence(Request, c, fragments[..n], []);
    assert r.forwarded + [] == r.forwarded;
    FeedAllSettles(Request, c, fragments[..n]);
    assert whole.conn.Plus([]) == whole.conn;
    assert Feed(Request, c, r.forwarded) == Ok(whole.conn);
    ParsedRequestsAreReads(c.Plus(r.forwarded));
    ParseProgress(Request, c.Plus(r.forwarded));
    ConcatPrefix(fragments, n);
    if r.stopped {
      FragmentationIndependence(Request, c, fragments[..n], fragments[n]);
      ConcatPrefix(fragments, n + 1);
      ConcatSnoc(fragments, n);
    } else {
      assert fragments[..n] == fragments;
    }
  }

  lemma {:induction false} FeedAllSettles(role: Role, c: Conn, fragments: seq<Bytes>)
    requires c.Valid() && Parse(role, c) == Ok(c) && FeedAll(role, c, fragments).Ok?
    ensures Parse(role, FeedAll(role, c, fragments).conn) == FeedAll(role, c, fragments)
    decreases |fragments|
  {
    hide Step;
    if fragments != [] {
      ParseSettles(role, c.Plus(fragments[0]));
      FeedAllSettles(role, Feed(role, c, fragments[0]).conn, fragments[1..]);
    }
  }

  lemma {:induction false} ConcatPrefix(fragments: seq<Bytes>, n: nat)
    requires n <= |fragments|
    ensures Concat(fragments[..n]) <= Concat(fragments)
    decreases n
  {
    if n > 0 {
      ConcatPrefix(fragments[1..], n - 1);
      assert fragments[..n][1..] == fragments[1..][..n - 1];
    }
  }

  lemma {:induction false} ConcatSnoc(fragments: seq<Bytes>, n: nat)
    requires n < |fragments|
    ensures Concat(fragments[..n + 1]) == Concat(fragments[..n]) + fragments[n]
    decreases n
  {
    assert fragments[..n + 1][1..] == fragments[1..][..n];
    if n > 0 {
      ConcatSnoc(fragments[1..], n - 1);
      assert fragments[..n][1..] == fragments[1..][..n - 1];
    } else {
      assert fragments[..1][1..] == [];
    }
  }

  // ----- after a parser error -----

  /** The parser has come upon a chunk that does not end where it should. */
  predicate AtBadChunkEnd(c: Conn) {
    c.Valid() && c.core.state == ChunkCrlf && |c.core.buffer| >= 2 && c.core.buffer[..2] != CRLF
  }

  /** From there on it raises the same error on everything, takes nothing out of its buffer,
      and the relay forwards whatever comes. */
  lemma {:induction false} NothingStopsABadChunk(sent: Bytes, parserErrors: nat, c: Conn, fragments: seq<Bytes>)
    requires AtBadChunkEnd(c)
    ensures RelayFrom(sent, parserErrors, c, fragments)
      == Relayed(sent + Concat(fragments), false, c.Plus(Concat(fragments)), parserErrors + |fragments|)
    decreases |fragments|
  {
    if fragments == [] {
      RelayNone(sent, parserErrors, c);
      assert sent + [] == sent && c.core.buffer + [] == c.core.buffer;
    } else {
      var first := fragments[0];
      var n := c.Plus(first);
      assert n.core.buffer[..2] == c.core.buffer[..2];
      assert Feed(Request, c, first) == Raised(BadChunkFraming, n);
      RelayOne(sent, parserErrors, c, fragments);
      NothingStopsABadChunk(sent + first, parserErrors + 1, n, fragments[1..]);
      PlusPlus(c, first, Concat(fragments[1..]));
      assert sent + first + Concat(fragments[1..]) == sent + Concat(fragments);
    }
  }

  /** A GET or HEAD request whose first chunk has its size line, its data and a bad end. */
  ghost predicate BadRequest(start: Bytes, headers: seq<Bytes>, chunk: Chunk, end: Bytes) {
    && AskedOf(start).Some? && ProperLine(start) && ProperLines(headers) && ProperChunk(chunk)
    && Declares(headers, Declared(false, 0)).Some? && Declares(headers, Declared(false, 0)).value.chunked
    && |end| >= 2 && end[..2] != CRLF
  }

  function BadText(start: Bytes, headers: seq<Bytes>, chunk: Chunk, end: Bytes): Bytes {
    start + CRLF + (RenderLines(headers) + (chunk.sizeLine + CRLF + (chunk.data + end)))
  }

  lemma {:induction false} BadRequestEndsThere(
    c: Conn, start: Bytes, headers: seq<Bytes>, chunk: Chunk, end: Bytes) returns (n: Conn)
    requires BadRequest(start, headers, chunk, end) && c.core == IDLE && !c.noBody
    ensures AtBadChunkEnd(n) && n.core.buffer == end && n.log.writeAttempts == c.log.writeAttempts
    ensures Feed(Request, c, BadText(start, headers, chunk, end)) == Raised(BadChunkFraming, n)
  {
    hide OnLine, Parse, LinesShort, ParseNumber, Declares, UpTo, AskedOf, RenderLines;
    var after := chunk.data + end;
    var body := chunk.sizeLine + CRLF + after;
    var tail := RenderLines(headers) + body;
    var asked := AskedOf(start).value;
    var h := Conn(IDLE.(state := Headers), false, c.pending + [asked], c.log.(requests := c.log.requests + [asked]));
    OnRequestStart(c, start, asked);
    assert c.Plus(BadText(start, headers, chunk, end)) == At(c, start + CRLF + tail) by {
      assert [] + (start + CRLF + tail) == start + CRLF + tail;
    }
    OnLineStable(Request, c, start, tail);
    assert c.Plus(tail) == At(c, tail) && h.Plus(tail) == At(h, tail) by {
      assert [] + tail == tail;
    }
    TakeLine(Request, c, start, tail);
    TakeHeaders(Request, h, headers, body);
    n := InFirstChunk(h, headers, chunk, end);
    assert Parse(Request, At(h, tail)) == Raised(BadChunkFraming, n);
  }

  /** From the headers to the bad end. */
  lemma {:induction false} InFirstChunk(h: Conn, headers: seq<Bytes>, chunk: Chunk, end: Bytes) returns (n: Conn)
    requires h.core == IDLE.(state := Headers) && !h.noBody && ProperLines(headers) && ProperChunk(chunk)
    requires Declares(headers, Declared(false, 0)).Some? && Declares(headers, Declared(false, 0)).value.chunked
    requires |end| >= 2 && end[..2] != CRLF
    ensures AtBadChunkEnd(n) && n.core.buffer == end && n.log == h.log
    ensures Parse(Request, At(h, RenderLines(headers) + (chunk.sizeLine + CRLF + (chunk.data + end))))
      == Raised(BadChunkFraming, n)
  {
    hide LinesShort, ParseNumber, Declares, UpTo, RenderLines, FindCrlf;
    var after := chunk.data + end;
    var body := chunk.sizeLine + CRLF + after;
    TakeHeaders(Request, h, headers, body);
    var d := Declares(headers, Declared(false, 0)).value;
    var sized := h.(core := IDLE.(state := ChunkSize));
    var last := At(h.(core := h.core.(chunked := d.chunked, contentLength := d.length)), body);
    assert OnHeaderLine(Request, last, []).conn == At(sized, body);
    TakeLine(Request, sized, chunk.sizeLine, after);
    var data := sized.(core := sized.core.(state := ChunkData, chunkRemaining := |chunk.data|));
    assert OnLine(Request, At(sized, after), chunk.sizeLine).conn == At(data, after);
    TakeOctets(Request, data, chunk.data, end);
    n := At(sized.(core := sized.core.(state := ChunkCrlf)), end);
    assert Step(Request, n) == Fail(BadChunkFraming, n);
  }

  /** For every such request: whatever the client sends after it is forwarded, a writing
      request too, and the parser errors are all that shows. */
  lemma {:induction false} BadChunkLetsWritesPass(
    c: Conn, start: Bytes, headers: seq<Bytes>, chunk: Chunk, end: Bytes, later: seq<Bytes>)
    requires BadRequest(start, headers, chunk, end) && c.core == IDLE && !c.noBody
    ensures
      var r := RelayAll(c, [BadText(start, headers, chunk, end)] + later);
      && !r.stopped && r.forwarded == BadText(start, headers, chunk, end) + Concat(later)
      && r.parserErrors == 1 + |later| && r.conn.log.writeAttempts == c.log.writeAttempts
  {
    hide Feed, Concat, RelayFrom, BadRequest;
    var text := BadText(start, headers, chunk, end);
    var n := BadRequestEndsThere(c, start, headers, chunk, end);
    var all := [text] + later;
    assert all[0] == text && all[1..] == later;
    RelayOne([], 0, c, all);
    assert [] + text == text;
    NothingStopsABadChunk(text, 1, n, later);
  }
}
