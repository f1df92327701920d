/**
 The two parsers of a connection share a queue: the request parser adds to it,
 the response parser takes from it.  Neither the fragments nor the order in
 which the two directions are fed change what is read, as long as no response
 line is read before the line of its request.
 */
module FramingPairing {
  import opened Wrappers
  import opened ByteText
  import opened HttpFraming
  import opened FramingLaws
  import opened FramingRoundTrip

  const NO_LOG := Log([], [], 0)

  /** A connection: both parsers, the queue between them and the log they write. */
  datatype Wire = Wire(client: Core, daemon: Core, noBody: bool, pending: seq<Asked>, log: Log) {
    predicate Valid() {
      client.Valid() && daemon.Valid()
    }

    function ClientSide(): Conn {
      Conn(client, false, pending, log)
    }

    function DaemonSide(): Conn {
      Conn(daemon, noBody, pending, log)
    }
  }

  const FRESH := Wire(IDLE, IDLE, false, [], NO_LOG)

  datatype Event = FromClient(data: Bytes) | FromDaemon(data: Bytes)

  /** The connection after an event, unless a parser raised. */
  function Apply(w: Wire, e: Event): (r: Option<Wire>)
    requires w.Valid()
    ensures r.Some? ==> r.value.Valid()
  {
    match e
    case FromClient(data) =>
      var r := Feed(Request, w.ClientSide(), data);
      if r.Ok? then Some(w.(client := r.conn.core, pending := r.conn.pending, log := r.conn.log)) else None
    case FromDaemon(data) =>
      var r := Feed(Response, w.DaemonSide(), data);
      if r.Ok? then
        Some(w.(daemon := r.conn.core, noBody := r.conn.noBody, pending := r.conn.pending, log := r.conn.log))
      else None
  }

  function Play(events: seq<Event>): (r: Option<Wire>)
    ensures r.Some? ==> r.value.Valid()
  {
    if events == [] then Some(FRESH)
    else
      var n := |events| - 1;
      var before := Play(events[..n]);
      if before.Some? then Apply(before.value, events[n]) else None
  }

  function ClientBytes(events: seq<Event>): Bytes {
    if events == [] then []
    else
      var n := |events| - 1;
      ClientBytes(events[..n]) + (if events[n].FromClient? then events[n].data else [])
  }

  function DaemonBytes(events: seq<Event>): Bytes {
    if events == [] then []
    else
      var n := |events| - 1;
      DaemonBytes(events[..n]) + (if events[n].FromDaemon? then events[n].data else [])
  }

  predicate Attributed(log: Log) {
    forall i :: 0 <= i < |log.responses| ==> log.responses[i].asked.Some?
  }

  /** What a parser may do to the queue and the log, and in which order. */
  ghost predicate Progress(role: Role, c: Conn, r: Conn) {
    && r.log.writeAttempts == c.log.writeAttempts
    && if role == Request then
      && r.log.responses == c.log.responses
      && c.log.requests <= r.log.requests
      && r.pending == c.pending + r.log.requests[|c.log.requests|..]
      && (!c.noBody ==> !r.noBody)
    else
      && r.log.requests == c.log.requests
      && c.log.responses <= r.log.responses
      && var j := |r.log.responses| - |c.log.responses|;
        && r.pending == (if j <= |c.pending| then c.pending[j..] else [])
        && (forall i :: 0 <= i < j ==>
              r.log.responses[|c.log.responses| + i].asked == Front(c.pending, i))
  }

  function Front(pending: seq<Asked>, i: nat): Option<Asked> {
    if i < |pending| then Some(pending[i]) else None
  }

  lemma {:induction false} ProgressTransitive(role: Role, a: Conn, b: Conn, c: Conn)
    requires Progress(role, a, b) && Progress(role, b, c)
    ensures Progress(role, a, c)
  {
    if role == Response {
      var n, j := |a.log.responses|, |b.log.responses| - |a.log.responses|;
      forall i | 0 <= i < |c.log.responses| - n
        ensures c.log.responses[n + i].asked == Front(a.pending, i)
      {
        if i < j {
          assert c.log.responses[n + i] == b.log.responses[n + i];
        } else {
          assert c.log.responses[|b.log.responses| + (i - j)].asked == Front(b.pending, i - j);
        }
      }
    }
  }

  /** The same parser in front of another queue and another log. */
  function Rebase(c: Conn, pending: seq<Asked>, log: Log): Conn {
    c.(pending := pending, log := log)
  }

  /** Only start lines touch the queue and the log. */
  lemma {:induction false} QuietStep(role: Role, c: Conn, pending: seq<Asked>, log: Log)
    requires c.Valid() && c.core.buffer != []
    requires Step(role, c).Wait? || (Step(role, c).Next? && c.core.state != Line)
    ensures match Step(role, c)
      case Wait => Step(role, Rebase(c, pending, log)) == Wait
      case Next(n) =>
        && n.pending == c.pending && n.log == c.log && (c.noBody || !n.noBody)
        && Step(role, Rebase(c, pending, log)) == Next(Rebase(n, pending, log))
  {
    hide ParseHeader, OnRequestLine, OnStatusLine, ParseNumber, UpTo, FindCrlf, Consume, FinishHeaders;
  }

  lemma {:induction false} RequestLineStep(c: Conn, pending: seq<Asked>, log: Log)
    requires c.Valid() && c.core.buffer != [] && c.core.state == Line && Step(Request, c).Next?
    ensures var n := Step(Request, c).conn;
      && n.log.requests != [] && n.noBody == c.noBody
      && var asked := n.log.requests[|n.log.requests| - 1];
        && n.log == c.log.(requests := c.log.requests + [asked]) && n.pending == c.pending + [asked]
        && Step(Request, Rebase(c, pending, log))
           == Next(Rebase(n, pending + [asked], log.(requests := log.requests + [asked])))
  {
    hide ClassifyPath, SplitTwice, FindCrlf, OnHeaderLine, OnChunkSize, OnStatusLine;
  }

  lemma {:induction false} StatusLineStep(c: Conn, pending: seq<Asked>, requests: seq<Asked>)
    requires c.Valid() && c.core.buffer != [] && c.core.state == Line && Step(Response, c).Next?
    ensures var n := Step(Response, c).conn;
      && n.log.responses != []
      && var answer := n.log.responses[|n.log.responses| - 1];
        && n.log == c.log.(responses := c.log.responses + [answer])
        && answer.asked == Front(c.pending, 0)
        && n.pending == (if c.pending == [] then [] else c.pending[1..])
        && (Front(pending, 0) == Front(c.pending, 0) ==>
              Step(Response, Rebase(c, pending, c.log.(requests := requests)))
              == Next(Rebase(n, if pending == [] then [] else pending[1..], n.log.(requests := requests))))
  {
    hide ClassifyPath, SplitTwice, ParseNumber, FindCrlf, OnHeaderLine, OnChunkSize, OnRequestLine, HasNoBody;
  }

  lemma {:induction false} StepProgress(role: Role, c: Conn)
    requires c.Valid() && c.core.buffer != [] && Step(role, c).Next?
    ensures Progress(role, c, Step(role, c).conn)
  {
    hide Step;
    if c.core.state != Line {
      QuietStep(role, c, [], NO_LOG);
    } else if role == Request {
      RequestLineStep(c, [], NO_LOG);
    } else {
      StatusLineStep(c, [], []);
    }
  }

  lemma {:induction false} ParseProgress(role: Role, c: Conn)
    requires c.Valid() && Parse(role, c).Ok?
    ensures Progress(role, c, Parse(role, c).conn)
    decreases |c.core.buffer|
  {
    hide Step;
    if c.core.buffer != [] && Step(role, c).Next? {
      StepProgress(role, c);
      ParseProgress(role, Step(role, c).conn);
      ProgressTransitive(role, c, Step(role, c).conn, Parse(role, c).conn);
    }
  }

  /** The request lines that a call of the request parser read. */
  function ReadBy(c: Conn, r: Conn): seq<Asked>
    requires c.log.requests <= r.log.requests
  {
    r.log.requests[|c.log.requests|..]
  }

  /** A request parser does not look at the queue or at earlier log entries. */
  lemma {:induction false} RequestFrame(c: Conn, pending: seq<Asked>, log: Log)
    requires c.Valid() && Parse(Request, c).Ok?
    ensures c.log.requests <= Parse(Request, c).conn.log.requests
    ensures var r := Parse(Request, c).conn;
      Parse(Request, Rebase(c, pending, log))
      == Ok(Rebase(r, pending + ReadBy(c, r), log.(requests := log.requests + ReadBy(c, r))))
    decreases |c.core.buffer|
  {
    hide Step;
    ParseProgress(Request, c);
    if c.core.buffer != [] {
      if Step(Request, c).Wait? || c.core.state != Line {
        QuietStep(Request, c, pending, log);
      }
      if Step(Request, c).Next? {
        var n := Step(Request, c).conn;
        ParseProgress(Request, n);
        if c.core.state == Line {
          RequestLineStep(c, pending, log);
          var asked := n.log.requests[|n.log.requests| - 1];
          RequestFrame(n, pending + [asked], log.(requests := log.requests + [asked]));
          assert ReadBy(c, Parse(Request, c).conn) == [asked] + ReadBy(n, Parse(Request, c).conn);
        } else {
          RequestFrame(n, pending, log);
        }
      }
    }
  }

  function Growth(c: Conn, r: Conn): int {
    |r.log.responses| - |c.log.responses|
  }

  /** A response parser only looks at as much of the queue as it takes. */
  lemma {:induction false} ResponseFrame(c: Conn, pending: seq<Asked>, requests: seq<Asked>)
    requires c.Valid() && Parse(Response, c).Ok?
    requires var j := Growth(c, Parse(Response, c).conn);
      0 <= j <= |c.pending| && j <= |pending| && pending[..j] == c.pending[..j]
    ensures var r := Parse(Response, c).conn;
      Parse(Response, Rebase(c, pending, c.log.(requests := requests)))
      == Ok(Rebase(r, pending[Growth(c, r)..], r.log.(requests := requests)))
    decreases |c.core.buffer|
  {
    hide Step;
    ParseProgress(Response, c);
    if c.core.buffer != [] {
      if Step(Response, c).Wait? || c.core.state != Line {
        QuietStep(Response, c, pending, c.log.(requests := requests));
      }
      if Step(Response, c).Next? {
        var n, r := Step(Response, c).conn, Parse(Response, c).conn;
        ParseProgress(Response, n);
        if c.core.state == Line {
          StatusLineStep(c, pending, requests);
          assert Growth(c, r) == 1 + Growth(n, r);
          assert pending[0] == pending[..Growth(c, r)][0] == c.pending[0];
          assert pending[1..][..Growth(n, r)] == pending[..Growth(c, r)][1..];
          assert c.pending[1..][..Growth(n, r)] == c.pending[..Growth(c, r)][1..];
          ResponseFrame(n, pending[1..], requests);
        } else {
          ResponseFrame(n, pending, requests);
        }
      }
    }
  }

  lemma {:induction false} AttributedTakesNoMore(c: Conn, r: Conn)
    requires Progress(Response, c, r) && Attributed(r.log)
    ensures 0 <= Growth(c, r) <= |c.pending| && Attributed(c.log)
  {
    var n := |c.log.responses|;
    var k := |c.pending|;
    assert k < Growth(c, r) ==> r.log.responses[n + k].asked == Front(c.pending, k);
    forall i | 0 <= i < n ensures c.log.responses[i].asked.Some? {
      assert c.log.responses[i] == r.log.responses[i];
    }
  }

  /** All client bytes in one piece, then all daemon bytes in one piece. */
  function Serial(client: Bytes, daemon: Bytes): Option<Wire> {
    match Apply(FRESH, FromClient(client))
    case None => None
    case Some(w) => Apply(w, FromDaemon(daemon))
  }

  /** A client event commutes with an earlier daemon event. */
  lemma {:induction false} ClientFirst(u: Wire, daemon: Bytes, data: Bytes)
    requires u.Valid() && Apply(u, FromDaemon(daemon)).Some?
    requires var v := Apply(u, FromDaemon(daemon)).value; Attributed(v.log) && Apply(v, FromClient(data)).Some?
    ensures Apply(u, FromClient(data)).Some?
    ensures Apply(Apply(u, FromClient(data)).value, FromDaemon(daemon))
         == Apply(Apply(u, FromDaemon(daemon)).value, FromClient(data))
  {
    hide Parse;
    var v := Apply(u, FromDaemon(daemon)).value;
    var c, d := v.ClientSide().Plus(data), u.DaemonSide().Plus(daemon);
    ParseProgress(Request, c);
    ParseProgress(Response, d);
    AttributedTakesNoMore(d, Parse(Response, d).conn);
    RequestFrame(c, u.pending, u.log);
    assert Rebase(c, u.pending, u.log) == u.ClientSide().Plus(data);
    var read := ReadBy(c, Parse(Request, c).conn);
    var j := Growth(d, Parse(Response, d).conn);
    assert (u.pending + read)[..j] == u.pending[..j];
    assert (u.pending + read)[j..] == u.pending[j..] + read;
    ResponseFrame(d, u.pending + read, u.log.requests + read);
    var w := Apply(u, FromClient(data)).value;
    assert Rebase(d, u.pending + read, d.log.(requests := u.log.requests + read)) == w.DaemonSide().Plus(daemon);
    assert v.pending == u.pending[j..] && v.log.requests == u.log.requests;
    var core := Parse(Request, c).conn.core;
    assert Apply(v, FromClient(data)).value
        == v.(client := core, pending := v.pending + read, log := v.log.(requests := v.log.requests + read));
    assert Apply(w, FromDaemon(daemon)).value
        == v.(client := core, pending := v.pending + read, log := v.log.(requests := v.log.requests + read));
  }

  lemma {:induction false} ApplySplit(w: Wire, a: Event, b: Event, both: Event)
    requires w.Valid() && a.FromClient? == b.FromClient? == both.FromClient? && both.data == a.data + b.data
    requires Apply(w, a).Some?
    ensures Apply(w, both) == Apply(Apply(w, a).value, b)
  {
    hide Parse;
    if a.FromClient? {
      ParseProgress(Request, w.ClientSide().Plus(a.data));
      FeedSplit(Request, w.ClientSide(), a.data, b.data);
    } else {
      FeedSplit(Response, w.DaemonSide(), a.data, b.data);
    }
  }

  lemma {:induction false} ApplyNothing(w: Wire, e: Event)
    requires w == FRESH && e.data == []
    ensures Apply(w, e) == Some(w)
  {
  }

  /** Interleaving independence: whatever the bytes, if nothing raised and every
      status line found its request, the outcome is that of feeding the two
      directions one after the other, each in one piece. */
  lemma {:induction false} InterleavingIndependence(events: seq<Event>)
    requires Play(events).Some? && Attributed(Play(events).value.log)
    ensures Serial(ClientBytes(events), DaemonBytes(events)) == Play(events)
    decreases |events|
  {
    if events == [] {
      ApplyNothing(FRESH, FromClient([]));
      ApplyNothing(FRESH, FromDaemon([]));
    } else {
      hide Parse;
      var n := |events| - 1;
      var e, v := events[n], Play(events[..n]).value;
      if e.FromClient? {
        ParseProgress(Request, v.ClientSide().Plus(e.data));
      } else {
        ParseProgress(Response, v.DaemonSide().Plus(e.data));
        AttributedTakesNoMore(v.DaemonSide().Plus(e.data), Parse(Response, v.DaemonSide().Plus(e.data)).conn);
      }
      InterleavingIndependence(events[..n]);
      var client, daemon := ClientBytes(events[..n]), DaemonBytes(events[..n]);
      var u := Apply(FRESH, FromClient(client)).value;
      if e.FromClient? {
        ClientFirst(u, daemon, e.data);
        ApplySplit(FRESH, FromClient(client), e, FromClient(client + e.data));
        assert daemon + [] == daemon;
      } else {
        ApplySplit(u, FromDaemon(daemon), e, FromDaemon(daemon + e.data));
        assert client + [] == client;
      }
    }
  }

  // ----- well-formed exchanges -----

  /** The request a start line announces, if it is a GET or HEAD request line. */
  function AskedOf(start: Bytes): Option<Asked> {
    var parts := SplitTwice(start);
    if |parts| == 3 && StartsWith(parts[2], "HTTP/1.") && MethodClassOf(parts[0]) == Read then
      Some(Asked(ClassifyPath(parts[0], parts[1]), parts[0]))
    else None
  }

  function StatusOf(start: Bytes): Option<nat> {
    var parts := SplitTwice(start);
    if |parts| >= 2 && StartsWith(parts[0], "HTTP/1.") then ParseNumber(parts[1], 10) else None
  }

  /** A request, what it asks, its response and the status of that. */
  datatype Exchange = Exchange(request: Message, asked: Asked, response: Message, code: nat)

  ghost predicate ProperExchange(x: Exchange) {
    && AskedOf(x.request.start) == Some(x.asked) && WellFormed(x.request, false)
    && StatusOf(x.response.start) == Some(x.code)
    && WellFormed(x.response, HasNoBody(Some(x.asked), x.code))
  }

  ghost predicate ProperExchanges(xs: seq<Exchange>) {
    forall i :: 0 <= i < |xs| ==> ProperExchange(xs[i])
  }

  function RequestsOf(xs: seq<Exchange>): (ms: seq<Message>)
    ensures |ms| == |xs|
  {
    if xs == [] then [] else [xs[0].request] + RequestsOf(xs[1..])
  }

  function ResponsesOf(xs: seq<Exchange>): (ms: seq<Message>)
    ensures |ms| == |xs|
  {
    if xs == [] then [] else [xs[0].response] + ResponsesOf(xs[1..])
  }

  function AsksOf(xs: seq<Exchange>): (asks: seq<Asked>)
    ensures |asks| == |xs|
  {
    if xs == [] then [] else [xs[0].asked] + AsksOf(xs[1..])
  }

  /** Response k is the answer to request k. */
  function AnswersOf(xs: seq<Exchange>): (answers: seq<Answer>)
    ensures |answers| == |xs|
  {
    if xs == [] then [] else [Answer(Some(xs[0].asked), xs[0].code)] + AnswersOf(xs[1..])
  }

  /** How many start lines lie completely within the first `n` bytes. */
  function LinesWithin(ms: seq<Message>, n: nat): nat {
    if ms == [] || n < |ms[0].start| + 2 then 0
    else if n < |Render(ms[0])| then 1
    else 1 + LinesWithin(ms[1..], n - |Render(ms[0])|)
  }

  lemma {:induction false} OnRequestStart(c: Conn, start: Bytes, asked: Asked)
    requires AskedOf(start) == Some(asked) && c.core == IDLE && !c.noBody
    ensures OnLine(Request, c, start) == Next(Conn(IDLE.(state := Headers), false,
      c.pending + [asked], c.log.(requests := c.log.requests + [asked])))
  {
    hide ClassifyPath, SplitTwice;
  }

  lemma {:induction false} OnStatusStart(c: Conn, start: Bytes, code: nat)
    requires StatusOf(start) == Some(code) && c.core == IDLE
    ensures var asked := Front(c.pending, 0);
      OnLine(Response, c, start) == Next(Conn(IDLE.(state := Headers), HasNoBody(asked, code),
        if c.pending == [] then [] else c.pending[1..],
        c.log.(responses := c.log.responses + [Answer(asked, code)])))
  {
    hide ParseNumber, SplitTwice, HasNoBody;
  }

  lemma {:induction false} NothingToParse(role: Role, c: Conn)
    requires c.core == IDLE
    ensures Parse(role, c) == Ok(c) && LinesShort(role, c)
  {
  }

  /** Cutting the tail of a message short, the parser still waits inside it. */
  lemma {:induction false} TailPrefix(role: Role, c: Conn, m: Message, q: Bytes)
    requires c.core == IDLE.(state := Headers)
    requires WellFormed(m, role == Response && c.noBody)
    requires q <= RenderTail(m)
    ensures Parse(role, At(c, q)).Ok?
    ensures var r := Parse(role, At(c, q)).conn; r.log == c.log && r.pending == c.pending
    ensures q == RenderTail(m) ==> Parse(role, At(c, q)) == Ok(c.(core := IDLE, noBody := false))
  {
    hide Parse, Step, LinesShort, RenderTail, WellFormed;
    var tail := RenderTail(m);
    var x := tail[|q|..];
    assert q + x == tail && tail + [] == tail;
    TakeTail(role, c, m, []);
    var done := c.(core := IDLE, noBody := false);
    assert At(c, q).Plus(x) == At(c, tail + []);
    NothingToParse(role, done);
    ShortPrefixParses(role, At(c, q), x);
    ParseSplit(role, At(c, q), x);
    ParseProgress(role, At(c, q));
    ParseProgress(role, Parse(role, At(c, q)).conn.Plus(x));
  }

  /** A start line that has not come to its end. */
  lemma {:induction false} StartPrefix(role: Role, c: Conn, start: Bytes, p: Bytes)
    requires c.core == IDLE && ProperLine(start) && p <= start + CRLF && |p| < |start| + 2
    ensures Parse(role, At(c, p)) == Ok(At(c, p))
  {
    hide OnLine;
    NoCrlfPrefix(start, p);
  }

  lemma {:induction false} RenderAllCons(ms: seq<Message>, p: Bytes)
    requires ms != [] && p <= RenderAll(ms)
    ensures |p| < |Render(ms[0])| ==> p <= Render(ms[0]) && p != RenderAll(ms)
    ensures |p| >= |Render(ms[0])| ==>
      p[|Render(ms[0])|..] <= RenderAll(ms[1..]) && p == Render(ms[0]) + p[|Render(ms[0])|..]
    ensures |p| >= |Render(ms[0])| && p == RenderAll(ms) ==> p[|Render(ms[0])|..] == RenderAll(ms[1..])
  {
    var k := |Render(ms[0])|;
    assert RenderAll(ms)[..k] == Render(ms[0]) && RenderAll(ms)[k..] == RenderAll(ms[1..]);
    assert p == RenderAll(ms)[..|p|];
  }

  lemma {:induction false} TakeStart(role: Role, c: Conn, n: Conn, m: Message, p: Bytes)
    requires c.core == IDLE && OnLine(role, c, m.start) == Next(n) && n.core == IDLE.(state := Headers)
    requires ProperLine(m.start) && p <= Render(m) && |p| >= |m.start| + 2
    ensures p[|m.start| + 2..] <= RenderTail(m)
    ensures Parse(role, At(c, p)) == Parse(role, At(n, p[|m.start| + 2..]))
  {
    hide OnLine, Parse, RenderTail, LinesShort, FindCrlf;
    var k, q := |m.start| + 2, p[|m.start| + 2..];
    var tail := RenderTail(m);
    assert Render(m)[..k] == m.start + CRLF && Render(m)[k..] == tail;
    assert p[..k] == Render(m)[..k] && q == tail[..|q|];
    assert p == m.start + CRLF + q;
    OnLineStable(role, c, m.start, q);
    assert [] + q == q;
    assert c.Plus(q) == At(c, q) && n.Plus(q) == At(n, q);
    TakeLine(role, c, m.start, q);
  }

  /** A prefix that ends within the first message. */
  lemma {:induction false} FirstPrefix(role: Role, c: Conn, n: Conn, m: Message, p: Bytes)
    requires c.core == IDLE && OnLine(role, c, m.start) == Next(n) && n.core == IDLE.(state := Headers)
    requires WellFormed(m, role == Response && n.noBody)
    requires p <= Render(m) && |p| < |Render(m)|
    ensures Parse(role, At(c, p)).Ok?
    ensures Parse(role, At(c, p)).conn.log == if |p| < |m.start| + 2 then c.log else n.log
  {
    hide OnLine, Parse, RenderTail, LinesShort, FindCrlf;
    if |p| < |m.start| + 2 {
      var k := |m.start| + 2;
      assert Render(m)[..k] == m.start + CRLF;
      assert p == Render(m)[..|p|] == (m.start + CRLF)[..|p|];
      StartPrefix(role, c, m.start, p);
    } else {
      TakeStart(role, c, n, m, p);
      TailPrefix(role, n, m, p[|m.start| + 2..]);
    }
  }

  lemma {:induction false} LinesWithinCons(ms: seq<Message>, n: nat)
    requires ms != []
    ensures |Render(ms[0])| >= |ms[0].start| + 2
    ensures LinesWithin(ms, n) ==
      if n < |ms[0].start| + 2 then 0
      else if n < |Render(ms[0])| then 1
      else 1 + LinesWithin(ms[1..], n - |Render(ms[0])|)
  {
  }

  lemma {:induction false} FirstOf(xs: seq<Exchange>)
    requires ProperExchanges(xs) && xs != []
    ensures ProperExchange(xs[0]) && ProperExchanges(xs[1..])
    ensures RequestsOf(xs)[0] == xs[0].request && RequestsOf(xs)[1..] == RequestsOf(xs[1..])
    ensures ResponsesOf(xs)[0] == xs[0].response && ResponsesOf(xs)[1..] == ResponsesOf(xs[1..])
    ensures AsksOf(xs)[0] == xs[0].asked && AsksOf(xs)[1..] == AsksOf(xs[1..])
  {
  }

  /** After the bytes `p`, the request parser has read the request lines that
      lie within `p`, and it is at rest when `p` is everything. */
  ghost predicate RequestsRead(xs: seq<Exchange>, c: Conn, p: Bytes)
    requires ProperExchanges(xs) && c.core == IDLE
  {
    var k := LinesWithin(RequestsOf(xs), |p|);
    && k <= |xs|
    && Parse(Request, At(c, p)).Ok?
    && var r := Parse(Request, At(c, p)).conn;
      && r.log == c.log.(requests := c.log.requests + AsksOf(xs)[..k])
      && (p == RenderAll(RequestsOf(xs)) ==> r.core == IDLE && k == |xs|)
  }

  /** The request parser, at rest again, after a whole exchange's request. */
  function AfterRequest(c: Conn, x: Exchange): Conn {
    Conn(IDLE, false, c.pending + [x.asked], c.log.(requests := c.log.requests + [x.asked]))
  }

  lemma {:induction false} RequestPrefix(xs: seq<Exchange>, c: Conn, p: Bytes)
    requires ProperExchanges(xs) && c.core == IDLE && !c.noBody && p <= RenderAll(RequestsOf(xs))
    ensures RequestsRead(xs, c, p)
    decreases |xs|
  {
    if xs == [] {
      assert At(c, p) == c;
    } else {
      hide ProperExchange, Render, RenderAll, RequestsRead;
      RenderAllCons(RequestsOf(xs), p);
      if |p| < |Render(xs[0].request)| {
        RequestPrefixFirst(xs, c, p);
      } else {
        RequestPrefix(xs[1..], AfterRequest(c, xs[0]), p[|Render(xs[0].request)|..]);
        RequestPrefixRest(xs, c, p);
      }
    }
  }

  lemma {:induction false} RequestPrefixFirst(xs: seq<Exchange>, c: Conn, p: Bytes)
    requires ProperExchanges(xs) && xs != [] && c.core == IDLE && !c.noBody
    requires p <= RenderAll(RequestsOf(xs)) && |p| < |Render(xs[0].request)|
    ensures RequestsRead(xs, c, p)
  {
    hide Parse, OnLine, Render, AskedOf, LinesWithin, RenderAll, LinesShort, Step, FindCrlf, WellFormed;
    var ms, m := RequestsOf(xs), xs[0].request;
    OnRequestStart(c, m.start, xs[0].asked);
    RenderAllCons(ms, p);
    LinesWithinCons(ms, |p|);
    FirstPrefix(Request, c, AfterRequest(c, xs[0]).Enter(Headers), m, p);
    assert AsksOf(xs)[..1] == [xs[0].asked];
    assert c.log.requests + AsksOf(xs)[..0] == c.log.requests;
  }

  lemma {:induction false} RequestPrefixRest(xs: seq<Exchange>, c: Conn, p: Bytes)
    requires ProperExchanges(xs) && xs != [] && c.core == IDLE && !c.noBody
    requires p <= RenderAll(RequestsOf(xs)) && |p| >= |Render(xs[0].request)|
    requires RequestsRead(xs[1..], AfterRequest(c, xs[0]), p[|Render(xs[0].request)|..])
    ensures RequestsRead(xs, c, p)
  {
    hide Parse, OnLine, Render, AskedOf, LinesWithin, RenderAll, LinesShort, Step, FindCrlf, WellFormed, IndexOf,
      ProperExchanges, RequestsOf, ResponsesOf, AsksOf, AnswersOf;
    FirstOf(xs);
    var ms, m, rest := RequestsOf(xs), xs[0].request, xs[1..];
    OnRequestStart(c, m.start, xs[0].asked);
    RenderAllCons(ms, p);
    LinesWithinCons(ms, |p|);
    var d, q := AfterRequest(c, xs[0]), p[|Render(m)|..];
    TakeMessage(Request, c, d.Enter(Headers), m, q);
    assert At(d, q) == d.(core := IDLE.(buffer := q), noBody := false);
    var k := LinesWithin(RequestsOf(rest), |q|);
    AsksStep(c.log.requests, xs, k);
  }

  lemma {:induction false} AsksStep(log: seq<Asked>, xs: seq<Exchange>, k: nat)
    requires xs != [] && k < |xs|
    ensures log + [xs[0].asked] + AsksOf(xs[1..])[..k] == log + AsksOf(xs)[..k + 1]
  {
  }

  /** The same for responses; every response that is read finds its request. */
  ghost predicate ResponsesRead(xs: seq<Exchange>, c: Conn, p: Bytes)
    requires ProperExchanges(xs) && c.core == IDLE
  {
    var k := LinesWithin(ResponsesOf(xs), |p|);
    && k <= |xs|
    && Parse(Response, At(c, p)).Ok?
    && var r := Parse(Response, At(c, p)).conn;
      && r.log == c.log.(responses := c.log.responses + AnswersOf(xs)[..k])
      && (p == RenderAll(ResponsesOf(xs)) ==> r.core == IDLE && !r.noBody && k == |xs|)
  }

  /** The response parser, at rest again, after a whole exchange's response. */
  function AfterResponse(c: Conn, x: Exchange): Conn
    requires c.pending != []
  {
    Conn(IDLE, false, c.pending[1..], c.log.(responses := c.log.responses + [Answer(Some(x.asked), x.code)]))
  }

  lemma {:induction false} ResponsePrefix(xs: seq<Exchange>, c: Conn, p: Bytes)
    requires ProperExchanges(xs) && c.core == IDLE && !c.noBody && p <= RenderAll(ResponsesOf(xs))
    requires c.pending == AsksOf(xs)
    ensures ResponsesRead(xs, c, p)
    decreases |xs|
  {
    if xs == [] {
      assert At(c, p) == c;
    } else {
      hide ProperExchange, Render, RenderAll, ResponsesRead;
      RenderAllCons(ResponsesOf(xs), p);
      if |p| < |Render(xs[0].response)| {
        ResponsePrefixFirst(xs, c, p);
      } else {
        ResponsePrefix(xs[1..], AfterResponse(c, xs[0]), p[|Render(xs[0].response)|..]);
        ResponsePrefixRest(xs, c, p);
      }
    }
  }

  lemma {:induction false} ResponsePrefixFirst(xs: seq<Exchange>, c: Conn, p: Bytes)
    requires ProperExchanges(xs) && xs != [] && c.core == IDLE && !c.noBody && c.pending == AsksOf(xs)
    requires p <= RenderAll(ResponsesOf(xs)) && |p| < |Render(xs[0].response)|
    ensures ResponsesRead(xs, c, p)
  {
    hide Parse, OnLine, Render, StatusOf, HasNoBody, LinesWithin, RenderAll, LinesShort, Step, FindCrlf, WellFormed;
    var ms, x, m := ResponsesOf(xs), xs[0], xs[0].response;
    OnStatusStart(c, m.start, x.code);
    RenderAllCons(ms, p);
    LinesWithinCons(ms, |p|);
    var n := AfterResponse(c, x).(core := IDLE.(state := Headers), noBody := HasNoBody(Some(x.asked), x.code));
    FirstPrefix(Response, c, n, m, p);
    assert AnswersOf(xs)[..1] == [Answer(Some(x.asked), x.code)];
    assert c.log.responses + AnswersOf(xs)[..0] == c.log.responses;
  }

  lemma {:induction false} ResponsePrefixRest(xs: seq<Exchange>, c: Conn, p: Bytes)
    requires ProperExchanges(xs) && xs != [] && c.core == IDLE && !c.noBody && c.pending == AsksOf(xs)
    requires p <= RenderAll(ResponsesOf(xs)) && |p| >= |Render(xs[0].response)|
    requires ResponsesRead(xs[1..], AfterResponse(c, xs[0]), p[|Render(xs[0].response)|..])
    ensures ResponsesRead(xs, c, p)
  {
    hide Parse, OnLine, Render, StatusOf, HasNoBody, LinesWithin, RenderAll, LinesShort, Step, FindCrlf, WellFormed, IndexOf,
      ProperExchanges, RequestsOf, ResponsesOf, AsksOf, AnswersOf;
    FirstOf(xs);
    var ms, x, m, rest := ResponsesOf(xs), xs[0], xs[0].response, xs[1..];
    OnStatusStart(c, m.start, x.code);
    RenderAllCons(ms, p);
    LinesWithinCons(ms, |p|);
    var d, q := AfterResponse(c, x), p[|Render(m)|..];
    var n := d.(core := IDLE.(state := Headers), noBody := HasNoBody(Some(x.asked), x.code));
    TakeMessage(Response, c, n, m, q);
    assert At(d, q) == n.(core := IDLE.(buffer := q), noBody := false);
    var k := LinesWithin(ResponsesOf(rest), |q|);
    AnswersStep(c.log.responses, xs, k);
  }

  lemma {:induction false} AnswersStep(log: seq<Answer>, xs: seq<Exchange>, k: nat)
    requires xs != [] && k < |xs|
    ensures log + [Answer(Some(xs[0].asked), xs[0].code)] + AnswersOf(xs[1..])[..k] == log + AnswersOf(xs)[..k + 1]
  {
  }

  // ----- pairing -----

  /** The bytes sent so far come from these exchanges, and no status line is
      complete before the request line it answers. */
  ghost predicate Sent(xs: seq<Exchange>, events: seq<Event>) {
    && ClientBytes(events) <= RenderAll(RequestsOf(xs))
    && DaemonBytes(events) <= RenderAll(ResponsesOf(xs))
    && LinesWithin(ResponsesOf(xs), |DaemonBytes(events)|) <= LinesWithin(RequestsOf(xs), |ClientBytes(events)|)
  }

  ghost predicate Causal(xs: seq<Exchange>, events: seq<Event>) {
    forall n :: 0 <= n <= |events| ==> Sent(xs, events[..n])
  }

  /** The request parser on its own. */
  function Asking(client: Bytes): Conn {
    Conn(IDLE.(buffer := client), false, [], NO_LOG)
  }

  /** The response parser on its own, with all requests already waiting. */
  function Answering(xs: seq<Exchange>, daemon: Bytes): Conn {
    Conn(IDLE.(buffer := daemon), false, AsksOf(xs), NO_LOG)
  }

  /** The connection after some of the bytes of well-formed exchanges. */
  ghost predicate Reached(xs: seq<Exchange>, client: Bytes, daemon: Bytes, w: Wire) {
    var a, b := LinesWithin(RequestsOf(xs), |client|), LinesWithin(ResponsesOf(xs), |daemon|);
    var r, s := Parse(Request, Asking(client)).conn, Parse(Response, Answering(xs, daemon)).conn;
    && b <= a <= |xs|
    && w == Wire(r.core, s.core, s.noBody, AsksOf(xs)[b..a], Log(AsksOf(xs)[..a], AnswersOf(xs)[..b], 0))
  }

  lemma {:induction false} ReachedByClient(xs: seq<Exchange>, client: Bytes, daemon: Bytes, v: Wire, data: Bytes)
    requires ProperExchanges(xs) && v.Valid() && Reached(xs, client, daemon, v)
    requires client + data <= RenderAll(RequestsOf(xs))
    ensures Apply(v, FromClient(data)).Some?
    ensures Reached(xs, client + data, daemon, Apply(v, FromClient(data)).value)
  {
    hide Parse, RenderAll, ProperExchange, LinesWithin;
    var c, asks := Asking([]), AsksOf(xs);
    assert client <= RenderAll(RequestsOf(xs));
    RequestPrefix(xs, c, client);
    RequestPrefix(xs, c, client + data);
    assert At(c, client) == Asking(client) && At(c, client + data) == Asking(client).Plus(data);
    ParseSplit(Request, Asking(client), data);
    ParseProgress(Request, Asking(client));
    var r := Parse(Request, Asking(client)).conn;
    ParseProgress(Request, r.Plus(data));
    RequestFrame(r.Plus(data), v.pending, v.log);
    assert Rebase(r.Plus(data), v.pending, v.log) == v.ClientSide().Plus(data);
    var a, b := LinesWithin(RequestsOf(xs), |client|), LinesWithin(ResponsesOf(xs), |daemon|);
    var a' := LinesWithin(RequestsOf(xs), |client + data|);
    assert [] + asks[..a] == asks[..a] && [] + asks[..a'] == asks[..a'];
    GrowingPrefix(asks, a, a', b);
  }

  lemma {:induction false} GrowingPrefix(asks: seq<Asked>, a: nat, a': nat, b: nat)
    requires b <= a <= |asks| && a' <= |asks| && asks[..a] <= asks[..a']
    ensures a <= a'
    ensures asks[..a] + asks[..a'][a..] == asks[..a']
    ensures asks[b..a] + asks[..a'][a..] == asks[b..a']
  {
  }

  /** The response parser on its own, after a prefix of the responses. */
  lemma {:induction false} AnsweringAlone(xs: seq<Exchange>, daemon: Bytes)
    requires ProperExchanges(xs) && daemon <= RenderAll(ResponsesOf(xs))
    ensures Parse(Response, Answering(xs, daemon)).Ok?
    ensures var b := LinesWithin(ResponsesOf(xs), |daemon|);
      var s := Parse(Response, Answering(xs, daemon)).conn;
      b <= |xs| && s.pending == AsksOf(xs)[b..] && s.log == Log([], AnswersOf(xs)[..b], 0)
  {
    hide Parse, RenderAll, ProperExchange, LinesWithin;
    ResponsePrefix(xs, Answering(xs, []), daemon);
    assert At(Answering(xs, []), daemon) == Answering(xs, daemon);
    ParseProgress(Response, Answering(xs, daemon));
    var b := LinesWithin(ResponsesOf(xs), |daemon|);
    assert [] + AnswersOf(xs)[..b] == AnswersOf(xs)[..b];
  }

  /** The same when more daemon bytes come. */
  lemma {:induction false} AnsweringOn(xs: seq<Exchange>, daemon: Bytes, data: Bytes)
    requires ProperExchanges(xs) && daemon + data <= RenderAll(ResponsesOf(xs))
    ensures Parse(Response, Answering(xs, daemon)).Ok? && Parse(Response, Answering(xs, daemon + data)).Ok?
    ensures var b, b' := LinesWithin(ResponsesOf(xs), |daemon|), LinesWithin(ResponsesOf(xs), |daemon + data|);
      var s, s' := Parse(Response, Answering(xs, daemon)).conn, Parse(Response, Answering(xs, daemon + data)).conn;
      && b <= b' <= |xs| && s.pending == AsksOf(xs)[b..]
      && s.log == Log([], AnswersOf(xs)[..b], 0) && s'.log == Log([], AnswersOf(xs)[..b'], 0)
      && Parse(Response, s.Plus(data)) == Ok(s') && Growth(s.Plus(data), s') == b' - b
  {
    hide Parse, RenderAll, ProperExchanges, LinesWithin, AsksOf, AnswersOf, RequestsOf, ResponsesOf;
    assert daemon <= RenderAll(ResponsesOf(xs));
    AnsweringAlone(xs, daemon);
    AnsweringAlone(xs, daemon + data);
    assert Answering(xs, daemon + data) == Answering(xs, daemon).Plus(data);
    ParseSplit(Response, Answering(xs, daemon), data);
    ParseProgress(Response, Parse(Response, Answering(xs, daemon)).conn.Plus(data));
  }

  lemma {:induction false} ReachedByDaemon(xs: seq<Exchange>, client: Bytes, daemon: Bytes, v: Wire, data: Bytes)
    requires ProperExchanges(xs) && v.Valid() && Reached(xs, client, daemon, v)
    requires daemon + data <= RenderAll(ResponsesOf(xs))
    requires LinesWithin(ResponsesOf(xs), |daemon + data|) <= LinesWithin(RequestsOf(xs), |client|)
    ensures Apply(v, FromDaemon(data)).Some?
    ensures Reached(xs, client, daemon + data, Apply(v, FromDaemon(data)).value)
  {
    hide Parse, RenderAll, ProperExchanges, LinesWithin, AsksOf, AnswersOf, RequestsOf, ResponsesOf;
    AnsweringOn(xs, daemon, data);
    var asks, s := AsksOf(xs), Parse(Response, Answering(xs, daemon)).conn;
    var a := LinesWithin(RequestsOf(xs), |client|);
    var b, b' := LinesWithin(ResponsesOf(xs), |daemon|), LinesWithin(ResponsesOf(xs), |daemon + data|);
    ShrinkingQueue(asks, a, b, b');
    ResponseFrame(s.Plus(data), v.pending, asks[..a]);
    assert Rebase(s.Plus(data), v.pending, s.log.(requests := asks[..a])) == v.DaemonSide().Plus(data);
  }

  lemma {:induction false} ShrinkingQueue(asks: seq<Asked>, a: nat, b: nat, b': nat)
    requires b <= b' <= a <= |asks|
    ensures asks[b..a][..b' - b] == asks[b..][..b' - b]
    ensures asks[b..a][b' - b..] == asks[b'..a]
  {
  }

  lemma {:induction false} ReachedAtFirst(xs: seq<Exchange>)
    ensures Reached(xs, [], [], FRESH)
  {
    assert LinesWithin(RequestsOf(xs), 0) == 0 == LinesWithin(ResponsesOf(xs), 0);
  }

  lemma {:induction false} PlayReaches(xs: seq<Exchange>, events: seq<Event>)
    requires ProperExchanges(xs) && Causal(xs, events)
    ensures Play(events).Some?
    ensures Reached(xs, ClientBytes(events), DaemonBytes(events), Play(events).value)
    decreases |events|
  {
    hide Parse, RenderAll, ProperExchange, LinesWithin, Reached, Apply, Sent, RequestsOf, ResponsesOf;
    if events == [] {
      ReachedAtFirst(xs);
    } else {
      var n := |events| - 1;
      assert Causal(xs, events[..n]) by {
        assert forall k :: 0 <= k <= n ==> events[..n][..k] == events[..k];
      }
      PlayReaches(xs, events[..n]);
      assert Sent(xs, events) by {
        assert events[..n + 1] == events;
      }
      ReachedByLast(xs, events);
    }
  }

  lemma {:induction false} ReachedByLast(xs: seq<Exchange>, events: seq<Event>)
    requires ProperExchanges(xs) && events != [] && Sent(xs, events)
    requires var before := events[..|events| - 1];
      Play(before).Some? && Reached(xs, ClientBytes(before), DaemonBytes(before), Play(before).value)
    ensures Play(events).Some?
    ensures Reached(xs, ClientBytes(events), DaemonBytes(events), Play(events).value)
  {
    hide Parse, RenderAll, ProperExchange, LinesWithin, Reached, Apply, RequestsOf, ResponsesOf;
    var n := |events| - 1;
    var client, daemon, v := ClientBytes(events[..n]), DaemonBytes(events[..n]), Play(events[..n]).value;
    assert client + [] == client && daemon + [] == daemon;
    match events[n]
    case FromClient(data) => ReachedByClient(xs, client, daemon, v, data);
    case FromDaemon(data) => ReachedByDaemon(xs, client, daemon, v, data);
  }

  /** Round trip and pairing: however well-formed exchanges are cut and
      interleaved, if no response line precedes the line of its request then both
      parsers end at rest and response k was attributed to request k. */
  lemma {:induction false} ExchangesArePaired(xs: seq<Exchange>, events: seq<Event>)
    requires ProperExchanges(xs) && Causal(xs, events)
    requires ClientBytes(events) == RenderAll(RequestsOf(xs))
    requires DaemonBytes(events) == RenderAll(ResponsesOf(xs))
    ensures Play(events) == Some(FRESH.(log := Log(AsksOf(xs), AnswersOf(xs), 0)))
  {
    hide Parse, RenderAll, ProperExchange, LinesWithin;
    PlayReaches(xs, events);
    RequestPrefix(xs, Asking([]), ClientBytes(events));
    ResponsePrefix(xs, Answering(xs, []), DaemonBytes(events));
    assert At(Asking([]), ClientBytes(events)) == Asking(ClientBytes(events));
    assert At(Answering(xs, []), DaemonBytes(events)) == Answering(xs, DaemonBytes(events));
    assert AsksOf(xs)[..|xs|] == AsksOf(xs) && AsksOf(xs)[|xs|..|xs|] == [] && AnswersOf(xs)[..|xs|] == AnswersOf(xs);
  }

  // ----- any responses, one after the other -----

  /** A response on the wire, and its status. */
  datatype Said = Said(message: Message, code: nat)

  function RenderSaid(says: seq<Said>): Bytes {
    if says == [] then [] else Render(says[0].message) + RenderSaid(says[1..])
  }

  /** Each response is well formed for the request it will be attributed to. */
  ghost predicate Readable(pending: seq<Asked>, says: seq<Said>) {
    forall i :: 0 <= i < |says| ==>
      && StatusOf(says[i].message.start) == Some(says[i].code)
      && WellFormed(says[i].message, HasNoBody(Front(pending, i), says[i].code))
  }

  /** The i-th response takes the i-th waiting request, or none. */
  function AnswersTo(pending: seq<Asked>, says: seq<Said>): (answers: seq<Answer>)
    ensures |answers| == |says| && forall i :: 0 <= i < |says| ==> answers[i] == Answer(Front(pending, i), says[i].code)
  {
    seq(|says|, i requires 0 <= i < |says| => Answer(Front(pending, i), says[i].code))
  }

  function Taken(pending: seq<Asked>, n: nat): seq<Asked> {
    if n <= |pending| then pending[n..] else []
  }

  lemma {:induction false} ResponsesInTurn(pending: seq<Asked>, says: seq<Said>, answered: seq<Answer>)
    requires Readable(pending, says)
    ensures Parse(Response, Conn(IDLE.(buffer := RenderSaid(says)), false, pending, Log([], answered, 0)))
         == Ok(Conn(IDLE, false, Taken(pending, |says|), Log([], answered + AnswersTo(pending, says), 0)))
    decreases |says|
  {
    hide Parse, OnLine, Render, StatusOf, LinesShort, WellFormed, HasNoBody;
    if says == [] {
      var c := Conn(IDLE, false, pending, Log([], answered, 0));
      NothingToParse(Response, c);
      assert answered + AnswersTo(pending, says) == answered;
    } else {
      var said, later := says[0], Taken(pending, 1);
      var c := Conn(IDLE, false, pending, Log([], answered, 0));
      var first := Answer(Front(pending, 0), said.code);
      OnStatusStart(c, said.message.start, said.code);
      var n := Conn(IDLE.(state := Headers), HasNoBody(Front(pending, 0), said.code), later, Log([], answered + [first], 0));
      TakeMessage(Response, c, n, said.message, RenderSaid(says[1..]));
      LaterResponses(pending, says, answered);
      ResponsesInTurn(later, says[1..], answered + [first]);
    }
  }

  lemma {:induction false} LaterResponses(pending: seq<Asked>, says: seq<Said>, answered: seq<Answer>)
    requires Readable(pending, says) && says != []
    ensures
      var later := Taken(pending, 1);
      && Readable(later, says[1..]) && Taken(later, |says| - 1) == Taken(pending, |says|)
      && answered + [Answer(Front(pending, 0), says[0].code)] + AnswersTo(later, says[1..])
           == answered + AnswersTo(pending, says)
  {
    hide StatusOf, WellFormed, HasNoBody;
    var later := Taken(pending, 1);
    forall i | 0 <= i < |says| - 1 ensures Front(later, i) == Front(pending, i + 1) {
    }
    var first := Answer(Front(pending, 0), says[0].code);
    assert [first] + AnswersTo(later, says[1..]) == AnswersTo(pending, says);
  }

  /** The responses of some exchanges, with one more before the k-th. */
  function WithInterim(xs: seq<Exchange>, k: nat, interim: Said): (says: seq<Said>)
    requires k <= |xs|
    ensures |says| == |xs| + 1 && says[k] == interim
    ensures forall i :: 0 <= i < k ==> says[i] == Said(xs[i].response, xs[i].code)
    ensures forall i :: k <= i < |xs| ==> says[i + 1] == Said(xs[i].response, xs[i].code)
  {
    seq(|xs| + 1, i requires 0 <= i < |xs| + 1 =>
      if i == k then interim else if i < k then Said(xs[i].response, xs[i].code) else Said(xs[i - 1].response, xs[i - 1].code))
  }

  /** Who the responses are attributed to: from the interim one on, the next request. */
  ghost predicate Shifted(xs: seq<Exchange>, k: nat, interim: Said, answers: seq<Answer>) {
    && k < |xs| && |answers| == |xs| + 1
    && forall i :: 0 <= i < |answers| ==>
      && answers[i].asked == (if i < |xs| then Some(xs[i].asked) else None)
      && answers[i].code == (if i < k then xs[i].code else if i == k then interim.code else xs[i - 1].code)
  }

  /** The responses from the k-th on can also be read as answers to the next request. */
  ghost predicate ReadEitherWay(xs: seq<Exchange>, k: nat) {
    forall i :: k <= i < |xs| ==> WellFormed(xs[i].response, HasNoBody(AskedAt(xs, i + 1), xs[i].code))
  }

  function AskedAt(xs: seq<Exchange>, i: nat): Option<Asked> {
    if i < |xs| then Some(xs[i].asked) else None
  }

  predicate ProperInterim(interim: Said) {
    100 <= interim.code < 200 && StatusOf(interim.message.start) == Some(interim.code)
  }

  lemma {:induction false} FrontIsAsked(xs: seq<Exchange>, i: nat)
    ensures Front(AsksOf(xs), i) == AskedAt(xs, i)
    decreases |xs|
  {
    if xs != [] && i > 0 {
      FrontIsAsked(xs[1..], i - 1);
    }
  }

  lemma {:induction false} InterimIsReadable(xs: seq<Exchange>, k: nat, interim: Said)
    requires ProperExchanges(xs) && k < |xs| && ProperInterim(interim) && WellFormed(interim.message, true)
    requires ReadEitherWay(xs, k)
    ensures Readable(AsksOf(xs), WithInterim(xs, k, interim))
  {
    hide StatusOf, WellFormed, WithInterim, AsksOf, Front, AskedAt;
    var says := WithInterim(xs, k, interim);
    forall i | 0 <= i < |says|
      ensures StatusOf(says[i].message.start) == Some(says[i].code)
      ensures WellFormed(says[i].message, HasNoBody(Front(AsksOf(xs), i), says[i].code))
    {
      FrontIsAsked(xs, i);
      if i < k {
        assert ProperExchange(xs[i]);
        AskedWithin(xs, i);
      } else if i > k {
        assert ProperExchange(xs[i - 1]);
        assert says[i - 1 + 1] == Said(xs[i - 1].response, xs[i - 1].code);
      }
    }
  }

  lemma {:induction false} AskedWithin(xs: seq<Exchange>, i: nat)
    requires i < |xs|
    ensures AskedAt(xs, i) == Some(xs[i].asked)
  {
  }

  lemma {:induction false} InterimShifts(xs: seq<Exchange>, k: nat, interim: Said)
    requires k < |xs|
    ensures Shifted(xs, k, interim, AnswersTo(AsksOf(xs), WithInterim(xs, k, interim)))
  {
    hide WithInterim, AsksOf, Front;
    var says := WithInterim(xs, k, interim);
    forall i | 0 <= i < |says|
      ensures Front(AsksOf(xs), i) == if i < |xs| then Some(xs[i].asked) else None
      ensures says[i].code == if i < k then xs[i].code else if i == k then interim.code else xs[i - 1].code
    {
      FrontIsAsked(xs, i);
      if i > k {
        assert says[i - 1 + 1] == Said(xs[i - 1].response, xs[i - 1].code);
      }
    }
  }

  /** An interim response before the k-th final one takes the k-th request.  From there on
      each final response is attributed to the next request, and the last one to none. */
  lemma {:induction false} InterimResponseShiftsAttribution(xs: seq<Exchange>, k: nat, interim: Said)
    requires ProperExchanges(xs) && k < |xs| && ProperInterim(interim) && WellFormed(interim.message, true)
    requires ReadEitherWay(xs, k)
    ensures
      var r := Parse(Response, Answering(xs, RenderSaid(WithInterim(xs, k, interim))));
      && r.Ok? && r.conn.core == IDLE && r.conn.pending == [] && Shifted(xs, k, interim, r.conn.log.responses)
  {
    hide *;
    InterimIsReadable(xs, k, interim);
    InterimShifts(xs, k, interim);
    ResponsesInTurn(AsksOf(xs), WithInterim(xs, k, interim), []);
    assert [] + AnswersTo(AsksOf(xs), WithInterim(xs, k, interim)) == AnswersTo(AsksOf(xs), WithInterim(xs, k, interim));
    AllTaken(AsksOf(xs), |xs| + 1);
    IsAnswering(xs, RenderSaid(WithInterim(xs, k, interim)));
  }

  lemma {:induction false} AllTaken(pending: seq<Asked>, n: nat)
    requires n >= |pending|
    ensures Taken(pending, n) == []
  {
  }

  lemma {:induction false} IsAnswering(xs: seq<Exchange>, daemon: Bytes)
    ensures Answering(xs, daemon) == Conn(IDLE.(buffer := daemon), false, AsksOf(xs), Log([], [], 0))
  {
  }
}
