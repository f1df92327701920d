/** How the bytes are cut into fragments does not matter to the parsers. */
module FramingLaws {
  import opened ByteText
  import opened HttpFraming

  /** What a turn does is the same when more bytes follow those it looked at. */
  ghost predicate Stable(role: Role, c: Conn, x: Bytes)
    requires c.Valid() && c.core.buffer != []
  {
    match Step(role, c)
    case Wait => true
    case Next(n) => Step(role, c.Plus(x)) == Next(n.Plus(x))
    case Fail(e, n) => e != LineTooLong ==> Step(role, c.Plus(x)) == Fail(e, n.Plus(x))
  }

  /** Bytes that arrive later do not change what a turn does, except in a body. */
  lemma {:induction false} StepStable(role: Role, c: Conn, x: Bytes)
    requires c.Valid() && c.core.buffer != [] && c.core.state !in {Body, ChunkData}
    ensures Stable(role, c, x)
  {
    hide OnLine, FindCrlf;
    var b := c.core.buffer;
    if c.core.state == ChunkCrlf {
      if |b| >= 2 {
        assert (b + x)[..2] == b[..2];
        assert (b + x)[2..] == b[2..] + x;
      }
    } else if FindCrlf(b) >= 0 {
      LineStable(role, c, x);
    }
  }

  lemma {:induction false} LineStable(role: Role, c: Conn, x: Bytes)
    requires c.Valid() && c.core.state !in {Body, ChunkData, ChunkCrlf} && FindCrlf(c.core.buffer) >= 0
    ensures Stable(role, c, x)
  {
    hide OnLine, FindCrlf;
    var b := c.core.buffer;
    var marker := FindCrlf(b);
    FindCrlfExtends(b, x);
    assert (b + x)[..marker] == b[..marker];
    assert (b + x)[marker + 2..] == b[marker + 2..] + x;
    var rest := c.(core := c.core.(buffer := b[marker + 2..]));
    OnLineStable(role, rest, b[..marker], x);
    assert Step(role, c) == OnLine(role, rest, b[..marker]);
    assert Step(role, c.Plus(x)) == OnLine(role, rest.Plus(x), b[..marker]);
  }

  lemma {:induction false} OnLineStable(role: Role, c: Conn, line: Bytes, x: Bytes)
    requires c.Valid() && c.core.state !in {Body, ChunkData, ChunkCrlf}
    ensures match OnLine(role, c, line)
      case Wait => false
      case Next(n) => OnLine(role, c.Plus(x), line) == Next(n.Plus(x))
      case Fail(e, n) => e != LineTooLong && OnLine(role, c.Plus(x), line) == Fail(e, n.Plus(x))
  {
    hide ClassifyPath, SplitTwice, ParseNumber, ParseHeader;
    match c.core.state
    case ChunkSize =>
    case ChunkTrailer =>
    case Line =>
    case Headers =>
  }

  function BodyLeft(c: Core): nat {
    if c.state.Body? then c.contentRemaining else c.chunkRemaining
  }

  /** A body that ends within the buffer is consumed the same with more behind it. */
  lemma {:induction false} ConsumeWithin(c: Core, x: Bytes)
    requires c.Valid() && c.state in {Body, ChunkData} && c.buffer != [] && BodyLeft(c) <= |c.buffer|
    ensures Consume(c.Plus(x)) == Consume(c).Plus(x)
  {
    var b, left := c.buffer, BodyLeft(c);
    assert (b + x)[left..] == b[left..] + x;
  }

  /** Consuming what has come of a longer body and then the rest equals consuming all. */
  lemma {:induction false} ConsumeBeyond(c: Core, x: Bytes)
    requires c.Valid() && c.state in {Body, ChunkData} && c.buffer != [] && BodyLeft(c) > |c.buffer| && x != []
    ensures Consume(c).state == c.state
    ensures Consume(c.Plus(x)) == Consume(Consume(c).Plus(x))
  {
    var b, left := c.buffer, BodyLeft(c);
    var p := Consume(c).Plus(x);
    assert b[|b|..] + x == x;
    assert p.buffer == x;
    DropPast(b, x, left);
  }

  lemma {:induction false} DropPast(b: Bytes, x: Bytes, left: nat)
    requires left > |b|
    ensures (b + x)[Min(|b + x|, left)..] == x[Min(|x|, left - |b|)..]
  {
  }

  lemma {:induction false} ParseConsume(role: Role, c: Conn, x: Bytes)
    requires c.Valid() && c.core.buffer != [] && c.core.state in {Body, ChunkData}
    ensures Parse(role, c.Plus(x)) == Parse(role, c.(core := Consume(c.core)).Plus(x))
  {
    hide OnLine, Consume;
    var whole, n := c.Plus(x), c.(core := Consume(c.core));
    assert Parse(role, whole) == Parse(role, whole.(core := Consume(whole.core)));
    if BodyLeft(c.core) <= |c.core.buffer| {
      ConsumeWithin(c.core, x);
    } else {
      if x == [] {
        assert c.core.buffer + x == c.core.buffer && n.core.buffer + x == n.core.buffer;
        assert whole == c && n.Plus(x) == n;
      } else {
        ConsumeBeyond(c.core, x);
        var p := n.Plus(x);
        assert Parse(role, p) == Parse(role, p.(core := Consume(p.core)));
      }
    }
  }

  /** Once a prefix is parsed, the rest is parsed as if it had come at once. */
  lemma {:induction false} ParseSplit(role: Role, c: Conn, x: Bytes)
    requires c.Valid() && Parse(role, c).Ok?
    ensures Parse(role, c.Plus(x)) == Parse(role, Parse(role, c).conn.Plus(x))
    decreases |c.core.buffer|
  {
    if c.core.buffer != [] {
      var s := Step(role, c);
      if s.Next? {
        ParseSplit(role, s.conn, x);
        if c.core.state in {Body, ChunkData} {
          ParseConsume(role, c, x);
        } else {
          StepStable(role, c, x);
        }
      }
    }
  }

  /** An exception other than an overlong line does not depend on later bytes. */
  lemma {:induction false} ParseRaiseStable(role: Role, c: Conn, x: Bytes)
    requires c.Valid() && Parse(role, c).Raised? && Parse(role, c).error != LineTooLong
    ensures Parse(role, c.Plus(x)) == Raised(Parse(role, c).error, Parse(role, c).conn.Plus(x))
    decreases |c.core.buffer|
  {
    var s := Step(role, c);
    if s.Next? {
      ParseRaiseStable(role, s.conn, x);
      if c.core.state in {Body, ChunkData} {
        ParseConsume(role, c, x);
      } else {
        StepStable(role, c, x);
      }
    } else {
      StepStable(role, c, x);
    }
  }

  lemma {:induction false} PlusPlus(c: Conn, a: Bytes, b: Bytes)
    ensures c.Plus(a).Plus(b) == c.Plus(a + b)
  {
  }

  /** Two calls of `feed` equal one call with both fragments. */
  lemma {:induction false} FeedSplit(role: Role, c: Conn, a: Bytes, b: Bytes)
    requires c.Valid() && Feed(role, c, a).Ok?
    ensures Feed(role, c, a + b) == Feed(role, Feed(role, c, a).conn, b)
  {
    ParseSplit(role, c.Plus(a), b);
    PlusPlus(c, a, b);
  }

  /** Fragmentation independence: state, leftover, queue, log and even the
      exception of the last fragment are those of one call with all the bytes. */
  lemma {:induction false} FragmentationIndependence(role: Role, c: Conn, fragments: seq<Bytes>, last: Bytes)
    requires c.Valid() && FeedAll(role, c, fragments).Ok?
    ensures Feed(role, c, Concat(fragments) + last) == Feed(role, FeedAll(role, c, fragments).conn, last)
    decreases |fragments|
  {
    hide Parse;
    if fragments == [] {
      assert [] + last == last;
    } else {
      var first := Feed(role, c, fragments[0]);
      FragmentationIndependence(role, first.conn, fragments[1..], last);
      FeedSplit(role, c, fragments[0], Concat(fragments[1..]) + last);
      assert Concat(fragments) + last == fragments[0] + (Concat(fragments[1..]) + last);
    }
  }

  /** Exactly when cutting a stream in two is harmless: the whole parses, and
      the first piece does not end inside a line that is already too long. */
  lemma {:induction false} SplitIsHarmlessIff(role: Role, c: Conn, a: Bytes, b: Bytes)
    requires c.Valid()
    ensures FeedAll(role, c, [a, b]).Ok?
       <==> Feed(role, c, a + b).Ok? && !(Feed(role, c, a).Raised? && Feed(role, c, a).error == LineTooLong)
  {
    var first := Feed(role, c, a);
    assert [a, b][1..] == [b] && [b][1..] == [];
    if first.Ok? {
      FeedSplit(role, c, a, b);
      var second := Feed(role, first.conn, b);
      assert FeedAll(role, first.conn, [b]) == second;
    } else if first.error != LineTooLong {
      ParseRaiseStable(role, c.Plus(a), b);
      PlusPlus(c, a, b);
    }
  }

  function Filler(n: nat): (b: Bytes)
    ensures |b| == n && forall i :: 0 <= i < n ==> b[i] == ':'
  {
    seq(n, i => ':')
  }

  /** The other direction fails: one long header line parses in one piece but
      raises when its CR LF comes in a second fragment. */
  lemma {:induction false} OverlongLineDependsOnTheCut()
    ensures exists a: Bytes, b: Bytes, c: Conn ::
      && c.Valid()
      && Feed(Request, c, a + b).Ok?
      && FeedAll(Request, c, [a, b]) == Raised(LineTooLong, c.Plus(a))
  {
    var c := Conn(IDLE.(state := Headers), false, [], Log([], [], 0));
    var a := Filler(MAX_LINE + 1);
    assert NoCrlf(a);
    var whole := c.Plus(a + CRLF);
    assert [] + a == a;
    FindCrlfLine(a, []);
    assert [] + (a + CRLF) == a + CRLF + [];
    assert whole.core.buffer[..|a|] == a && whole.core.buffer[|a| + 2..] == [];
    var d := ParseHeader(a, Declared(false, 0));
    assert d.Some?;
    assert FeedAll(Request, c, [a, CRLF]) == Raised(LineTooLong, c.Plus(a));
    var s := Step(Request, whole);
    assert s == OnLine(Request, whole.(core := whole.core.(buffer := [])), a);
    assert s.Next? && s.conn.core.buffer == [];
    assert Parse(Request, whole) == Parse(Request, s.conn) == Ok(s.conn);
    assert Feed(Request, c, a + CRLF).Ok?;
  }

  predicate AwaitsLine(c: Core) {
    c.state !in {Body, ChunkData, ChunkCrlf}
  }

  /** No line that the parser takes from this buffer reaches the bound. */
  ghost predicate LinesShort(role: Role, c: Conn)
    requires c.Valid()
    decreases |c.core.buffer|
  {
    c.core.buffer != [] ==>
      match Step(role, c)
      case Next(n) => (AwaitsLine(c.core) ==> FindCrlf(c.core.buffer) < MAX_LINE) && LinesShort(role, n)
      case _ => true
  }

  lemma {:induction false} LinesShortConsume(role: Role, c: Conn, x: Bytes)
    requires c.Valid() && c.core.buffer != [] && c.core.state in {Body, ChunkData}
    requires LinesShort(role, c.Plus(x))
    ensures LinesShort(role, c.(core := Consume(c.core)).Plus(x))
  {
    hide OnLine, Consume;
    var whole, n := c.Plus(x), c.(core := Consume(c.core));
    assert LinesShort(role, whole.(core := Consume(whole.core)));
    if BodyLeft(c.core) <= |c.core.buffer| {
      ConsumeWithin(c.core, x);
    } else {
      if x == [] {
        assert whole == c && n.Plus(x) == n;
      } else {
        ConsumeBeyond(c.core, x);
        var p := n.Plus(x);
        assert p.(core := Consume(p.core)) == whole.(core := Consume(whole.core));
        assert LinesShort(role, p.(core := Consume(p.core)));
      }
    }
  }

  /** A stream of short lines parses only if each of its prefixes does. */
  lemma {:induction false} ShortPrefixParses(role: Role, c: Conn, x: Bytes)
    requires c.Valid() && Parse(role, c.Plus(x)).Ok? && LinesShort(role, c.Plus(x))
    ensures Parse(role, c).Ok?
    decreases |c.core.buffer|
  {
    if c.core.buffer != [] {
      match Step(role, c)
      case Wait =>
      case Next(n) =>
        if c.core.state in {Body, ChunkData} {
          ParseConsume(role, c, x);
          LinesShortConsume(role, c, x);
        } else {
          StepStable(role, c, x);
        }
        ShortPrefixParses(role, n, x);
      case Fail(e, n) =>
        StepStable(role, c, x);
        OverlongPrefix(role, c, x);
    }
  }

  lemma {:induction false} OverlongPrefix(role: Role, c: Conn, x: Bytes)
    requires c.Valid() && c.core.buffer != [] && Step(role, c).Fail? && Step(role, c).error == LineTooLong
    ensures Step(role, c.Plus(x)).Fail? || FindCrlf(c.core.buffer + x) >= MAX_LINE
  {
    var b := c.core.buffer;
    if AwaitsLine(c.core) && FindCrlf(b) >= 0 {
      var m := FindCrlf(b);
      OnLineStable(role, c.(core := c.core.(buffer := b[m + 2..])), b[..m], []);
    } else {
      FindCrlfBeyond(b, x);
    }
  }

  /** When no line reaches the bound, cutting the stream never matters at all. */
  lemma {:induction false} ShortLinesFragmentFreely(role: Role, c: Conn, fragments: seq<Bytes>)
    requires c.Valid() && Parse(role, c) == Ok(c) && LinesShort(role, c.Plus(Concat(fragments)))
    ensures FeedAll(role, c, fragments).Ok? <==> Feed(role, c, Concat(fragments)).Ok?
    ensures FeedAll(role, c, fragments).Ok? ==> FeedAll(role, c, fragments) == Feed(role, c, Concat(fragments))
    decreases |fragments|
  {
    if fragments == [] {
      assert c.Plus([]) == c;
    } else {
      var a, rest := fragments[0], Concat(fragments[1..]);
      PlusPlus(c, a, rest);
      if Feed(role, c, a + rest).Ok? {
        ShortPrefixParses(role, c.Plus(a), rest);
      }
      if Feed(role, c, a).Ok? {
        FeedSplit(role, c, a, rest);
        ParseSettles(role, c.Plus(a));
        ShortSuffix(role, c.Plus(a), rest);
        ShortLinesFragmentFreely(role, Feed(role, c, a).conn, fragments[1..]);
      }
    }
  }

  /** Parsing again without new bytes changes nothing. */
  lemma {:induction false} ParseSettles(role: Role, c: Conn)
    requires c.Valid() && Parse(role, c).Ok?
    ensures Parse(role, Parse(role, c).conn) == Parse(role, c)
    decreases |c.core.buffer|
  {
    if c.core.buffer != [] && Step(role, c).Next? {
      ParseSettles(role, Step(role, c).conn);
    }
  }

  lemma {:induction false} ShortSuffix(role: Role, c: Conn, x: Bytes)
    requires c.Valid() && Parse(role, c).Ok? && LinesShort(role, c.Plus(x))
    ensures LinesShort(role, Parse(role, c).conn.Plus(x))
    decreases |c.core.buffer|
  {
    if c.core.buffer != [] && Step(role, c).Next? {
      if c.core.state in {Body, ChunkData} {
        LinesShortConsume(role, c, x);
      } else {
        StepStable(role, c, x);
      }
      ShortSuffix(role, Step(role, c).conn, x);
    }
  }

  // ----- a long line always has a bad cut -----

  /** The connection with only the first `k` bytes of its buffer. */
  function Cut(c: Conn, k: nat): Conn
    requires k <= |c.core.buffer|
  {
    c.(core := c.core.(buffer := c.core.buffer[..k]))
  }

  predicate RaisesTooLong(r: Run) {
    r.Raised? && r.error == LineTooLong
  }

  /** Where the bytes up to `k` end, a line is unfinished and already too long. */
  lemma {:induction false} LongLineCut(role: Role, c: Conn) returns (k: nat)
    requires c.Valid() && Parse(role, c).Ok? && !LinesShort(role, c)
    ensures 0 < k <= |c.core.buffer| && Cut(c, k).Valid() && RaisesTooLong(Parse(role, Cut(c, k)))
    decreases |c.core.buffer|
  {
    hide Step, FindCrlf;
    var b := c.core.buffer;
    if AwaitsLine(c.core) && FindCrlf(b) >= MAX_LINE {
      k := FindCrlf(b) + 1;
      CutBeforeLf(role, c);
    } else {
      var n := Step(role, c).conn;
      var rest := LongLineCut(role, n);
      k := |b| - |n.core.buffer| + rest;
      CutStep(role, c, n, rest);
    }
  }

  /** The first line is too long: it raises when its last byte has not come. */
  lemma {:induction false} CutBeforeLf(role: Role, c: Conn)
    requires c.Valid() && AwaitsLine(c.core) && FindCrlf(c.core.buffer) >= MAX_LINE
    ensures
      var k := FindCrlf(c.core.buffer) + 1;
      k <= |c.core.buffer| && Cut(c, k).Valid() && RaisesTooLong(Parse(role, Cut(c, k)))
  {
    hide OnLine, FindCrlf, Consume;
    var b := c.core.buffer;
    var k := FindCrlf(b) + 1;
    assert b == b[..k] + b[k..];
    if FindCrlf(b[..k]) >= 0 {
      FindCrlfExtends(b[..k], b[k..]);
    }
    var v := Cut(c, k);
    assert Step(role, v) == Fail(LineTooLong, v);
  }

  /** Bytes behind the place where the next turn ends may be cut off before that turn. */
  lemma {:induction false} CutStep(role: Role, c: Conn, n: Conn, rest: nat)
    requires c.Valid() && c.core.buffer != [] && Step(role, c) == Next(n) && n.core.buffer != []
    requires 0 < rest <= |n.core.buffer|
    ensures |n.core.buffer| <= |c.core.buffer|
    ensures
      var k := |c.core.buffer| - |n.core.buffer| + rest;
      0 < k && Cut(c, k).Valid() && Step(role, Cut(c, k)) == Next(Cut(n, rest))
  {
    hide Step;
    var b := c.core.buffer;
    var k := |b| - |n.core.buffer| + rest;
    var v, tail := Cut(c, k), b[k..];
    assert v.Plus(tail) == c by {
      assert b[..k] + b[k..] == b;
    }
    if c.core.state in {Body, ChunkData} {
      CutBody(role, v, tail);
    } else if AwaitsLine(c.core) {
      CutLine(role, v, tail);
    } else {
      CutChunkEnd(role, v, tail);
    }
    SameCut(Step(role, v).conn, n, tail, rest);
  }

  lemma {:induction false} SameCut(n1: Conn, n: Conn, tail: Bytes, rest: nat)
    requires n1.Plus(tail) == n && |n.core.buffer| == rest + |tail|
    ensures n1 == Cut(n, rest)
  {
    assert n.core.buffer == n1.core.buffer + tail;
  }

  lemma {:induction false} CutBody(role: Role, v: Conn, tail: Bytes)
    requires v.Valid() && v.core.state in {Body, ChunkData} && v.core.buffer != []
    requires Step(role, v.Plus(tail)).Next? && |tail| < |Step(role, v.Plus(tail)).conn.core.buffer|
    ensures Step(role, v).Next? && Step(role, v.Plus(tail)) == Next(Step(role, v).conn.Plus(tail))
  {
    ConsumeWithin(v.core, tail);
  }

  lemma {:induction false} CutChunkEnd(role: Role, v: Conn, tail: Bytes)
    requires v.Valid() && v.core.state == ChunkCrlf && v.core.buffer != []
    requires Step(role, v.Plus(tail)).Next? && |tail| < |Step(role, v.Plus(tail)).conn.core.buffer|
    ensures Step(role, v).Next? && Step(role, v.Plus(tail)) == Next(Step(role, v).conn.Plus(tail))
  {
    StepStable(role, v, tail);
    assert (v.core.buffer + tail)[..2] == v.core.buffer[..2];
  }

  lemma {:induction false} CutLine(role: Role, v: Conn, tail: Bytes)
    requires v.Valid() && AwaitsLine(v.core) && v.core.buffer != []
    requires Step(role, v.Plus(tail)).Next? && |tail| < |Step(role, v.Plus(tail)).conn.core.buffer|
    ensures Step(role, v).Next? && Step(role, v.Plus(tail)) == Next(Step(role, v).conn.Plus(tail))
  {
    hide OnLine;
    var b := v.core.buffer;
    var m := FindCrlf(b + tail);
    var whole := v.Plus(tail);
    var after := whole.(core := whole.core.(buffer := (b + tail)[m + 2..]));
    OnLineStable(role, after, (b + tail)[..m], []);
    LineKeepsBuffer(role, after, (b + tail)[..m]);
    if FindCrlf(b) < 0 {
      FindCrlfBeyond(b, tail);
    }
    LineStable(role, v, tail);
    OnLineStable(role, v.(core := v.core.(buffer := b[FindCrlf(b) + 2..])), b[..FindCrlf(b)], []);
  }

  lemma {:induction false} LineKeepsBuffer(role: Role, c: Conn, line: Bytes)
    requires c.Valid() && AwaitsLine(c.core)
    ensures OnLine(role, c, line).Next? ==> OnLine(role, c, line).conn.core.buffer == c.core.buffer
  {
    hide ClassifyPath, SplitTwice, ParseNumber, ParseHeader;
  }

  /** A parser that has settled has settled on every prefix of what it holds. */
  lemma {:induction false} PrefixWaits(role: Role, c: Conn, k: nat)
    requires c.Valid() && Parse(role, c) == Ok(c) && k <= |c.core.buffer|
    ensures Cut(c, k).Valid() && Parse(role, Cut(c, k)).Ok?
  {
    hide OnLine, FindCrlf, Consume;
    if k > 0 {
      var b := c.core.buffer;
      assert b == b[..k] + b[k..];
      if Step(role, c).Next? {
        ParseShrinks(role, Step(role, c).conn);
      }
      if FindCrlf(b[..k]) >= 0 {
        FindCrlfExtends(b[..k], b[k..]);
      }
    }
  }

  lemma {:induction false} ParseShrinks(role: Role, c: Conn)
    requires c.Valid() && Parse(role, c).Ok?
    ensures |Parse(role, c).conn.core.buffer| <= |c.core.buffer|
    decreases |c.core.buffer|
  {
    hide Step;
    if c.core.buffer != [] && Step(role, c).Next? {
      ParseShrinks(role, Step(role, c).conn);
    }
  }

  /** A stream with a long line raises when it is cut within that line. */
  lemma {:induction false} LongLineBreaks(role: Role, c: Conn, x: Bytes) returns (a: Bytes, b: Bytes)
    requires c.Valid() && Parse(role, c) == Ok(c) && Feed(role, c, x).Ok? && !LinesShort(role, c.Plus(x))
    ensures a + b == x && RaisesTooLong(Feed(role, c, a))
  {
    hide Parse, LinesShort;
    var whole, held := c.Plus(x), |c.core.buffer|;
    var k := LongLineCut(role, whole);
    if k < held {
      assert Cut(whole, k) == Cut(c, k) by {
        assert whole.core.buffer[..k] == c.core.buffer[..k];
      }
      PrefixWaits(role, c, k);
    }
    a, b := x[..k - held], x[k - held..];
    assert Cut(whole, k) == c.Plus(a) by {
      assert whole.core.buffer[..k] == c.core.buffer + a;
    }
  }

  /** Cutting a stream that parses in one piece is always harmless, in two pieces or in
      any number, if and only if no line in it reaches the bound. */
  lemma {:induction false} CutsAreHarmlessIff(role: Role, c: Conn, x: Bytes)
    requires c.Valid() && Parse(role, c) == Ok(c) && Feed(role, c, x).Ok?
    ensures (forall a: Bytes, b: Bytes :: a + b == x ==> FeedAll(role, c, [a, b]).Ok?) <==> LinesShort(role, c.Plus(x))
    ensures (forall fragments :: Concat(fragments) == x ==> FeedAll(role, c, fragments) == Feed(role, c, x))
      <==> LinesShort(role, c.Plus(x))
  {
    hide Parse, LinesShort, FeedAll, Feed, Concat;
    if LinesShort(role, c.Plus(x)) {
      forall a: Bytes, b: Bytes | a + b == x ensures FeedAll(role, c, [a, b]).Ok? {
        TwoPieces(a, b);
        ShortLinesFragmentFreely(role, c, [a, b]);
      }
      forall fragments | Concat(fragments) == x ensures FeedAll(role, c, fragments) == Feed(role, c, x) {
        ShortLinesFragmentFreely(role, c, fragments);
      }
    } else {
      var a, b := LongLineBreaks(role, c, x);
      TwoPieces(a, b);
      SplitIsHarmlessIff(role, c, a, b);
      assert !FeedAll(role, c, [a, b]).Ok?;
      assert Concat([a, b]) == x;
    }
  }

  lemma {:induction false} TwoPieces(a: Bytes, b: Bytes)
    ensures Concat([a, b]) == a + b
  {
    assert [a, b][1..] == [b] && [b][1..] == [];
    assert Concat([b]) == b + Concat([]) == b;
  }
}
