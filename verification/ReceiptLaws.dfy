/** Printing and parsing undo each other, both ways. */
module ReceiptLaws {
  import opened Wrappers
  import opened Decimal
  import opened ReceiptCodec

  // ----- tabs -----

  predicate NoTab(s: string) {
    forall i :: 0 <= i < |s| ==> s[i] != '\t'
  }

  lemma {:induction false} FirstTabAt(a: string, b: string)
    requires NoTab(a)
    ensures FirstTab(a + "\t" + b) == |a|
  {
    var s := a + "\t" + b;
    assert s[|a|] == '\t';
    assert forall k :: 0 <= k < |a| ==> s[k] == a[k];
  }

  lemma {:induction false} SplitThree(a: string, b: string, c: string)
    requires NoTab(a) && NoTab(b) && NoTab(c)
    ensures SplitTabs(a + "\t" + b + "\t" + c) == [a, b, c]
  {
    var rest := b + "\t" + c;
    var s := a + "\t" + rest;
    assert a + "\t" + b + "\t" + c == s;
    FirstTabAt(a, rest);
    FirstTabAt(b, c);
    assert s[..|a|] == a && s[|a| + 1..] == rest;
    assert rest[..|b|] == b && rest[|b| + 1..] == c;
    assert SplitTabs(c) == [c];
    assert SplitTabs(rest) == [b] + SplitTabs(c);
  }

  function JoinTabs(parts: seq<string>): string
    requires parts != []
  {
    if |parts| == 1 then parts[0] else parts[0] + "\t" + JoinTabs(parts[1..])
  }

  lemma {:induction false} JoinSplitTabs(s: string)
    ensures JoinTabs(SplitTabs(s)) == s
    decreases |s|
  {
    var i := FirstTab(s);
    if i < |s| {
      JoinSplitTabs(s[i + 1..]);
      assert ([s[..i]] + SplitTabs(s[i + 1..]))[1..] == SplitTabs(s[i + 1..]);
      assert s == s[..i] + "\t" + s[i + 1..];
    }
  }

  lemma {:induction false} ThreeParts(s: string)
    requires |SplitTabs(s)| == 3
    ensures var p := SplitTabs(s); s == p[0] + "\t" + p[1] + "\t" + p[2]
  {
    JoinSplitTabs(s);
    hide SplitTabs;
    var p := SplitTabs(s);
    assert p[1..] == [p[1], p[2]] && p[1..][1..] == [p[2]];
    assert JoinTabs([p[2]]) == p[2] && JoinTabs([p[1], p[2]]) == p[1] + "\t" + p[2];
    assert p[0] + "\t" + (p[1] + "\t" + p[2]) == p[0] + "\t" + p[1] + "\t" + p[2];
  }

  // ----- one line -----

  lemma {:induction false} TokensAreQuiet(s: string)
    requires IsWord(s)
    ensures NoTab(s) && forall i :: 0 <= i < |s| ==> !IsLineEnd(s[i]) && s[i] != 0 as char
  {
  }

  lemma {:induction false} ValueRoundTrip(f: Format, s: Spec, v: Value)
    requires ProperFormat(f) && ValidField(f, s, v)
    ensures ParseValue(s.kind, ValueText(v)) == Some(v) && IsWord(ValueText(v)) && IsWord(KindText(s.kind))
  {
    if s.kind == IntKind {
      NatRoundTrip(v.number);
    }
  }

  /** What a field's text is read as prints as the same text. */
  lemma {:induction false} ValueTextOfParsed(k: Kind, raw: string)
    ensures ParseValue(k, raw).Some? ==> ValueText(ParseValue(k, raw).value) == raw
  {
    if k == IntKind && IsNatText(raw) {
      NatTextOfValue(raw);
    }
  }

  lemma {:induction false} KindFound(specs: seq<Spec>, i: nat)
    requires i < |specs| && forall a, b :: 0 <= a < b < |specs| ==> specs[a].key != specs[b].key
    ensures KindIn(specs, specs[i].key) == Some(specs[i].kind)
    decreases |specs|
  {
    var n := |specs| - 1;
    if i < n {
      KindFound(specs[..n], i);
    }
  }

  lemma {:induction false} LineRoundTrip(f: Format, i: nat, v: Value)
    requires ProperFormat(f) && i < |f.specs| && ValidField(f, f.specs[i], v)
    ensures ParseLine(f, Line(f.specs[i], v)) == Some((f.specs[i].key, v))
    ensures Quiet(Line(f.specs[i], v))
  {
    var s := f.specs[i];
    ValueRoundTrip(f, s, v);
    TokensAreQuiet(s.key);
    TokensAreQuiet(KindText(s.kind));
    TokensAreQuiet(ValueText(v));
    SplitThree(s.key, KindText(s.kind), ValueText(v));
    KindFound(f.specs, i);
    hide SplitTabs, KindIn, ValidField;
    QuietLine(s.key, KindText(s.kind), ValueText(v));
  }

  /** No line end and no NUL. */
  predicate Quiet(line: string) {
    forall i :: 0 <= i < |line| ==> !IsLineEnd(line[i]) && line[i] != 0 as char
  }

  lemma {:induction false} QuietLine(a: string, b: string, c: string)
    requires IsWord(a) && IsWord(b) && IsWord(c)
    ensures Quiet(a + "\t" + b + "\t" + c)
  {
    var s := a + "\t" + b + "\t" + c;
    TokensAreQuiet(a);
    TokensAreQuiet(b);
    TokensAreQuiet(c);
    forall i | 0 <= i < |s| ensures !IsLineEnd(s[i]) && s[i] != 0 as char {
      assert s[i] in a || s[i] in b || s[i] in c || s[i] == '\t';
    }
  }

  /** An accepted line is the printed form of what was read from it. */
  lemma {:induction false} AcceptedLine(f: Format, line: string)
    ensures ParseLine(f, line).Some? ==>
      var (key, v) := ParseLine(f, line).value;
      KindOf(f, key).Some? && line == Line(Spec(key, KindOf(f, key).value), v)
  {
    if ParseLine(f, line).Some? {
      ThreeParts(line);
      var p := SplitTabs(line);
      ValueTextOfParsed(KindOf(f, p[0]).value, p[2]);
    }
  }

  // ----- all lines -----

  lemma {:induction false} SplitOne(line: string, rest: string)
    requires Quiet(line)
    ensures SplitLines(line + "\n" + rest) == [line] + SplitLines(rest)
  {
    var text := line + "\n" + rest;
    FirstEndAt(line, rest);
    hide FirstEnd;
    assert text[..|line|] == line && text[|line| + 1..] == rest;
  }

  lemma {:induction false} SplitJoin(lines: seq<string>)
    requires lines != [] && forall i :: 0 <= i < |lines| ==> Quiet(lines[i])
    ensures SplitLines(Join(lines)) == lines
    ensures ProperText(Join(lines))
    decreases |lines|
  {
    var line := lines[0];
    hide Quiet;
    assert lines == [line] + lines[1..];
    if |lines| == 1 {
      assert line + "\n" + "" == line + "\n";
      SplitOne(line, "");
      QuietEnds(line, "");
    } else {
      var rest := Join(lines[1..]);
      SplitJoin(lines[1..]);
      SplitOne(line, rest);
      hide SplitLines;
      QuietEnds(line, rest);
    }
  }

  lemma {:induction false} FirstEndAt(line: string, rest: string)
    requires Quiet(line)
    ensures FirstEnd(line + "\n" + rest) == |line|
  {
    var s := line + "\n" + rest;
    assert s[|line|] == '\n';
    assert forall k :: 0 <= k < |line| ==> s[k] == line[k];
  }

  lemma {:induction false} QuietEnds(line: string, rest: string)
    requires Quiet(line) && (rest == "" || ProperText(rest))
    ensures ProperText(line + "\n" + rest)
  {
    var s := line + "\n" + rest;
    forall i | 0 <= i < |s| ensures s[i] != '\r' && s[i] != 0 as char {
      assert i < |line| ==> s[i] == line[i];
      assert i > |line| ==> s[i] == rest[i - |line| - 1] && s[i] in rest;
    }
  }

  /** The part of a receipt with the given keys. */
  function Part(r: Record, keys: set<string>): Record {
    map key | key in keys && key in r :: r[key]
  }

  lemma {:induction false} FreshKey(f: Format, n: nat)
    requires ProperFormat(f) && n < |f.specs|
    ensures f.specs[n].key !in KeysOf(f.specs[..n])
  {
    forall t | t in f.specs[..n] ensures t.key != f.specs[n].key {
      var i :| 0 <= i < n && f.specs[i] == t;
    }
  }

  lemma {:induction false} KeysGrow(specs: seq<Spec>, n: nat)
    requires n < |specs|
    ensures KeysOf(specs[..n + 1]) == KeysOf(specs[..n]) + {specs[n].key}
  {
    assert specs[..n + 1] == specs[..n] + [specs[n]];
    forall key ensures key in KeysOf(specs[..n + 1]) <==> key in KeysOf(specs[..n]) + {specs[n].key} {
      if key in KeysOf(specs[..n]) {
        var t :| t in specs[..n] && t.key == key;
        assert t in specs[..n + 1];
      }
      assert specs[n] in specs[..n + 1];
    }
  }

  lemma {:induction false} PartGrows(r: Record, keys: set<string>, key: string)
    requires key in r && key !in keys
    ensures key !in Part(r, keys) && Part(r, keys + {key}) == Part(r, keys)[key := r[key]]
  {
  }

  lemma {:induction false} ParseStep(f: Format, lines: seq<string>, n: nat, r: Record, key: string, v: Value)
    requires 0 < n <= |lines| && ParseLines(f, lines[..n - 1]) == Some(r)
    requires ParseLine(f, lines[n - 1]) == Some((key, v)) && key !in r
    ensures ParseLines(f, lines[..n]) == Some(r[key := v])
  {
    hide ParseLine;
    assert lines[..n][..n - 1] == lines[..n - 1];
  }

  lemma {:induction false} ParsePrinted(f: Format, cross: Record -> bool, r: Record, lines: seq<string>, n: nat)
    requires ProperFormat(f) && ValidRecord(f, cross, r) && n <= |f.specs| && lines == Lines(f.specs, r)
    ensures ParseLines(f, lines[..n]) == Some(Part(r, KeysOf(f.specs[..n])))
    decreases n
  {
    if n == 0 {
      assert Part(r, KeysOf([])) == map[];
    } else {
      ParsePrinted(f, cross, r, lines, n - 1);
      var s := f.specs[n - 1];
      assert s in f.specs && ValidField(f, s, r[s.key]);
      LineRoundTrip(f, n - 1, r[s.key]);
      FreshKey(f, n - 1);
      KeysGrow(f.specs, n - 1);
      var keys := KeysOf(f.specs[..n - 1]);
      hide ParseLine, ValidField, Line, Part, KeysOf, ProperFormat, ParseLines;
      PartGrows(r, keys, s.key);
      ParseStep(f, lines, n, Part(r, keys), s.key, r[s.key]);
    }
  }

  lemma {:induction false} LinesAreQuiet(f: Format, cross: Record -> bool, r: Record, i: nat)
    requires ProperFormat(f) && ValidRecord(f, cross, r) && i < |f.specs|
    ensures Quiet(Lines(f.specs, r)[i])
  {
    var s := f.specs[i];
    assert s in f.specs && ValidField(f, s, r[s.key]);
    LineRoundTrip(f, i, r[s.key]);
  }

  /** Printing a valid receipt and parsing the text gives the receipt back. */
  lemma {:induction false} RoundTrip(f: Format, cross: Record -> bool, r: Record)
    requires ProperFormat(f) && f.specs != [] && ValidRecord(f, cross, r)
    ensures Parses(f, cross, Join(Lines(f.specs, r)), r)
  {
    hide Quiet, ParseLines, Line, ProperFormat, Join, SplitLines, ProperText;
    var lines := Lines(f.specs, r);
    forall i | 0 <= i < |lines| ensures Quiet(lines[i]) {
      LinesAreQuiet(f, cross, r, i);
    }
    SplitJoin(lines);
    ParsePrinted(f, cross, r, lines, |f.specs|);
    assert lines[..|f.specs|] == lines && f.specs[..|f.specs|] == f.specs;
    assert Part(r, KeysOf(f.specs)) == r;
  }

  // ----- every accepted text -----

  function Printed(f: Format, r: Record, key: string): string
    requires key in r && KindOf(f, key).Some?
  {
    Line(Spec(key, KindOf(f, key).value), r[key])
  }

  /** The keys of the lines, in order. */
  ghost predicate KeysAre(f: Format, lines: seq<string>, keys: seq<string>, r: Record) {
    && |keys| == |lines| && (forall i, j :: 0 <= i < j < |keys| ==> keys[i] != keys[j])
    && (forall key :: key in r <==> key in keys)
    && (forall i :: 0 <= i < |keys| ==>
          keys[i] in r && KindOf(f, keys[i]).Some? && lines[i] == Printed(f, r, keys[i]))
  }

  lemma {:induction false} AcceptedLines(f: Format, lines: seq<string>) returns (keys: seq<string>)
    requires ParseLines(f, lines).Some?
    ensures KeysAre(f, lines, keys, ParseLines(f, lines).value)
    decreases |lines|
  {
    hide ParseLine, KindOf, Line, KeysAre;
    if lines == [] {
      keys := [];
      NoKeys(f);
    } else {
      var n := |lines| - 1;
      var before := AcceptedLines(f, lines[..n]);
      AcceptedLine(f, lines[n]);
      var (key, v) := ParseLine(f, lines[n]).value;
      keys := before + [key];
      OneMoreKey(f, lines[..n], before, ParseLines(f, lines[..n]).value, lines[n], key, v);
      assert lines == lines[..n] + [lines[n]];
    }
  }

  lemma {:induction false} NoKeys(f: Format)
    ensures KeysAre(f, [], [], map[])
  {
  }

  lemma {:induction false} OneMoreKey(
    f: Format, lines: seq<string>, keys: seq<string>, r: Record, line: string, key: string, v: Value)
    requires KeysAre(f, lines, keys, r) && key !in r
    requires KindOf(f, key).Some? && line == Line(Spec(key, KindOf(f, key).value), v)
    ensures KeysAre(f, lines + [line], keys + [key], r[key := v])
  {
    hide KindOf, Line;
    var t, more := r[key := v], keys + [key];
    forall k ensures k in t <==> k in more {
      assert k in more <==> k in keys || k == key;
    }
    forall i | 0 <= i < |more|
      ensures more[i] in t && KindOf(f, more[i]).Some? && (lines + [line])[i] == Printed(f, t, more[i])
    {
      if i < |keys| {
        assert more[i] == keys[i] && keys[i] in r && keys[i] != key;
      }
    }
    forall i, j | 0 <= i < j < |more| ensures more[i] != more[j] {
      assert more[i] == keys[i] && keys[i] in r;
    }
  }

  function KeySeq(specs: seq<Spec>): (keys: seq<string>)
    ensures |keys| == |specs| && forall i :: 0 <= i < |specs| ==> keys[i] == specs[i].key
  {
    seq(|specs|, i requires 0 <= i < |specs| => specs[i].key)
  }

  lemma {:induction false} CountOnce(keys: seq<string>, key: string)
    requires forall i, j :: 0 <= i < j < |keys| ==> keys[i] != keys[j]
    ensures multiset(keys)[key] == if key in keys then 1 else 0
    decreases |keys|
  {
    if keys != [] {
      var n := |keys| - 1;
      CountOnce(keys[..n], key);
      assert keys == keys[..n] + [keys[n]];
      assert key in keys <==> key in keys[..n] || key == keys[n];
      assert keys[n] !in keys[..n];
    }
  }

  lemma {:induction false} Extract<T>(b: seq<T>, i: nat)
    requires i < |b|
    ensures b == b[..i] + ([b[i]] + b[i + 1..])
    ensures multiset(b) == multiset{b[i]} + multiset(b[..i] + b[i + 1..])
  {
    assert b == b[..i] + ([b[i]] + b[i + 1..]);
  }

  lemma {:induction false} PrintedExtract(f: Format, r: Record, b: seq<string>, i: nat)
    requires i < |b| && forall key | key in b :: key in r && KindOf(f, key).Some?
    ensures forall key | key in b[..i] + b[i + 1..] :: key in r && KindOf(f, key).Some?
    ensures multiset(PrintedAll(f, r, b)) == multiset{Printed(f, r, b[i])} + multiset(PrintedAll(f, r, b[..i] + b[i + 1..]))
  {
    hide Printed, KindOf;
    var all := PrintedAll(f, r, b);
    Extract(all, i);
    assert PrintedAll(f, r, b[..i] + b[i + 1..]) == all[..i] + all[i + 1..];
  }

  lemma {:induction false} Cancel<T>(a: multiset<T>, b: multiset<T>, c: multiset<T>)
    requires a + b == a + c
    ensures b == c
  {
    assert b == a + b - a && c == a + c - a;
  }

  /** Two listings of the same keys print as permutations of each other. */
  lemma {:induction false} SameKeysSameLines(f: Format, r: Record, a: seq<string>, b: seq<string>)
    requires multiset(a) == multiset(b)
    requires forall key | key in a || key in b :: key in r && KindOf(f, key).Some?
    ensures multiset(PrintedAll(f, r, a)) == multiset(PrintedAll(f, r, b))
    decreases |a|
  {
    hide Printed, KindOf;
    if a == [] {
      assert |multiset(b)| == |b| && |multiset(a)| == |a|;
    } else {
      var x := a[0];
      assert x in multiset(a);
      assert x in b;
      var i :| 0 <= i < |b| && b[i] == x;
      var rest := b[..i] + b[i + 1..];
      Extract(a, 0);
      Extract(b, i);
      PrintedExtract(f, r, a, 0);
      PrintedExtract(f, r, b, i);
      assert a[..0] + a[1..] == a[1..];
      Cancel(multiset{x}, multiset(a[1..]), multiset(rest));
      SameKeysSameLines(f, r, a[1..], rest);
    }
  }

  function PrintedAll(f: Format, r: Record, keys: seq<string>): (ls: seq<string>)
    requires forall key | key in keys :: key in r && KindOf(f, key).Some?
    ensures |ls| == |keys| && forall i :: 0 <= i < |keys| ==> ls[i] == Printed(f, r, keys[i])
  {
    seq(|keys|, i requires 0 <= i < |keys| => assert keys[i] in keys; Printed(f, r, keys[i]))
  }

  lemma {:induction false} SameKeys(f: Format, cross: Record -> bool, lines: seq<string>, keys: seq<string>, r: Record)
    requires ProperFormat(f) && ValidRecord(f, cross, r) && KeysAre(f, lines, keys, r)
    ensures multiset(keys) == multiset(KeySeq(f.specs))
  {
    hide KindOf, Printed;
    var wanted := KeySeq(f.specs);
    forall key ensures key in keys <==> key in wanted {
      if key in wanted {
        var i :| 0 <= i < |wanted| && wanted[i] == key;
        assert f.specs[i] in f.specs;
      }
      if key in keys {
        assert key in r;
        var s :| s in f.specs && s.key == key;
        var i :| 0 <= i < |f.specs| && f.specs[i] == s;
        assert wanted[i] == key;
      }
    }
    forall key: string ensures multiset(keys)[key] == multiset(wanted)[key] {
      CountOnce(keys, key);
      CountOnce(wanted, key);
    }
  }

  /** Whatever text is accepted, printing what was read gives the same lines in the
      order of the field list. */
  lemma {:induction false} AcceptedTextIsPrinted(f: Format, cross: Record -> bool, text: string, r: Record)
    requires ProperFormat(f) && Parses(f, cross, text, r)
    ensures multiset(Lines(f.specs, r)) == multiset(SplitLines(text))
  {
    hide SplitLines, ParseLines, ProperText, KindOf, Line;
    var lines := SplitLines(text);
    var keys := AcceptedLines(f, lines);
    SameKeys(f, cross, lines, keys, r);
    var wanted := KeySeq(f.specs);
    forall i | 0 <= i < |f.specs|
      ensures KindOf(f, wanted[i]) == Some(f.specs[i].kind) && wanted[i] in r
    {
      KindOfSpec(f, i);
      assert f.specs[i] in f.specs;
    }
    hide ProperFormat, ValidRecord;
    forall key | key in keys || key in wanted ensures key in r && KindOf(f, key).Some? {
    }
    SameKeysSameLines(f, r, keys, wanted);
    assert PrintedAll(f, r, keys) == lines;
    assert PrintedAll(f, r, wanted) == Lines(f.specs, r);
  }

  lemma {:induction false} KindOfSpec(f: Format, i: nat)
    requires ProperFormat(f) && i < |f.specs|
    ensures KindOf(f, f.specs[i].key) == Some(f.specs[i].kind)
  {
    KindFound(f.specs, i);
  }
}
