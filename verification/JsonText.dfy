/**
 JSON values and their canonical text, `json.dumps(value, sort_keys=True,
 separators=(",", ":"))`.  An object is written as its fields in key order, so
 that two dictionaries are equal exactly when their values here are equal.
 */
module JsonText {
  import opened Decimal

  datatype Field = Field(key: string, value: Json)

  datatype Json =
    | Null
    | Bool(b: bool)
    | Int(i: int)
    | Float(text: string)
    | Str(s: string)
    | Arr(items: seq<Json>)
    | Obj(fields: seq<Field>)

  /** Order of keys by code point. */
  predicate Before(a: string, b: string) {
    if b == [] then false
    else if a == [] then true
    else a[0] < b[0] || (a[0] == b[0] && Before(a[1..], b[1..]))
  }

  predicate KeysSorted(fields: seq<Field>) {
    forall i, j :: 0 <= i < j < |fields| ==> Before(fields[i].key, fields[j].key)
  }

  // Characters of numbers and of the words null, true and false.
  predicate IsTokenChar(c: char) {
    IsDigit(c) || 'a' <= c <= 'z' || 'A' <= c <= 'Z' || c == '-' || c == '+' || c == '.'
  }

  predicate IsToken(t: string) {
    t != [] && forall i :: 0 <= i < |t| ==> IsTokenChar(t[i])
  }

  /** A float is known by its text, which is not the text of anything else. */
  ghost predicate ProperFloat(t: string) {
    IsToken(t) && t != "null" && t != "true" && t != "false" && forall i :: t != IntText(i)
  }

  ghost predicate Proper(j: Json) {
    match j
    case Float(t) => ProperFloat(t)
    case Arr(items) => forall i :: 0 <= i < |items| ==> Proper(items[i])
    case Obj(fields) => KeysSorted(fields) && forall i :: 0 <= i < |fields| ==> Proper(fields[i].value)
    case _ => true
  }

  // ----- strings -----

  function HexChar(d: nat): char
    requires d < 16
  {
    if d < 10 then ('0' as int + d) as char else ('a' as int + d - 10) as char
  }

  function HexFour(n: nat): (s: string)
    requires n < 0x10000
    ensures |s| == 4
  {
    var p := n / 16;
    var q := p / 16;
    [HexChar(q / 16), HexChar(q % 16), HexChar(p % 16), HexChar(n % 16)]
  }

  function Escape(c: char): (s: string)
    ensures s != []
  {
    if c == '\"' then "\\\""
    else if c == '\\' then "\\\\"
    else if c == '\n' then "\\n"
    else if c == '\r' then "\\r"
    else if c == '\t' then "\\t"
    else if c == '\U{000C}' then "\\f"
    else if c == '\U{0008}' then "\\b"
    else if ' ' <= c <= '~' then [c]
    else
      var n := c as int;
      if n < 0x10000 then "\\u" + HexFour(n)
      else
        var v := n - 0x10000;
        "\\u" + HexFour(0xD800 + v / 0x400) + "\\u" + HexFour(0xDC00 + v % 0x400)
  }

  function EscapeAll(s: string): string {
    if s == [] then [] else Escape(s[0]) + EscapeAll(s[1..])
  }

  function Quote(s: string): string {
    "\"" + EscapeAll(s) + "\""
  }

  // ----- values -----

  function TokenOf(j: Json): string
    requires j.Null? || j.Bool? || j.Int? || j.Float?
  {
    match j
    case Null => "null"
    case Bool(b) => if b then "true" else "false"
    case Int(i) => IntText(i)
    case Float(t) => t
  }

  function Encode(j: Json): string
    decreases j
  {
    match j
    case Str(s) => Quote(s)
    case Arr(items) => "[" + EncodeItems(items) + "]"
    case Obj(fields) => "{" + EncodeFields(fields) + "}"
    case _ => TokenOf(j)
  }

  function EncodeItems(items: seq<Json>): string
    decreases items
  {
    if items == [] then []
    else if |items| == 1 then Encode(items[0])
    else Encode(items[0]) + "," + EncodeItems(items[1..])
  }

  function EncodeField(f: Field): string
    decreases f
  {
    Quote(f.key) + ":" + Encode(f.value)
  }

  function EncodeFields(fields: seq<Field>): string
    decreases fields
  {
    if fields == [] then []
    else if |fields| == 1 then EncodeField(fields[0])
    else EncodeField(fields[0]) + "," + EncodeFields(fields[1..])
  }

  // ----- the text determines the value -----

  lemma {:induction false} HexCharInjective(a: nat, b: nat)
    requires a < 16 && b < 16 && HexChar(a) == HexChar(b)
    ensures a == b
  {
  }

  lemma {:induction false} HexFourInjective(a: nat, b: nat)
    requires a < 0x10000 && b < 0x10000 && HexFour(a) == HexFour(b)
    ensures a == b
  {
    var s, t := HexFour(a), HexFour(b);
    assert s[0] == t[0] && s[1] == t[1] && s[2] == t[2] && s[3] == t[3];
    HexCharInjective(a / 16 / 16 / 16, b / 16 / 16 / 16);
    HexCharInjective(a / 16 / 16 % 16, b / 16 / 16 % 16);
    HexCharInjective(a / 16 % 16, b / 16 % 16);
    HexCharInjective(a % 16, b % 16);
  }

  /** No escape is a prefix of another one. */
  lemma {:induction false} EscapeStep(c: char, d: char, x: string, y: string)
    requires Escape(c) + x == Escape(d) + y
    ensures c == d && x == y
  {
    var s, t := Escape(c), Escape(d);
    var both := s + x;
    assert both[0] == s[0] == t[0];
    if s[0] != '\\' {
      assert s == [c] && t == [d];
      assert x == both[1..] == y;
    } else {
      assert both[1] == s[1] == t[1];
      if s[1] != 'u' {
        assert |s| == |t| == 2;
        assert x == both[2..] == y;
      } else {
        assert both[2..6] == s[2..6] == t[2..6];
        WideEscape(c, d);
        assert |s| == |t|;
        assert x == both[|s|..] == y;
        assert s == both[..|s|] == t;
        EscapeInjective(c, d);
      }
    }
  }

  /** Both escapes have six characters, or both have twelve. */
  lemma {:induction false} WideEscape(c: char, d: char)
    requires |Escape(c)| >= 6 && |Escape(d)| >= 6 && Escape(c)[2..6] == Escape(d)[2..6]
    ensures |Escape(c)| == |Escape(d)|
  {
    hide HexFour;
    var m, n := c as int, d as int;
    assert m < 0x10000 ==> Escape(c)[2..6] == HexFour(m);
    assert n < 0x10000 ==> Escape(d)[2..6] == HexFour(n);
    assert m >= 0x10000 ==> Escape(c)[2..6] == HexFour(0xD800 + (m - 0x10000) / 0x400);
    assert n >= 0x10000 ==> Escape(d)[2..6] == HexFour(0xD800 + (n - 0x10000) / 0x400);
    HexFourInjective(
      if m < 0x10000 then m else 0xD800 + (m - 0x10000) / 0x400,
      if n < 0x10000 then n else 0xD800 + (n - 0x10000) / 0x400);
  }

  lemma {:induction false} EscapeInjective(c: char, d: char)
    requires |Escape(c)| >= 6 && Escape(c) == Escape(d)
    ensures c == d
  {
    hide HexFour;
    var m, n := c as int, d as int;
    if m < 0x10000 {
      assert Escape(c)[2..6] == HexFour(m) && Escape(d)[2..6] == HexFour(n);
      HexFourInjective(m, n);
    } else {
      var v, w := m - 0x10000, n - 0x10000;
      assert Escape(c)[2..6] == HexFour(0xD800 + v / 0x400) && Escape(d)[2..6] == HexFour(0xD800 + w / 0x400);
      assert Escape(c)[8..12] == HexFour(0xDC00 + v % 0x400) && Escape(d)[8..12] == HexFour(0xDC00 + w % 0x400);
      HexFourInjective(0xD800 + v / 0x400, 0xD800 + w / 0x400);
      HexFourInjective(0xDC00 + v % 0x400, 0xDC00 + w % 0x400);
    }
  }

  lemma {:induction false} EscapeNeverQuotes(c: char)
    ensures Escape(c)[0] != '\"'
  {
  }

  lemma {:induction false} EscapeAllStarts(s: string, x: string)
    ensures var l := EscapeAll(s) + "\"" + x;
      l != [] && (l[0] == '\"' <==> s == []) && (s == [] ==> l[1..] == x)
  {
    if s != [] {
      EscapeNeverQuotes(s[0]);
    }
  }

  /** A string literal ends at the same place in both readings. */
  lemma {:induction false} EscapeAllStep(s: string, t: string, x: string, y: string)
    requires EscapeAll(s) + "\"" + x == EscapeAll(t) + "\"" + y
    ensures s == t && x == y
    decreases |s|
  {
    hide Escape;
    var l, r := EscapeAll(s) + "\"" + x, EscapeAll(t) + "\"" + y;
    EscapeAllStarts(s, x);
    EscapeAllStarts(t, y);
    if s != [] && t != [] {
      var s', t' := EscapeAll(s[1..]) + "\"" + x, EscapeAll(t[1..]) + "\"" + y;
      assert l == Escape(s[0]) + s' && r == Escape(t[0]) + t';
      EscapeStep(s[0], t[0], s', t');
      EscapeAllStep(s[1..], t[1..], x, y);
      assert s == [s[0]] + s[1..] && t == [t[0]] + t[1..];
    }
  }

  lemma {:induction false} QuoteStep(s: string, t: string, x: string, y: string)
    requires Quote(s) + x == Quote(t) + y
    ensures s == t && x == y
  {
    var l, r := EscapeAll(s) + "\"" + x, EscapeAll(t) + "\"" + y;
    assert Quote(s) + x == "\"" + l && Quote(t) + y == "\"" + r;
    assert ("\"" + l)[1..] == l && ("\"" + r)[1..] == r;
    EscapeAllStep(s, t, x, y);
  }

  predicate Ends(x: string) {
    x == [] || !IsTokenChar(x[0])
  }

  /** Length of the token at the start of a text. */
  function TokenLength(s: string): nat {
    if s == [] || !IsTokenChar(s[0]) then 0 else 1 + TokenLength(s[1..])
  }

  lemma {:induction false} TokenLengthOf(s: string, x: string)
    requires (forall i :: 0 <= i < |s| ==> IsTokenChar(s[i])) && Ends(x)
    ensures TokenLength(s + x) == |s|
    decreases |s|
  {
    if s == [] {
      assert s + x == x;
    } else {
      assert (s + x)[1..] == s[1..] + x;
      TokenLengthOf(s[1..], x);
    }
  }

  /** Tokens end where token characters end. */
  lemma {:induction false} TokenStep(s: string, t: string, x: string, y: string)
    requires IsToken(s) && IsToken(t) && Ends(x) && Ends(y) && s + x == t + y
    ensures s == t && x == y
  {
    TokenLengthOf(s, x);
    TokenLengthOf(t, y);
    assert s == (s + x)[..|s|] && t == (t + y)[..|t|] && x == (s + x)[|s|..] && y == (t + y)[|t|..];
  }

  predicate IsScalar(j: Json) {
    j.Null? || j.Bool? || j.Int? || j.Float?
  }

  lemma {:induction false} TokensAreTokens(j: Json)
    requires IsScalar(j) && Proper(j)
    ensures IsToken(TokenOf(j))
    ensures j.Int? ==> TokenOf(j)[0] == '-' || IsDigit(TokenOf(j)[0])
  {
  }

  lemma {:induction false} TokenInjective(j: Json, k: Json)
    requires IsScalar(j) && IsScalar(k) && Proper(j) && Proper(k) && TokenOf(j) == TokenOf(k)
    ensures j == k
  {
    TokensAreTokens(j);
    TokensAreTokens(k);
    if j.Int? && k.Int? {
      IntTextInjective(j.i, k.i);
    }
    assert "null"[0] == 'n' && "true"[0] == 't' && "false"[0] == 'f';
  }

  /** The first character tells what kind of value follows. */
  lemma {:induction false} EncodeStarts(j: Json)
    requires Proper(j)
    ensures Encode(j) != []
    ensures IsTokenChar(Encode(j)[0]) == IsScalar(j)
    ensures j.Str? ==> Encode(j)[0] == '\"'
    ensures j.Arr? ==> Encode(j)[0] == '['
    ensures j.Obj? ==> Encode(j)[0] == '{'
  {
    if IsScalar(j) {
      TokensAreTokens(j);
    }
  }

  /** Two values whose texts start the same way are the same value. */
  lemma {:induction false} EncodeStep(j: Json, k: Json, x: string, y: string)
    requires Proper(j) && Proper(k) && Ends(x) && Ends(y) && Encode(j) + x == Encode(k) + y
    ensures j == k && x == y
    decreases j
  {
    EncodeStarts(j);
    EncodeStarts(k);
    assert (Encode(j) + x)[0] == Encode(j)[0] && (Encode(k) + y)[0] == Encode(k)[0];
    if IsScalar(j) {
      TokensAreTokens(j);
      TokensAreTokens(k);
      TokenStep(TokenOf(j), TokenOf(k), x, y);
      TokenInjective(j, k);
    } else if j.Str? {
      QuoteStep(j.s, k.s, x, y);
    } else if j.Arr? {
      Unbracket('[', EncodeItems(j.items), "]" + x, Encode(j) + x);
      Unbracket('[', EncodeItems(k.items), "]" + y, Encode(k) + y);
      EncodeItemsStep(j.items, k.items, x, y);
    } else {
      Unbracket('{', EncodeFields(j.fields), "}" + x, Encode(j) + x);
      Unbracket('{', EncodeFields(k.fields), "}" + y, Encode(k) + y);
      EncodeFieldsStep(j.fields, k.fields, x, y);
    }
  }

  lemma {:induction false} Unbracket(open: char, body: string, rest: string, whole: string)
    requires whole == [open] + body + rest
    ensures whole[1..] == body + rest
  {
  }

  lemma {:induction false} EncodeItemsStarts(items: seq<Json>)
    requires items != [] && forall i :: 0 <= i < |items| ==> Proper(items[i])
    ensures Encode(items[0]) != [] && EncodeItems(items) != []
    ensures EncodeItems(items)[0] == Encode(items[0])[0]
    ensures EncodeItems(items)[0] != ']'
  {
    EncodeStarts(items[0]);
  }

  /** What follows the first item. */
  function TailItems(items: seq<Json>, x: string): string
    requires items != []
  {
    if |items| == 1 then "]" + x else "," + EncodeItems(items[1..]) + "]" + x
  }

  lemma {:induction false} ItemsText(items: seq<Json>, x: string)
    requires forall i :: 0 <= i < |items| ==> Proper(items[i])
    ensures var l := EncodeItems(items) + ("]" + x);
      && l != [] && (l[0] == ']' <==> items == [])
      && (items == [] ==> l[1..] == x)
      && (items != [] ==> l == Encode(items[0]) + TailItems(items, x))
  {
    hide Encode;
    var end := "]" + x;
    if items == [] {
      assert [] + end == end;
    } else {
      EncodeItemsStarts(items);
      var first := Encode(items[0]);
      if |items| > 1 {
        var rest := EncodeItems(items[1..]);
        assert first + "," + rest + end == first + ("," + rest + "]" + x);
      }
    }
  }

  lemma {:induction false} TailItemsText(items: seq<Json>, x: string)
    requires items != []
    ensures var s := TailItems(items, x);
      && s != [] && Ends(s) && (s[0] == ']' <==> |items| == 1)
      && s[1..] == if |items| == 1 then x else EncodeItems(items[1..]) + ("]" + x)
  {
    hide EncodeItems;
    if |items| > 1 {
      var rest := EncodeItems(items[1..]);
      assert "," + rest + "]" + x == "," + (rest + ("]" + x));
    }
  }

  lemma {:induction false} EncodeItemsStep(a: seq<Json>, b: seq<Json>, x: string, y: string)
    requires forall i :: 0 <= i < |a| ==> Proper(a[i])
    requires forall i :: 0 <= i < |b| ==> Proper(b[i])
    requires EncodeItems(a) + ("]" + x) == EncodeItems(b) + ("]" + y)
    ensures a == b && x == y
    decreases a
  {
    hide Encode, EncodeItems, TailItems, Ends;
    ItemsText(a, x);
    ItemsText(b, y);
    if a != [] {
      TailItemsText(a, x);
      TailItemsText(b, y);
      EncodeStep(a[0], b[0], TailItems(a, x), TailItems(b, y));
      if |a| > 1 {
        EncodeItemsStep(a[1..], b[1..], x, y);
      }
      assert a == [a[0]] + a[1..] && b == [b[0]] + b[1..];
    }
  }

  function TailFields(fields: seq<Field>, x: string): string
    requires fields != []
  {
    if |fields| == 1 then "}" + x else "," + EncodeFields(fields[1..]) + "}" + x
  }

  lemma {:induction false} EncodeFieldStep(f: Field, g: Field, x: string, y: string)
    requires Proper(f.value) && Proper(g.value) && Ends(x) && Ends(y)
    requires EncodeField(f) + x == EncodeField(g) + y
    ensures f == g && x == y
    decreases f
  {
    hide Encode, Quote;
    var s, t := ":" + (Encode(f.value) + x), ":" + (Encode(g.value) + y);
    assert EncodeField(f) + x == Quote(f.key) + s && EncodeField(g) + y == Quote(g.key) + t;
    QuoteStep(f.key, g.key, s, t);
    assert s[1..] == Encode(f.value) + x && t[1..] == Encode(g.value) + y;
    EncodeStep(f.value, g.value, x, y);
  }

  lemma {:induction false} FieldsText(fields: seq<Field>, x: string)
    ensures var l := EncodeFields(fields) + ("}" + x);
      && l != [] && (l[0] == '}' <==> fields == [])
      && (fields == [] ==> l[1..] == x)
      && (fields != [] ==> l == EncodeField(fields[0]) + TailFields(fields, x))
  {
    var end := "}" + x;
    if fields == [] {
      assert [] + end == end;
    } else {
      assert EncodeField(fields[0])[0] == '\"';
      hide EncodeField;
      var first := EncodeField(fields[0]);
      if |fields| > 1 {
        var rest := EncodeFields(fields[1..]);
        assert first + "," + rest + end == first + ("," + rest + "}" + x);
      }
    }
  }

  lemma {:induction false} TailFieldsText(fields: seq<Field>, x: string)
    requires fields != []
    ensures var s := TailFields(fields, x);
      && s != [] && Ends(s) && (s[0] == '}' <==> |fields| == 1)
      && s[1..] == if |fields| == 1 then x else EncodeFields(fields[1..]) + ("}" + x)
  {
    hide EncodeFields;
    if |fields| > 1 {
      var rest := EncodeFields(fields[1..]);
      assert "," + rest + "}" + x == "," + (rest + ("}" + x));
    }
  }

  lemma {:induction false} EncodeFieldsStep(a: seq<Field>, b: seq<Field>, x: string, y: string)
    requires forall i :: 0 <= i < |a| ==> Proper(a[i].value)
    requires forall i :: 0 <= i < |b| ==> Proper(b[i].value)
    requires EncodeFields(a) + ("}" + x) == EncodeFields(b) + ("}" + y)
    ensures a == b && x == y
    decreases a
  {
    hide Encode, EncodeField, EncodeFields, TailFields, Ends;
    FieldsText(a, x);
    FieldsText(b, y);
    if a != [] {
      TailFieldsText(a, x);
      TailFieldsText(b, y);
      EncodeFieldStep(a[0], b[0], TailFields(a, x), TailFields(b, y));
      if |a| > 1 {
        EncodeFieldsStep(a[1..], b[1..], x, y);
      }
      assert a == [a[0]] + a[1..] && b == [b[0]] + b[1..];
    }
  }

  /** Equal texts, hence equal digests, mean equal values. */
  lemma {:induction false} EncodeInjective(j: Json, k: Json)
    requires Proper(j) && Proper(k) && Encode(j) == Encode(k)
    ensures j == k
  {
    assert Encode(j) + [] == Encode(k) + [];
    EncodeStep(j, k, [], []);
  }
}
