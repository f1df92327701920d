/** Byte strings and the few byte-string operations the HTTP code relies on. */
module ByteText {
  import opened Wrappers

  // A byte is written as the character with the same code, so that text
  // constants read as they do in the program.
  type Byte = c: char | c as int < 256 witness 'a'

  type Bytes = seq<Byte>

  const CRLF: Bytes := "\r\n"

  /** Index of the first CR LF, or -1. */
  function FindCrlf(b: Bytes): (r: int)
    ensures -1 <= r
    ensures r >= 0 ==> r + 2 <= |b| && b[r] == '\r' && b[r + 1] == '\n'
  {
    if |b| < 2 then -1
    else if b[0] == '\r' && b[1] == '\n' then 0
    else
      var r := FindCrlf(b[1..]);
      if r < 0 then -1 else r + 1
  }

  /** Index of the first occurrence of a byte, or -1. */
  function IndexOf(b: Bytes, c: Byte): (r: int)
    ensures -1 <= r < |b|
  {
    if b == [] then -1
    else if b[0] == c then 0
    else
      var r := IndexOf(b[1..], c);
      if r < 0 then -1 else r + 1
  }

  predicate CrlfAt(b: Bytes, i: int) {
    0 <= i && i + 1 < |b| && b[i] == '\r' && b[i + 1] == '\n'
  }

  lemma {:induction false} FindCrlfFirst(b: Bytes)
    ensures var r := FindCrlf(b);
      forall i :: CrlfAt(b, i) ==> 0 <= r <= i
    decreases |b|
  {
    if |b| >= 2 && !CrlfAt(b, 0) {
      FindCrlfFirst(b[1..]);
      forall i | CrlfAt(b, i) ensures CrlfAt(b[1..], i - 1) {
      }
    }
  }

  /** `b.split(b" ", 2)` */
  function SplitTwice(b: Bytes): (parts: seq<Bytes>)
    ensures 1 <= |parts| <= 3
  {
    var i := IndexOf(b, ' ');
    if i < 0 then [b]
    else
      var rest := b[i + 1..];
      var j := IndexOf(rest, ' ');
      if j < 0 then [b[..i], rest] else [b[..i], rest[..j], rest[j + 1..]]
  }

  /** `b.split(sep, 1)[0]` */
  function UpTo(b: Bytes, sep: Byte): Bytes {
    var i := IndexOf(b, sep);
    if i < 0 then b else b[..i]
  }

  predicate StartsWith(b: Bytes, prefix: Bytes) {
    prefix <= b
  }

  predicate Contains(b: Bytes, part: Bytes) {
    exists i :: 0 <= i <= |b| && StartsWith(b[i..], part)
  }

  predicate IsSpace(c: Byte) {
    c == ' ' || ('\t' <= c <= '\r')
  }

  function StripLeft(b: Bytes): Bytes {
    if b != [] && IsSpace(b[0]) then StripLeft(b[1..]) else b
  }

  function StripRight(b: Bytes): Bytes {
    if b != [] && IsSpace(b[|b| - 1]) then StripRight(b[..|b| - 1]) else b
  }

  function Strip(b: Bytes): Bytes {
    StripRight(StripLeft(b))
  }

  function LowerByte(c: Byte): Byte {
    if 'A' <= c <= 'Z' then (c as int + 32) as char else c
  }

  function Lower(b: Bytes): (r: Bytes)
    ensures |r| == |b|
  {
    if b == [] then [] else [LowerByte(b[0])] + Lower(b[1..])
  }

  /** Value of a digit in the given base, or -1. */
  function DigitValue(c: Byte, radix: nat): (d: int)
    requires radix <= 16
    ensures -1 <= d < radix
  {
    var v := if '0' <= c <= '9' then c as int - '0' as int
             else if 'a' <= c <= 'f' then c as int - 'a' as int + 10
             else if 'A' <= c <= 'F' then c as int - 'A' as int + 10
             else -1;
    if v < radix then v else -1
  }

  function DigitsValue(b: Bytes, radix: nat, acc: nat): Option<nat>
    requires radix <= 16
    decreases |b|
  {
    if b == [] then Some(acc)
    else
      var d := DigitValue(b[0], radix);
      if d < 0 then None else DigitsValue(b[1..], radix, acc * radix + d)
  }

  /** A non-empty run of digits read as a number; anything else is rejected. */
  function ParseNumber(b: Bytes, radix: nat): Option<nat>
    requires radix <= 16
  {
    if b == [] then None else DigitsValue(b, radix, 0)
  }

  lemma {:induction false} FindCrlfExtends(b: Bytes, x: Bytes)
    requires FindCrlf(b) >= 0
    ensures FindCrlf(b + x) == FindCrlf(b)
  {
    var r, s := FindCrlf(b), FindCrlf(b + x);
    FindCrlfFirst(b);
    FindCrlfFirst(b + x);
    assert CrlfAt(b + x, r);
    assert s + 1 < |b| ==> CrlfAt(b, s) == CrlfAt(b + x, s);
  }

  lemma {:induction false} FindCrlfBeyond(b: Bytes, x: Bytes)
    requires FindCrlf(b) < 0
    ensures FindCrlf(b + x) < 0 || FindCrlf(b + x) + 1 >= |b|
  {
    FindCrlfFirst(b);
    var r := FindCrlf(b + x);
    assert r + 1 < |b| ==> CrlfAt(b, r) == CrlfAt(b + x, r);
  }

  predicate NoCrlf(b: Bytes) {
    FindCrlf(b) < 0
  }

  /** A line without CR LF inside is found whole in front of anything. */
  lemma {:induction false} FindCrlfLine(line: Bytes, x: Bytes)
    requires NoCrlf(line)
    ensures FindCrlf(line + CRLF + x) == |line|
  {
    var b := line + CRLF + x;
    FindCrlfFirst(b);
    FindCrlfFirst(line);
    assert CrlfAt(b, |line|);
    var r := FindCrlf(b);
    assert r + 1 < |line| ==> CrlfAt(line, r) == CrlfAt(b, r);
  }

  /** No CR LF in a prefix of a line, nor in the line and a CR. */
  lemma {:induction false} NoCrlfPrefix(line: Bytes, p: Bytes)
    requires NoCrlf(line) && p <= line + CRLF && |p| < |line| + 2
    ensures NoCrlf(p)
  {
    FindCrlfFirst(line);
    var r := FindCrlf(p);
    assert p == (line + CRLF)[..|p|];
    assert r + 1 < |line| ==> CrlfAt(line, r) == CrlfAt(p, r);
  }
}
