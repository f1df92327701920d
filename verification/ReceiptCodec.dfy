/**
 The typed tab-separated receipt: printing and strict parsing.  The field list and the
 words its text fields may hold are parameters; so are the checks across fields.
 */
module ReceiptCodec {
  import opened Wrappers
  import opened Decimal

  datatype Kind = BoolKind | IntKind | TextKind

  datatype Spec = Spec(key: string, kind: Kind)

  datatype Value = Bool(flag: bool) | Int(number: int) | Text(text: string)

  type Record = map<string, Value>

  /** The field list, and the words of the text fields that are not digests. */
  datatype Format = Format(specs: seq<Spec>, words: map<string, set<string>>)

  predicate IsWordChar(c: char) {
    'A' <= c <= 'Z' || 'a' <= c <= 'z' || '0' <= c <= '9' || c == '_' || c == '.' || c == ':' || c == '-'
  }

  /** `[A-Za-z0-9_.:-]+` */
  predicate IsWord(s: string) {
    s != [] && forall i :: 0 <= i < |s| ==> IsWordChar(s[i])
  }

  predicate IsDigest(s: string) {
    |s| == 64 && forall i :: 0 <= i < |s| ==> '0' <= s[i] <= '9' || 'a' <= s[i] <= 'f'
  }

  ghost predicate ProperFormat(f: Format) {
    && (forall i :: 0 <= i < |f.specs| ==> IsWord(f.specs[i].key))
    && (forall i, j :: 0 <= i < j < |f.specs| ==> f.specs[i].key != f.specs[j].key)
    && (forall key, word :: key in f.words && word in f.words[key] ==> IsWord(word))
  }

  function KindOf(f: Format, key: string): Option<Kind> {
    KindIn(f.specs, key)
  }

  function KindIn(specs: seq<Spec>, key: string): Option<Kind> {
    if specs == [] then None
    else if specs[|specs| - 1].key == key then Some(specs[|specs| - 1].kind)
    else KindIn(specs[..|specs| - 1], key)
  }

  // ----- validity -----

  /** The checks `validate_receipt` makes on one field. */
  predicate ValidField(f: Format, s: Spec, v: Value) {
    match s.kind
    case BoolKind => v.Bool?
    case IntKind => v.Int? && v.number >= 0
    case TextKind =>
      v.Text? && (if EndsWith(s.key, "sha256") then IsDigest(v.text) else s.key in f.words && v.text in f.words[s.key])
  }

  function KeysOf(specs: seq<Spec>): set<string> {
    set s | s in specs :: s.key
  }

  ghost predicate ValidRecord(f: Format, cross: Record -> bool, r: Record) {
    && r.Keys == KeysOf(f.specs)
    && (forall s | s in f.specs :: ValidField(f, s, r[s.key]))
    && cross(r)
  }

  /** The same, one field after the other. */
  method Validate(f: Format, cross: Record -> bool, r: Record) returns (ok: bool)
    ensures ok <==> ValidRecord(f, cross, r)
  {
    if r.Keys != KeysOf(f.specs) {
      return false;
    }
    for i := 0 to |f.specs|
      invariant forall j | 0 <= j < i :: ValidField(f, f.specs[j], r[f.specs[j].key])
    {
      if !ValidField(f, f.specs[i], r[f.specs[i].key]) {
        return false;
      }
    }
    ok := cross(r);
  }

  // ----- printing -----

  function KindText(k: Kind): string {
    match k
    case BoolKind => "bool"
    case IntKind => "int"
    case TextKind => "str"
  }

  function ValueText(v: Value): string {
    match v
    case Bool(b) => if b then "true" else "false"
    case Int(n) => IntText(n)
    case Text(s) => s
  }

  function Line(s: Spec, v: Value): string {
    s.key + "\t" + KindText(s.kind) + "\t" + ValueText(v)
  }

  /** The lines of a receipt, in the order of the field list. */
  function Lines(specs: seq<Spec>, r: Record): (ls: seq<string>)
    requires KeysOf(specs) <= r.Keys
    ensures |ls| == |specs| && forall i :: 0 <= i < |specs| ==> ls[i] == Line(specs[i], r[specs[i].key])
  {
    seq(|specs|, i requires 0 <= i < |specs| => Line(specs[i], r[specs[i].key]))
  }

  /** `"\n".join(lines) + "\n"` */
  function Join(lines: seq<string>): string {
    if lines == [] then "\n"
    else if |lines| == 1 then lines[0] + "\n"
    else lines[0] + "\n" + Join(lines[1..])
  }

  method FormatReceipt(f: Format, cross: Record -> bool, r: Record) returns (text: Option<string>)
    ensures text.Some? <==> ValidRecord(f, cross, r)
    ensures text.Some? ==> text.value == Join(Lines(f.specs, r))
  {
    hide ValidField, Line, Join;
    var ok := Validate(f, cross, r);
    if !ok {
      return None;
    }
    var lines: seq<string> := [];
    for i := 0 to |f.specs|
      invariant lines == Lines(f.specs, r)[..i]
    {
      lines := lines + [Line(f.specs[i], r[f.specs[i].key])];
    }
    assert lines == Lines(f.specs, r);
    return Some(Join(lines));
  }

  // ----- parsing -----

  /** The characters at which `str.splitlines` ends a line. */
  predicate IsLineEnd(c: char) {
    || c == '\n' || c == '\r' || c == 11 as char || c == 12 as char
    || (28 as char <= c <= 30 as char) || c == 0x85 as char || c == '\U{2028}' || c == '\U{2029}'
  }

  function FirstEnd(s: string): (i: nat)
    ensures i <= |s| && (i < |s| ==> IsLineEnd(s[i]))
    ensures forall k :: 0 <= k < i ==> !IsLineEnd(s[k])
  {
    if s == [] || IsLineEnd(s[0]) then 0 else 1 + FirstEnd(s[1..])
  }

  /** `s.splitlines()`, for a text without carriage returns. */
  function SplitLines(s: string): seq<string> {
    var i := FirstEnd(s);
    if s == [] then [] else if i == |s| then [s] else [s[..i]] + SplitLines(s[i + 1..])
  }

  function FirstTab(s: string): (i: nat)
    ensures i <= |s| && (i < |s| ==> s[i] == '\t')
    ensures forall k :: 0 <= k < i ==> s[k] != '\t'
  {
    if s == [] || s[0] == '\t' then 0 else 1 + FirstTab(s[1..])
  }

  /** `s.split("\t")` */
  function SplitTabs(s: string): (parts: seq<string>)
    ensures parts != []
  {
    var i := FirstTab(s);
    if i == |s| then [s] else [s[..i]] + SplitTabs(s[i + 1..])
  }

  function ParseValue(k: Kind, raw: string): Option<Value> {
    match k
    case BoolKind => if raw == "true" then Some(Bool(true)) else if raw == "false" then Some(Bool(false)) else None
    case IntKind => if IsNatText(raw) then Some(Int(NatValue(raw))) else None
    case TextKind => if IsWord(raw) then Some(Text(raw)) else None
  }

  /** One line: its key and its value. */
  function ParseLine(f: Format, line: string): Option<(string, Value)> {
    var parts := SplitTabs(line);
    if |parts| != 3 then None
    else match KindOf(f, parts[0])
      case None => None
      case Some(k) =>
        if parts[1] != KindText(k) then None
        else match ParseValue(k, parts[2])
          case None => None
          case Some(v) => Some((parts[0], v))
  }

  /** The lines read one after the other; a key may occur only once. */
  function ParseLines(f: Format, lines: seq<string>): Option<Record> {
    if lines == [] then Some(map[])
    else
      var n := |lines| - 1;
      match ParseLines(f, lines[..n])
      case None => None
      case Some(r) =>
        match ParseLine(f, lines[n])
        case None => None
        case Some(field) => if field.0 in r then None else Some(r[field.0 := field.1])
  }

  predicate ProperText(text: string) {
    text != [] && text[|text| - 1] == '\n' && '\r' !in text && 0 as char !in text
  }

  ghost predicate Parses(f: Format, cross: Record -> bool, text: string, r: Record) {
    ProperText(text) && ParseLines(f, SplitLines(text)) == Some(r) && ValidRecord(f, cross, r)
  }

  method ParseReceipt(f: Format, cross: Record -> bool, text: string) returns (r: Option<Record>)
    ensures match r
      case Some(receipt) => Parses(f, cross, text, receipt)
      case None => forall receipt :: !Parses(f, cross, text, receipt)
  {
    hide ParseLine, ParseLines, ProperText, SplitLines, ValidRecord;
    if !ProperText(text) {
      return None;
    }
    var lines := SplitLines(text);
    NoLines(f);
    var result: Record := map[];
    for i := 0 to |lines|
      invariant ParseLines(f, lines[..i]) == Some(result)
    {
      OneMoreLine(f, lines, i, result);
      var field := ParseLine(f, lines[i]);
      if field == None || field.value.0 in result {
        Stuck(f, lines, i + 1);
        return None;
      }
      result := result[field.value.0 := field.value.1];
    }
    assert lines[..|lines|] == lines;
    var ok := Validate(f, cross, result);
    r := if ok then Some(result) else None;
  }

  lemma {:induction false} NoLines(f: Format)
    ensures ParseLines(f, []) == Some(map[])
  {
  }

  lemma {:induction false} OneMoreLine(f: Format, lines: seq<string>, i: nat, r: Record)
    requires i < |lines| && ParseLines(f, lines[..i]) == Some(r)
    ensures ParseLines(f, lines[..i + 1]) ==
      match ParseLine(f, lines[i])
      case None => None
      case Some(field) => if field.0 in r then None else Some(r[field.0 := field.1])
  {
    hide ParseLine;
    assert lines[..i + 1][..i] == lines[..i];
  }

  lemma {:induction false} Stuck(f: Format, lines: seq<string>, n: nat)
    requires n <= |lines| && ParseLines(f, lines[..n]) == None
    ensures ParseLines(f, lines) == None
    decreases |lines|
  {
    if n < |lines| {
      assert lines[..|lines| - 1][..n] == lines[..n];
      Stuck(f, lines[..|lines| - 1], n);
    } else {
      assert lines[..n] == lines;
    }
  }
}
