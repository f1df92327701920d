/**
 The redacted shape of a JSON value: keys, list lengths, the types of its scalars and
 whether an operator is equality, within a shared budget of nodes and a depth limit.
 */
module Redaction {
  import opened JsonText

  const MAX_NODES := 512
  const MAX_DEPTH := 16

  function Tag(name: string): Json {
    Obj([Field("$type", Str(name))])
  }

  /** The tag of a scalar; `op` says whether it is the value of a key of that name. */
  function ScalarTag(j: Json, op: bool): Json
    requires !j.Arr? && !j.Obj?
  {
    match j
    case Null => Tag("NULL")
    case Bool(_) => Tag("BOOL")
    case Int(_) => Tag("INT")
    case Float(_) => Tag("NUMBER")
    case Str(s) => Tag(if !op then "STRING" else if s == "==" then "OPERATOR_EQ" else "OPERATOR_OTHER")
  }

  /** The projection without limits. */
  function Skeleton(j: Json, op: bool): Json
    decreases j
  {
    match j
    case Arr(items) => Arr(SkeletonItems(items))
    case Obj(fields) => Obj(SkeletonFields(fields))
    case _ => ScalarTag(j, op)
  }

  function SkeletonItems(items: seq<Json>): (r: seq<Json>)
    ensures |r| == |items|
    decreases items
  {
    if items == [] then []
    else
      var n := |items| - 1;
      SkeletonItems(items[..n]) + [Skeleton(items[n], false)]
  }

  function SkeletonField(f: Field): Field
    decreases f
  {
    Field(f.key, Skeleton(f.value, f.key == "op"))
  }

  function SkeletonFields(fields: seq<Field>): (r: seq<Field>)
    ensures |r| == |fields|
    decreases fields
  {
    if fields == [] then []
    else
      var n := |fields| - 1;
      SkeletonFields(fields[..n]) + [SkeletonField(fields[n])]
  }

  function Nodes(j: Json): nat
    decreases j
  {
    match j
    case Arr(items) => 1 + NodesOfItems(items)
    case Obj(fields) => 1 + NodesOfFields(fields)
    case _ => 1
  }

  function NodesOfItems(items: seq<Json>): nat
    decreases items
  {
    if items == [] then 0 else NodesOfItems(items[..|items| - 1]) + Nodes(items[|items| - 1])
  }

  function NodesOfField(f: Field): nat
    decreases f
  {
    Nodes(f.value)
  }

  function NodesOfFields(fields: seq<Field>): nat
    decreases fields
  {
    if fields == [] then 0 else NodesOfFields(fields[..|fields| - 1]) + NodesOfField(fields[|fields| - 1])
  }

  /** Nothing in `j` lies more than `room` levels down. */
  predicate Shallow(j: Json, room: int)
    decreases j
  {
    room >= 0 && match j
      case Arr(items) => ShallowItems(items, room - 1)
      case Obj(fields) => ShallowFields(fields, room - 1)
      case _ => true
  }

  predicate ShallowItems(items: seq<Json>, room: int)
    decreases items
  {
    items == [] || (ShallowItems(items[..|items| - 1], room) && Shallow(items[|items| - 1], room))
  }

  predicate ShallowField(f: Field, room: int)
    decreases f
  {
    Shallow(f.value, room)
  }

  predicate ShallowFields(fields: seq<Field>, room: int)
    decreases fields
  {
    fields == [] || (ShallowFields(fields[..|fields| - 1], room) && ShallowField(fields[|fields| - 1], room))
  }

  /** Within both limits. */
  predicate Supported(j: Json) {
    Nodes(j) <= MAX_NODES && Shallow(j, MAX_DEPTH)
  }

  /** The projection as the program makes it: a shared budget, and a flag that falls for
      good at the first node beyond a limit. */
  class Projector {
    var remaining: int
    var supported: bool

    constructor ()
      ensures remaining == MAX_NODES && supported
    {
      remaining, supported := MAX_NODES, true;
    }

    /** What visiting `nodes` nodes leaves behind, if they are within the limits. */
    twostate predicate Visited(nodes: nat, shallow: bool)
      reads this
    {
      && supported == (old(supported) && nodes <= old(remaining) && shallow)
      && (supported ==> remaining == old(remaining) - nodes)
    }

    method Project(j: Json, depth: nat, op: bool) returns (shape: Json)
      requires supported ==> remaining >= 0
      modifies this
      ensures supported ==> remaining >= 0
      ensures Visited(Nodes(j), Shallow(j, MAX_DEPTH - depth))
      ensures supported ==> shape == Skeleton(j, op)
      decreases j
    {
      if depth > MAX_DEPTH || remaining <= 0 {
        supported := false;
        return Tag("LIMIT");
      }
      remaining := remaining - 1;
      match j {
        case Arr(items) =>
          var shapes := ProjectItems(items, depth + 1);
          shape := Arr(shapes);
        case Obj(fields) =>
          var shapes := ProjectFields(fields, depth + 1);
          shape := Obj(shapes);
        case _ =>
          shape := ScalarTag(j, op);
      }
    }

    method ProjectItems(items: seq<Json>, depth: nat) returns (shapes: seq<Json>)
      requires supported ==> remaining >= 0
      modifies this
      ensures supported ==> remaining >= 0
      ensures Visited(NodesOfItems(items), ShallowItems(items, MAX_DEPTH - depth))
      ensures supported ==> shapes == SkeletonItems(items)
      decreases items
    {
      shapes := [];
      for i := 0 to |items|
        invariant supported ==> remaining >= 0
        invariant Visited(NodesOfItems(items[..i]), ShallowItems(items[..i], MAX_DEPTH - depth))
        invariant supported ==> shapes == SkeletonItems(items[..i])
      {
        ItemsGrow(items, i, MAX_DEPTH - depth);
        var shape := Project(items[i], depth, false);
        shapes := shapes + [shape];
      }
      assert items[..|items|] == items;
    }

    method ProjectFields(fields: seq<Field>, depth: nat) returns (shapes: seq<Field>)
      requires supported ==> remaining >= 0
      modifies this
      ensures supported ==> remaining >= 0
      ensures Visited(NodesOfFields(fields), ShallowFields(fields, MAX_DEPTH - depth))
      ensures supported ==> shapes == SkeletonFields(fields)
      decreases fields
    {
      shapes := [];
      for i := 0 to |fields|
        invariant supported ==> remaining >= 0
        invariant Visited(NodesOfFields(fields[..i]), ShallowFields(fields[..i], MAX_DEPTH - depth))
        invariant supported ==> shapes == SkeletonFields(fields[..i])
      {
        FieldsGrow(fields, i, MAX_DEPTH - depth);
        FieldValueIsSmaller(fields, i);
        var shape := Project(fields[i].value, depth, fields[i].key == "op");
        shapes := shapes + [Field(fields[i].key, shape)];
      }
      assert fields[..|fields|] == fields;
    }
  }

  lemma {:induction false} ItemsGrow(items: seq<Json>, i: nat, room: int)
    requires i < |items|
    ensures NodesOfItems(items[..i + 1]) == NodesOfItems(items[..i]) + Nodes(items[i])
    ensures ShallowItems(items[..i + 1], room) <==> ShallowItems(items[..i], room) && Shallow(items[i], room)
    ensures SkeletonItems(items[..i + 1]) == SkeletonItems(items[..i]) + [Skeleton(items[i], false)]
  {
    assert items[..i + 1][..i] == items[..i];
  }

  lemma {:induction false} FieldsGrow(fields: seq<Field>, i: nat, room: int)
    requires i < |fields|
    ensures NodesOfFields(fields[..i + 1]) == NodesOfFields(fields[..i]) + Nodes(fields[i].value)
    ensures ShallowFields(fields[..i + 1], room) <==> ShallowFields(fields[..i], room) && Shallow(fields[i].value, room)
    ensures SkeletonFields(fields[..i + 1])
      == SkeletonFields(fields[..i]) + [Field(fields[i].key, Skeleton(fields[i].value, fields[i].key == "op"))]
  {
    assert fields[..i + 1][..i] == fields[..i];
  }

  lemma {:induction false} FieldValueIsSmaller(fields: seq<Field>, i: nat)
    requires i < |fields|
    ensures fields[i].value < fields[i]
  {
  }

  /** `_redacted_shape_digest`: the text of the projection and whether it is complete. */
  method ShapeDigest(j: Json) returns (digest: string, supported: bool)
    ensures supported <==> Supported(j)
    ensures supported ==> digest == Encode(Skeleton(j, false))
  {
    var p := new Projector();
    var shape := p.Project(j, 0, false);
    digest, supported := Encode(shape), p.supported;
  }

  // ----- what the digest depends on -----

  /** Same keys, same list lengths, same scalar types, and operators alike. */
  predicate SameShape(a: Json, b: Json, op: bool)
    decreases a
  {
    match (a, b)
    case (Null, Null) => true
    case (Bool(_), Bool(_)) => true
    case (Int(_), Int(_)) => true
    case (Float(_), Float(_)) => true
    case (Str(s), Str(t)) => op ==> (s == "==" <==> t == "==")
    case (Arr(xs), Arr(ys)) => SameItems(xs, ys)
    case (Obj(fs), Obj(gs)) => SameFields(fs, gs)
    case _ => false
  }

  predicate SameItems(a: seq<Json>, b: seq<Json>)
    decreases a
  {
    |a| == |b| && (a == [] || (SameItems(a[..|a| - 1], b[..|b| - 1]) && SameShape(a[|a| - 1], b[|b| - 1], false)))
  }

  predicate SameField(f: Field, g: Field)
    decreases f
  {
    f.key == g.key && SameShape(f.value, g.value, f.key == "op")
  }

  predicate SameFields(a: seq<Field>, b: seq<Field>)
    decreases a
  {
    |a| == |b| && (a == [] || (SameFields(a[..|a| - 1], b[..|b| - 1]) && SameField(a[|a| - 1], b[|b| - 1])))
  }

  /** The projection of a value is never a string, so a tag is never mistaken for it. */
  lemma {:induction false} TagsStandApart(j: Json, op: bool)
    ensures !Skeleton(j, op).Str?
    ensures j.Obj? && |j.fields| == 1 ==> !Skeleton(j, op).fields[0].value.Str?
  {
    if j.Obj? && |j.fields| == 1 {
      var f := j.fields[0];
      assert j.fields[..0] == [];
      assert SkeletonFields(j.fields) == [] + [SkeletonField(f)];
    }
  }

  lemma {:induction false} SkeletonsAgree(a: Json, b: Json, op: bool)
    ensures Skeleton(a, op) == Skeleton(b, op) <==> SameShape(a, b, op)
    decreases a
  {
    TagsStandApart(a, op);
    TagsStandApart(b, op);
    match (a, b) {
      case (Arr(xs), Arr(ys)) => ItemSkeletonsAgree(xs, ys);
      case (Obj(fs), Obj(gs)) => FieldSkeletonsAgree(fs, gs);
      case _ => ScalarsAgree(a, b, op);
    }
  }

  lemma {:induction false} ScalarsAgree(a: Json, b: Json, op: bool)
    requires !(a.Arr? && b.Arr?) && !(a.Obj? && b.Obj?)
    ensures Skeleton(a, op) == Skeleton(b, op) <==> SameShape(a, b, op)
  {
    TagsStandApart(a, op);
    TagsStandApart(b, op);
    TagsDiffer();
    hide SkeletonFields, SkeletonItems;
  }

  lemma {:induction false} TagsDiffer()
    ensures forall a: string, b: string :: Tag(a) == Tag(b) <==> a == b
    ensures "NULL" != "BOOL" && "NULL" != "INT" && "NULL" != "NUMBER" && "NULL" != "STRING" && "BOOL" != "INT"
    ensures "BOOL" != "NUMBER" && "BOOL" != "STRING" && "INT" != "NUMBER" && "INT" != "STRING"
    ensures "OPERATOR_EQ" != "OPERATOR_OTHER" && "NUMBER" != "STRING"
  {
    forall a: string, b: string ensures Tag(a) == Tag(b) <==> a == b {
      assert Tag(a).fields[0].value.s == a && Tag(b).fields[0].value.s == b;
    }
    assert "NUMBER"[0] != "STRING"[0];
  }

  lemma {:induction false} ItemSkeletonsAgree(a: seq<Json>, b: seq<Json>)
    ensures SkeletonItems(a) == SkeletonItems(b) <==> SameItems(a, b)
    decreases a
  {
    if |a| == |b| && a != [] {
      var n := |a| - 1;
      ItemSkeletonsAgree(a[..n], b[..n]);
      SkeletonsAgree(a[n], b[n], false);
      LastDecides(SkeletonItems(a[..n]), SkeletonItems(b[..n]), Skeleton(a[n], false), Skeleton(b[n], false));
    }
  }

  lemma {:induction false} FieldSkeletonsAgree(a: seq<Field>, b: seq<Field>)
    ensures SkeletonFields(a) == SkeletonFields(b) <==> SameFields(a, b)
    decreases a
  {
    if |a| == |b| && a != [] {
      var n := |a| - 1;
      FieldSkeletonsAgree(a[..n], b[..n]);
      FieldAgrees(a[n], b[n]);
      LastDecides(SkeletonFields(a[..n]), SkeletonFields(b[..n]), SkeletonField(a[n]), SkeletonField(b[n]));
    }
  }

  lemma {:induction false} FieldAgrees(f: Field, g: Field)
    ensures SkeletonField(f) == SkeletonField(g) <==> SameField(f, g)
    decreases f
  {
    if f.key == g.key {
      SkeletonsAgree(f.value, g.value, f.key == "op");
    }
  }

  lemma {:induction false} LastDecides<T>(a: seq<T>, b: seq<T>, x: T, y: T)
    requires |a| == |b|
    ensures a + [x] == b + [y] <==> a == b && x == y
  {
    var s, t := a + [x], b + [y];
    assert s[..|a|] == a && t[..|b|] == b && s[|a|] == x && t[|b|] == y;
  }

  // ----- the digest -----

  lemma {:induction false} SkeletonIsProper(j: Json, op: bool)
    requires Proper(j)
    ensures Proper(Skeleton(j, op))
    decreases j
  {
    match j
    case Arr(items) => ItemsAreProper(items);
    case Obj(fields) => FieldsAreProper(fields);
    case _ =>
  }

  lemma {:induction false} ItemsAreProper(items: seq<Json>)
    requires forall i :: 0 <= i < |items| ==> Proper(items[i])
    ensures forall i :: 0 <= i < |items| ==> Proper(SkeletonItems(items)[i])
    decreases items
  {
    if items != [] {
      var n := |items| - 1;
      ItemsAreProper(items[..n]);
      SkeletonIsProper(items[n], false);
    }
  }

  lemma {:induction false} FieldsAreProper(fields: seq<Field>)
    requires forall i :: 0 <= i < |fields| ==> Proper(fields[i].value)
    ensures forall i :: 0 <= i < |fields| ==> SkeletonFields(fields)[i].key == fields[i].key
    ensures forall i :: 0 <= i < |fields| ==> Proper(SkeletonFields(fields)[i].value)
    decreases fields
  {
    if fields != [] {
      var n := |fields| - 1;
      FieldsAreProper(fields[..n]);
      FieldIsProper(fields[n]);
    }
  }

  lemma {:induction false} FieldIsProper(f: Field)
    requires Proper(f.value)
    ensures Proper(SkeletonField(f).value)
    decreases f
  {
    SkeletonIsProper(f.value, f.key == "op");
  }

  /** For supported values the digest tells exactly the shape: literals never matter. */
  lemma {:induction false} DigestTellsShape(a: Json, b: Json)
    requires Proper(a) && Proper(b)
    ensures Encode(Skeleton(a, false)) == Encode(Skeleton(b, false)) <==> SameShape(a, b, false)
  {
    SkeletonIsProper(a, false);
    SkeletonIsProper(b, false);
    SkeletonsAgree(a, b, false);
    if Encode(Skeleton(a, false)) == Encode(Skeleton(b, false)) {
      EncodeInjective(Skeleton(a, false), Skeleton(b, false));
    }
  }
}
