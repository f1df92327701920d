/** Sorting strings by code point, as `sorted` does. */
module TextOrder {
  import opened JsonText

  predicate NotAfter(a: string, b: string) {
    a == b || Before(a, b)
  }

  lemma {:induction false} BeforeTransitive(a: string, b: string, c: string)
    requires Before(a, b) && Before(b, c)
    ensures Before(a, c)
    decreases |a|
  {
    if a != [] && a[0] == b[0] && b[0] == c[0] {
      BeforeTransitive(a[1..], b[1..], c[1..]);
    }
  }

  lemma {:induction false} BeforeTotal(a: string, b: string)
    ensures a == b || Before(a, b) || Before(b, a)
    ensures !(Before(a, b) && Before(b, a))
    decreases |a|
  {
    if a != [] && b != [] && a[0] == b[0] {
      BeforeTotal(a[1..], b[1..]);
      assert a == [a[0]] + a[1..] && b == [b[0]] + b[1..];
    }
  }

  ghost predicate Sorted(ss: seq<string>) {
    forall i, j :: 0 <= i < j < |ss| ==> NotAfter(ss[i], ss[j])
  }

  function Insert(s: string, ss: seq<string>): (r: seq<string>)
    ensures multiset(r) == multiset(ss) + multiset{s}
  {
    if ss == [] || NotAfter(s, ss[0]) then
      assert multiset([s] + ss) == multiset{s} + multiset(ss);
      [s] + ss
    else
      assert ss == [ss[0]] + ss[1..];
      [ss[0]] + Insert(s, ss[1..])
  }

  /** `sorted(ss)` */
  function Sort(ss: seq<string>): (r: seq<string>)
    ensures multiset(r) == multiset(ss)
  {
    if ss == [] then []
    else
      assert ss == [ss[0]] + ss[1..];
      Insert(ss[0], Sort(ss[1..]))
  }

  lemma {:induction false} MembersOf(a: seq<string>, b: seq<string>, s: string)
    requires multiset(a) == multiset(b)
    ensures s in a <==> s in b
  {
    assert s in a <==> s in multiset(a);
    assert s in b <==> s in multiset(b);
  }

  lemma {:induction false} InsertSorted(s: string, ss: seq<string>)
    requires Sorted(ss)
    ensures Sorted(Insert(s, ss))
    decreases |ss|
  {
    if ss != [] {
      BeforeTotal(s, ss[0]);
      if NotAfter(s, ss[0]) {
        forall j | 0 <= j < |ss| ensures NotAfter(s, ss[j]) {
          if j > 0 && s != ss[0] && ss[0] != ss[j] {
            BeforeTransitive(s, ss[0], ss[j]);
          }
        }
      } else {
        InsertSorted(s, ss[1..]);
        var r := Insert(s, ss[1..]);
        forall j | 0 <= j < |r| ensures NotAfter(ss[0], r[j]) {
          assert r[j] in multiset(r);
          assert r[j] == s || r[j] in ss[1..];
        }
      }
    }
  }

  lemma {:induction false} SortSorted(ss: seq<string>)
    ensures Sorted(Sort(ss))
    decreases |ss|
  {
    if ss != [] {
      SortSorted(ss[1..]);
      InsertSorted(ss[0], Sort(ss[1..]));
    }
  }

  lemma {:induction false} HeadIsLeast(a: seq<string>, s: string)
    requires Sorted(a) && s in a
    ensures NotAfter(a[0], s)
  {
    hide Before;
    var i :| 0 <= i < |a| && a[i] == s;
  }

  lemma {:induction false} SortedUnique(a: seq<string>, b: seq<string>)
    requires Sorted(a) && Sorted(b) && multiset(a) == multiset(b)
    ensures a == b
    decreases |a|
  {
    hide Before;
    assert |a| == |multiset(a)| == |multiset(b)| == |b|;
    if a != [] {
      MembersOf(a, b, a[0]);
      MembersOf(a, b, b[0]);
      HeadIsLeast(a, b[0]);
      HeadIsLeast(b, a[0]);
      BeforeTotal(a[0], b[0]);
      Tails(a, b);
      SortedUnique(a[1..], b[1..]);
      assert a == [a[0]] + a[1..] && b == [b[0]] + b[1..];
    }
  }

  lemma {:induction false} Tails(a: seq<string>, b: seq<string>)
    requires a != [] && b != [] && multiset(a) == multiset(b) && a[0] == b[0]
    ensures multiset(a[1..]) == multiset(b[1..])
  {
    assert a == [a[0]] + a[1..] && b == [b[0]] + b[1..];
    assert multiset(a) == multiset{a[0]} + multiset(a[1..]);
    assert multiset(b) == multiset{b[0]} + multiset(b[1..]);
    assert multiset(a[1..]) == multiset(a) - multiset{a[0]};
    assert multiset(b[1..]) == multiset(b) - multiset{b[0]};
  }

  /** Sorted lists are equal exactly when they list the same things equally often. */
  lemma {:induction false} SortEqualIff(a: seq<string>, b: seq<string>)
    ensures Sort(a) == Sort(b) <==> multiset(a) == multiset(b)
  {
    SortSorted(a);
    SortSorted(b);
    if multiset(a) == multiset(b) {
      SortedUnique(Sort(a), Sort(b));
    }
  }
}
