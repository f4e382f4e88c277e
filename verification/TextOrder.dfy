/** Text in code-point order, as Python compares and sorts strings. */
module TextOrder {

  predicate Leq(a: string, b: string) {
    a == [] || (b != [] && (a[0] < b[0] || (a[0] == b[0] && Leq(a[1..], b[1..]))))
  }

  lemma {:induction false} Total(a: string, b: string)
    ensures Leq(a, b) || Leq(b, a)
    ensures Leq(a, b) && Leq(b, a) ==> a == b
  {
    if a != [] && b != [] {
      Total(a[1..], b[1..]);
      if a[0] == b[0] && a[1..] == b[1..] { assert a == [a[0]] + a[1..] && b == [b[0]] + b[1..]; }
    }
  }

  lemma {:induction false} Transitive(a: string, b: string, c: string)
    requires Leq(a, b) && Leq(b, c)
    ensures Leq(a, c)
  {
    if a != [] && a[0] == b[0] && b[0] == c[0] { Transitive(a[1..], b[1..], c[1..]); }
  }

  lemma {:induction false} Reflexive(a: string)
    ensures Leq(a, a)
  {
    if a != [] { Reflexive(a[1..]); }
  }

  ghost predicate Sorted(s: seq<string>) {
    forall i, j :: 0 <= i < j < |s| ==> s[i] != s[j] && Leq(s[i], s[j])
  }

  function Elements(s: seq<string>): set<string> { set x | x in s }

  /** A strictly sorted list is determined by its elements. */
  lemma {:induction false} SortedUnique(a: seq<string>, b: seq<string>)
    requires Sorted(a) && Sorted(b) && Elements(a) == Elements(b)
    ensures a == b
  {
    assert a != [] ==> a[0] in Elements(a);
    assert b != [] ==> b[0] in Elements(b);
    if a != [] {
      var j :| 0 <= j < |b| && b[j] == a[0];
      var i :| 0 <= i < |a| && a[i] == b[0];
      if i > 0 && j > 0 {
        assert Leq(a[0], a[i]) && Leq(b[0], b[j]);
        Total(a[0], b[0]);
      }
      assert a[0] == b[0];
      Tail(a);
      Tail(b);
      SortedUnique(a[1..], b[1..]);
      assert a == [a[0]] + a[1..] && b == [b[0]] + b[1..];
    }
  }

  lemma Tail(a: seq<string>)
    requires Sorted(a) && a != []
    ensures Sorted(a[1..]) && Elements(a[1..]) == Elements(a) - {a[0]}
  {
    forall x | x in Elements(a) - {a[0]} ensures x in Elements(a[1..]) {
      var i :| 0 <= i < |a| && a[i] == x;
      assert a[1..][i - 1] == x;
    }
    forall x | x in Elements(a[1..]) ensures x in Elements(a) - {a[0]} {
      var i :| 0 <= i < |a[1..]| && a[1..][i] == x;
      assert a[i + 1] == x;
    }
  }

  /** Insertion of one new element. */
  method Insert(s: seq<string>, x: string) returns (r: seq<string>)
    requires Sorted(s) && x !in s
    ensures Sorted(r) && Elements(r) == Elements(s) + {x}
  {
    var i := 0;
    while i < |s| && Leq(s[i], x)
      invariant 0 <= i <= |s|
      invariant forall j :: 0 <= j < i ==> Leq(s[j], x)
    {
      i := i + 1;
    }
    r := s[..i] + [x] + s[i..];
    forall j | i <= j < |s| ensures Leq(x, s[j]) {
      Total(s[i], x);
      if i < j { Transitive(x, s[i], s[j]); }
    }
    Inserted(s, x, i);
  }

  lemma Inserted(s: seq<string>, x: string, i: nat)
    requires Sorted(s) && x !in s && i <= |s|
    requires forall j :: 0 <= j < i ==> Leq(s[j], x)
    requires forall j :: i <= j < |s| ==> Leq(x, s[j])
    ensures Sorted(s[..i] + [x] + s[i..]) && Elements(s[..i] + [x] + s[i..]) == Elements(s) + {x}
  {
    hide Leq;
    var r := s[..i] + [x] + s[i..];
    forall j, k | 0 <= j < k < |r| ensures r[j] != r[k] && Leq(r[j], r[k]) {
      var a, b := if j < i then j else j - 1, if k < i then k else k - 1;
      assert j != i ==> r[j] == s[a];
      assert k != i ==> r[k] == s[b];
    }
    InsertedElements(s, x, i);
  }

  lemma InsertedElements(s: seq<string>, x: string, i: nat)
    requires i <= |s|
    ensures Elements(s[..i] + [x] + s[i..]) == Elements(s) + {x}
  {
    assert s == s[..i] + s[i..];
  }

  /** sorted() of a list without duplicates, or of a set. */
  method Sort(todo: set<string>) returns (r: seq<string>)
    ensures Sorted(r) && Elements(r) == todo
  {
    var rest := todo;
    r := [];
    while rest != {}
      invariant rest <= todo && Sorted(r) && Elements(r) == todo - rest
      decreases |rest|
    {
      var x :| x in rest;
      assert x !in r by { assert x !in Elements(r); }
      r := Insert(r, x);
      rest := rest - {x};
    }
  }
}
