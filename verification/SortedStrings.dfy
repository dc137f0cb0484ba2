/** Go's sort.Strings on values: byte order on strings and a sorted permutation. */
module SortedStrings {

  /** Lexicographic order, a proper prefix first. */
  predicate Le(a: string, b: string) {
    a == [] || (b != [] && (a[0] < b[0] || (a[0] == b[0] && Le(a[1..], b[1..]))))
  }

  lemma {:induction false} LeTotal(a: string, b: string)
    ensures Le(a, b) || Le(b, a)
  {
    if a != [] && b != [] && a[0] == b[0] {
      LeTotal(a[1..], b[1..]);
    }
  }

  lemma {:induction false} LeTransitive(a: string, b: string, c: string)
    requires Le(a, b) && Le(b, c)
    ensures Le(a, c)
  {
    if a != [] && a[0] == b[0] == c[0] {
      LeTransitive(a[1..], b[1..], c[1..]);
    }
  }

  predicate Sorted(s: seq<string>) {
    forall i, j :: 0 <= i < j < |s| ==> Le(s[i], s[j])
  }

  function Insert(x: string, s: seq<string>): (r: seq<string>) {
    if s == [] || Le(x, s[0]) then [x] + s else [s[0]] + Insert(x, s[1..])
  }

  lemma {:induction false} InsertKeepsSorted(x: string, s: seq<string>)
    requires Sorted(s)
    ensures Sorted(Insert(x, s)) && multiset(Insert(x, s)) == multiset(s) + multiset{x}
  {
    if s == [] {
    } else if Le(x, s[0]) {
      FirstIsLeast(x, s);
    } else {
      var tail := s[1..];
      LeTotal(x, s[0]);
      hide Le;
      InsertKeepsSorted(x, tail);
      assert s == [s[0]] + tail;
      BelowInserted(s[0], x, tail, Insert(x, tail));
    }
  }

  lemma FirstIsLeast(x: string, s: seq<string>)
    requires Sorted(s) && s != [] && Le(x, s[0])
    ensures forall i :: 0 <= i < |s| ==> Le(x, s[i])
  {
    forall i | 0 <= i < |s| ensures Le(x, s[i]) {
      if i > 0 { LeTransitive(x, s[0], s[i]); }
    }
  }

  lemma BelowInserted(a: string, x: string, s: seq<string>, t: seq<string>)
    requires multiset(t) == multiset(s) + multiset{x} && Le(a, x)
    requires forall i :: 0 <= i < |s| ==> Le(a, s[i])
    ensures forall i :: 0 <= i < |t| ==> Le(a, t[i])
  {
    forall i | 0 <= i < |t| ensures Le(a, t[i]) {
      assert t[i] in multiset(t);
      assert t[i] == x || t[i] in s;
    }
  }

  function Sort(s: seq<string>): (r: seq<string>)
    ensures multiset(r) == multiset(s)
    ensures Sorted(r)
  {
    if s == [] then []
    else
      InsertKeepsSorted(s[0], Sort(s[1..]));
      assert s == [s[0]] + s[1..];
      Insert(s[0], Sort(s[1..]))
  }

  lemma SortKeepsMembers(s: seq<string>, x: string)
    ensures x in Sort(s) <==> x in s
  {
    assert x in Sort(s) <==> x in multiset(Sort(s));
    assert x in s <==> x in multiset(s);
  }
}
