/** Byte-wise string order, and the sorted listing of a set of strings. */
module Sorting {

  // sort.Strings compares byte by byte; a proper prefix comes first.
  predicate Less(a: string, b: string) {
    if a == [] then b != []
    else if b == [] then false
    else a[0] < b[0] || (a[0] == b[0] && Less(a[1..], b[1..]))
  }

  lemma LessTransitive(a: string, b: string, c: string)
    requires Less(a, b) && Less(b, c)
    ensures Less(a, c)
  {
  }

  lemma {:induction false} LessTotal(a: string, b: string)
    ensures Less(a, b) || a == b || Less(b, a)
    ensures !(Less(a, b) && Less(b, a)) && !Less(a, a)
  {
    if a != [] && b != [] {
      LessTotal(a[1..], b[1..]);
      assert a == [a[0]] + a[1..] && b == [b[0]] + b[1..];
    }
    if a != [] { LessTotal(a[1..], a[1..]); }
  }

  // A common prefix does not change the order.
  lemma {:induction false} LessAfterPrefix(p: string, a: string, b: string)
    ensures Less(p + a, p + b) <==> Less(a, b)
  {
    if p == [] {
      assert p + a == a && p + b == b;
    } else {
      assert (p + a)[1..] == p[1..] + a && (p + b)[1..] == p[1..] + b;
      LessAfterPrefix(p[1..], a, b);
    }
  }

  // The first difference decides, and a proper prefix comes first.
  lemma LessIs(p: string, c: char, a: string, d: char, b: string)
    ensures c < d ==> Less(p + ([c] + a), p + ([d] + b))
    ensures Less(p, p + ([c] + a)) && !Less(p + ([c] + a), p)
  {
    LessAfterPrefix(p, [c] + a, [d] + b);
    LessAfterPrefix(p, [], [c] + a);
    LessAfterPrefix(p, [c] + a, []);
    assert p + [] == p;
  }

  ghost predicate Ascending(s: seq<string>) {
    forall i, j :: 0 <= i < j < |s| ==> Less(s[i], s[j])
  }

  ghost predicate Lists(l: seq<string>, s: set<string>) {
    Ascending(l) && forall x :: x in l <==> x in s
  }

  lemma FirstIsLeast(l: seq<string>, x: string)
    requires Ascending(l) && x in l
    ensures x == l[0] || Less(l[0], x)
  {
  }

  lemma ListsEmpty(l: seq<string>, s: set<string>)
    requires Lists(l, s)
    ensures l == [] <==> s == {}
  {
    if l != [] { assert l[0] in s; }
  }

  // A set has one sorted listing.
  lemma {:induction false} ListsUnique(a: seq<string>, b: seq<string>, s: set<string>)
    requires Lists(a, s) && Lists(b, s)
    ensures a == b
    decreases |a|
  {
    ListsEmpty(a, s);
    ListsEmpty(b, s);
    if a != [] {
      assert a[0] in b;
      FirstIsLeast(b, a[0]);
      assert b[0] in a;
      FirstIsLeast(a, b[0]);
      LessTotal(a[0], b[0]);
      TailLists(a, s);
      TailLists(b, s);
      ListsUnique(a[1..], b[1..], s - {a[0]});
      assert a == [a[0]] + a[1..] && b == [b[0]] + b[1..];
    }
  }

  lemma TailLists(l: seq<string>, s: set<string>)
    requires Lists(l, s) && l != []
    ensures Lists(l[1..], s - {l[0]})
  {
    forall x ensures x in l[1..] <==> x in s - {l[0]} {
      if x in l[1..] {
        var i :| 0 < i < |l| && l[i] == x;
        LessTotal(l[0], l[0]);
      }
    }
  }

  // Insertion, which is how the listings are built.
  function Insert(l: seq<string>, x: string): seq<string> {
    if l == [] || Less(x, l[0]) then [x] + l else [l[0]] + Insert(l[1..], x)
  }

  lemma {:induction false} InsertContents(l: seq<string>, x: string, y: string)
    ensures y in Insert(l, x) <==> y in l || y == x
  {
    if l != [] && !Less(x, l[0]) {
      InsertContents(l[1..], x, y);
      assert l == [l[0]] + l[1..];
    }
  }

  lemma {:induction false} InsertAscending(l: seq<string>, x: string)
    requires Ascending(l) && x !in l
    ensures Ascending(Insert(l, x))
  {
    if l == [] {
    } else if Less(x, l[0]) {
      forall i | 0 < i < |l| ensures Less(x, l[i]) { LessTransitive(x, l[0], l[i]); }
    } else {
      LessTotal(x, l[0]);
      var rest := Insert(l[1..], x);
      InsertAscending(l[1..], x);
      forall i | 0 <= i < |rest| ensures Less(l[0], rest[i]) {
        InsertContents(l[1..], x, rest[i]);
      }
    }
  }

  lemma InsertLists(l: seq<string>, s: set<string>, x: string)
    requires Lists(l, s) && x !in s
    ensures Lists(Insert(l, x), s + {x})
  {
    InsertAscending(l, x);
    forall y ensures y in Insert(l, x) <==> y in s + {x} { InsertContents(l, x, y); }
  }

  lemma ListingExists(s: set<string>)
    ensures exists l :: Lists(l, s)
  {
    if s == {} {
      assert Lists([], s);
    } else {
      var x :| x in s;
      ListingExists(s - {x});
      var l :| Lists(l, s - {x});
      InsertLists(l, s - {x}, x);
      assert s - {x} + {x} == s;
    }
  }

  ghost function Listing(s: set<string>): (l: seq<string>)
    ensures Lists(l, s)
  {
    ListingExists(s);
    var l :| Lists(l, s);
    l
  }

  lemma {:induction false} ListingSize(l: seq<string>, s: set<string>)
    requires Lists(l, s)
    ensures |l| == |s|
  {
    if l == [] {
      assert s == {};
    } else {
      TailLists(l, s);
      ListingSize(l[1..], s - {l[0]});
      assert l[0] in s;
    }
  }

  // sort.Strings over the keys of a map, met in any order.
  method SortedKeys(s: set<string>) returns (l: seq<string>)
    ensures l == Listing(s)
  {
    l := [];
    var todo := s;
    ghost var done: set<string> := {};
    while todo != {}
      invariant todo + done == s && todo !! done && Lists(l, done)
      decreases todo
    {
      var x :| x in todo;
      InsertLists(l, done, x);
      l := Insert(l, x);
      todo, done := todo - {x}, done + {x};
    }
    assert done == s;
    ListsUnique(l, Listing(s), s);
  }
}
