/**
 Byte strings and the string functions the modules share. A Go string is a
 sequence of bytes, so `string` here holds one char per byte.
 */
module Strings {
  predicate IsLower(c: char) { 'a' <= c <= 'z' }
  predicate IsUpper(c: char) { 'A' <= c <= 'Z' }
  predicate IsDigit(c: char) { '0' <= c <= '9' }
  predicate IsAlnum(c: char) { IsLower(c) || IsUpper(c) || IsDigit(c) }

  predicate NotAlnum(c: char) { !IsAlnum(c) }

  ghost predicate AllOf(s: string, p: char -> bool) {
    forall i :: 0 <= i < |s| ==> p(s[i])
  }

  // The position of the first c, or |s|.
  function IndexOf(s: string, c: char): (k: nat)
    ensures k <= |s|
    ensures k < |s| ==> s[k] == c
    ensures forall i :: 0 <= i < k ==> s[i] != c
  {
    if s == [] || s[0] == c then 0 else 1 + IndexOf(s[1..], c)
  }

  lemma IndexOfIs(s: string, c: char, k: nat)
    requires k <= |s| && (forall i :: 0 <= i < k ==> s[i] != c) && (k < |s| ==> s[k] == c)
    ensures IndexOf(s, c) == k
  {
  }

  // Where a string is cut at its first c.
  lemma CutAt(s: string, a: string, c: char, b: string)
    requires s == a + [c] + b && c !in a
    ensures IndexOf(s, c) == |a| && s[..|a|] == a && s[|a| + 1..] == b
  {
    assert forall i :: 0 <= i < |a| ==> s[i] == a[i] && a[i] in a;
    assert s[|a|] == c;
    IndexOfIs(s, c, |a|);
  }

  // strings.Split for a one-byte separator.
  function Split(s: string, c: char): (parts: seq<string>)
    ensures |parts| > 0
    decreases |s|
  {
    var k := IndexOf(s, c);
    if k == |s| then [s] else [s[..k]] + Split(s[k + 1..], c)
  }

  function Join(parts: seq<string>, c: char): string
    requires |parts| > 0
  {
    if |parts| == 1 then parts[0] else parts[0] + [c] + Join(parts[1..], c)
  }

  // Splitting is undone by joining, and no part has the separator in it.
  lemma {:induction false} SplitJoin(s: string, c: char)
    ensures Join(Split(s, c), c) == s
    ensures forall i :: 0 <= i < |Split(s, c)| ==> c !in Split(s, c)[i]
    decreases |s|
  {
    var k := IndexOf(s, c);
    if k < |s| {
      var rest := Split(s[k + 1..], c);
      SplitJoin(s[k + 1..], c);
      assert Split(s, c) == [s[..k]] + rest && ([s[..k]] + rest)[1..] == rest;
      assert s == s[..k] + [c] + s[k + 1..];
    }
  }

  function Last<T>(s: seq<T>): T
    requires s != []
  {
    s[|s| - 1]
  }

  // The last part is what follows the last separator.
  lemma {:induction false} SplitLast(s: string, tail: string, c: char)
    requires c !in tail
    ensures Last(Split(s + [c] + tail, c)) == tail
    decreases |s|
  {
    var all := s + [c] + tail;
    var k := IndexOf(all, c);
    assert all[|s|] == c;
    var rest := all[k + 1..];
    if k == |s| {
      assert rest == tail;
      IndexOfIs(tail, c, |tail|);
    } else {
      assert s[k] == c;
      assert rest == s[k + 1..] + [c] + tail;
      SplitLast(s[k + 1..], tail, c);
    }
  }

  lemma SplitNone(s: string, c: char)
    requires c !in s
    ensures Split(s, c) == [s]
  {
    IndexOfIs(s, c, |s|);
  }

  lemma SplitTwo(a: string, b: string, c: char)
    requires c !in a && c !in b
    ensures Split(a + [c] + b, c) == [a, b]
  {
    var s := a + [c] + b;
    assert forall i :: 0 <= i < |a| ==> s[i] == a[i] && a[i] in a;
    IndexOfIs(s, c, |a|);
    assert s[..|a|] == a && s[|a| + 1..] == b;
    SplitNone(b, c);
  }

  function ToLowerChar(c: char): (r: char)
    ensures IsUpper(c) ==> IsLower(r) && r as int - 'a' as int == c as int - 'A' as int
    ensures !IsUpper(c) ==> r == c
  {
    if IsUpper(c) then ((c as int) + 32) as char else c
  }

  function ToLower(s: string): (r: string)
    ensures |r| == |s| && forall i :: 0 <= i < |s| ==> r[i] == ToLowerChar(s[i])
  {
    seq(|s|, i requires 0 <= i < |s| => ToLowerChar(s[i]))
  }

  // regexp.ReplaceAllString(s, "") for a one-character class.
  function Filter(s: string, keep: char -> bool): (r: string)
    ensures |r| <= |s|
    ensures forall i :: 0 <= i < |r| ==> keep(r[i])
  {
    if s == [] then []
    else (if keep(s[0]) then [s[0]] else []) + Filter(s[1..], keep)
  }

  lemma {:induction false} FilterAll(s: string, keep: char -> bool)
    requires AllOf(s, keep)
    ensures Filter(s, keep) == s
  {
    if s != [] {
      assert AllOf(s[1..], keep);
      FilterAll(s[1..], keep);
    }
  }

  // A string is filtered part by part, so the kept characters stay in order.
  lemma {:induction false} FilterConcat(a: string, b: string, keep: char -> bool)
    ensures Filter(a + b, keep) == Filter(a, keep) + Filter(b, keep)
  {
    if a == [] {
      assert a + b == b;
    } else {
      assert (a + b)[1..] == a[1..] + b;
      FilterConcat(a[1..], b, keep);
    }
  }

  lemma FilterOne(c: char, keep: char -> bool)
    ensures Filter([c], keep) == if keep(c) then [c] else []
  {
    assert [c][1..] == [];
  }

  // Drops the longest prefix, or suffix, of characters that satisfy p.
  function TrimLeft(s: string, p: char -> bool): (r: string)
    ensures |r| <= |s| && r == s[|s| - |r|..]
    ensures r != [] ==> !p(r[0])
  {
    if s == [] || !p(s[0]) then s else TrimLeft(s[1..], p)
  }

  function TrimRight(s: string, p: char -> bool): (r: string)
    ensures |r| <= |s| && r == s[..|r|]
    ensures r != [] ==> !p(r[|r| - 1])
  {
    if s == [] || !p(s[|s| - 1]) then s else TrimRight(s[..|s| - 1], p)
  }

  // What is dropped satisfies p throughout.
  lemma {:induction false} TrimLeftDrops(s: string, p: char -> bool)
    ensures forall i :: 0 <= i < |s| - |TrimLeft(s, p)| ==> p(s[i])
  {
    if s != [] && p(s[0]) {
      TrimLeftDrops(s[1..], p);
      assert forall i :: 0 < i < |s| ==> s[i] == s[1..][i - 1];
    }
  }

  lemma {:induction false} TrimRightDrops(s: string, p: char -> bool)
    ensures forall i :: |TrimRight(s, p)| <= i < |s| ==> p(s[i])
  {
    if s != [] && p(s[|s| - 1]) { TrimRightDrops(s[..|s| - 1], p); }
  }

  function Take(s: string, n: nat): (r: string)
    ensures |r| <= n && r <= s && (|s| <= n ==> r == s)
  {
    if |s| > n then s[..n] else s
  }

  // strings.TrimSpace, for ASCII white space.
  predicate IsSpace(c: char) { c == ' ' || ('\t' <= c <= '\r') }

  function TrimSpace(s: string): string { TrimRight(TrimLeft(s, IsSpace), IsSpace) }

  // Tab, line feed, vertical tab, form feed, carriage return and space.
  predicate IsBlank(c: char) { c as int in {9, 10, 11, 12, 13, 32} }

  lemma CutIn3<T>(s: seq<T>, i: nat, j: nat)
    requires i <= j <= |s|
    ensures s == s[..i] + s[i..j] + s[j..]
  {
    assert s == s[..j] + s[j..] && s[..j] == s[..i] + s[i..j];
  }

  // White space goes at both ends, and nothing else.
  lemma TrimSpaceIs(s: string)
    ensures exists i, j :: 0 <= i <= j <= |s| && TrimSpace(s) == s[i..j]
                           && AllOf(s[..i], IsBlank) && AllOf(s[j..], IsBlank)
    ensures var r := TrimSpace(s); r != "" ==> !IsBlank(r[0]) && !IsBlank(r[|r| - 1])
  {
    var left := TrimLeft(s, IsSpace);
    var r := TrimSpace(s);
    TrimLeftDrops(s, IsSpace);
    TrimRightDrops(left, IsSpace);
    hide TrimLeft, TrimRight;
    var i := |s| - |left|;
    var j := i + |r|;
    assert r == s[i..j];
    assert forall k :: j <= k < |s| ==> s[k] == left[k - i];
    assert AllOf(s[..i], IsBlank) && AllOf(s[j..], IsBlank);
    assert r != "" ==> r[0] == left[0];
  }

  // The number a string of decimal digits denotes.
  function Digits(s: string): (n: nat)
    requires forall i :: 0 <= i < |s| ==> IsDigit(s[i])
  {
    if s == [] then 0
    else
      assert IsDigit(s[|s| - 1]);
      Digits(s[..|s| - 1]) * 10 + (s[|s| - 1] as int - '0' as int)
  }

  lemma DigitsNext(s: string, c: char)
    requires (forall i :: 0 <= i < |s| ==> IsDigit(s[i])) && IsDigit(c)
    ensures Digits("") == 0 && Digits(s + [c]) == Digits(s) * 10 + IndexOf("0123456789", c)
  {
    var all := "0123456789";
    var k := c as int - '0' as int;
    assert forall i :: 0 <= i < 10 ==> all[i] as int == '0' as int + i;
    IndexOfIs(all, c, k);
    assert (s + [c])[..|s|] == s;
  }
}
