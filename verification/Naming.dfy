/**
 Container ids, Pod names, and finding a container by one of its names
 (internal/util/stringid/stringid.go, internal/model/types/container.go,
 internal/model/database.go).
 */
module Naming {
  import opened Basics
  import opened Strings

  const SHORT_LEN := 12

  predicate IsHex(c: char) { IsDigit(c) || 'a' <= c <= 'f' }

  predicate IsShortID(id: string) {
    |id| == SHORT_LEN && forall i :: 0 <= i < |id| ==> IsHex(id[i])
  }

  function TruncateID(id: string): string {
    var k := IndexOf(id, ':');
    Take(if k < |id| then id[k + 1..] else id, SHORT_LEN)
  }

  // ---------- Random ids ----------

  function HexDigit(n: nat): (c: char)
    requires n < 16
    ensures IsHex(c)
  {
    if n < 10 then ('0' as int + n) as char else ('a' as int + n - 10) as char
  }

  function HexEncode(b: seq<Byte>): (s: string)
    ensures |s| == 2 * |b|
    ensures forall i :: 0 <= i < |s| ==> IsHex(s[i])
  {
    if b == [] then [] else [HexDigit(b[0] / 16), HexDigit(b[0] % 16)] + HexEncode(b[1..])
  }

  // Two digits per byte, the high one first.
  lemma {:induction false} HexEncodeAt(b: seq<Byte>, i: nat)
    requires i < |b|
    ensures HexEncode(b)[2 * i] == "0123456789abcdef"[b[i] / 16]
    ensures HexEncode(b)[2 * i + 1] == "0123456789abcdef"[b[i] % 16]
  {
    if i == 0 {
      HexDigitIs(b[0] / 16);
      HexDigitIs(b[0] % 16);
    } else {
      HexEncodeAt(b[1..], i - 1);
    }
  }

  lemma HexDigitIs(n: nat)
    requires n < 16
    ensures HexDigit(n) == "0123456789abcdef"[n]
  {
    var all := "0123456789abcdef";
    assert forall i :: 0 <= i < 10 ==> all[i] as int == '0' as int + i;
    assert forall i :: 10 <= i < 16 ==> all[i] as int == 'a' as int + i - 10;
  }

  // What follows the first colon, or all, cut to twelve.
  lemma TruncateIDIs(a: string, b: string)
    requires ':' !in a
    ensures TruncateID(a) == a[..if |a| < 12 then |a| else 12]
    ensures TruncateID(a + [':'] + b) == b[..if |b| < 12 then |b| else 12]
  {
    IndexOfIs(a, ':', |a|);
    var s := a + [':'] + b;
    assert forall i :: 0 <= i < |a| ==> s[i] == a[i] && a[i] in a;
    IndexOfIs(s, ':', |a|);
    assert s[|a| + 1..] == b;
  }

  // A name made of twelve digits is a number, and useless as a host name.
  predicate IsNumber(s: string) { forall i :: 0 <= i < |s| ==> IsDigit(s[i]) }

  lemma LetterIn(s: string)
    requires |s| >= 12 && (forall i :: 0 <= i < |s| ==> IsHex(s[i])) && !IsNumber(s[..SHORT_LEN])
    ensures exists k :: 0 <= k < 12 && s[k] in "abcdef"
  {
    var k :| 0 <= k < SHORT_LEN && !IsDigit(s[..SHORT_LEN][k]);
    var all := "abcdef";
    assert forall i :: 0 <= i < 6 ==> all[i] as int == 'a' as int + i;
    assert all[s[k] as int - 'a' as int] == s[k];
  }

  // Draws until the short form is not a number. `draws` is what the random source
  // would deliver; None means it is exhausted while still drawing.
  method GenerateRandomID(draws: seq<seq<Byte>>) returns (id: Option<string>)
    requires forall i :: 0 <= i < |draws| ==> |draws[i]| == 32
    ensures id.Some? ==>
              && |id.value| == 64 && IsShortID(TruncateID(id.value)) && !IsNumber(TruncateID(id.value))
              && TruncateID(id.value) == id.value[..SHORT_LEN]
    ensures id.Some? ==>
              (exists k :: 0 <= k < 12 && k < |id.value| && id.value[k] in "abcdef") &&
              exists i :: 0 <= i < |draws| && id.value == HexEncode(draws[i])
                && forall j :: 0 <= j < i ==> IsNumber(HexEncode(draws[j])[..12])
    ensures id.None? <==> forall i :: 0 <= i < |draws| ==> IsNumber(HexEncode(draws[i])[..SHORT_LEN])
  {
    for n := 0 to |draws|
      invariant forall i :: 0 <= i < n ==> IsNumber(HexEncode(draws[i])[..SHORT_LEN])
    {
      var s := HexEncode(draws[n]);
      IndexOfIs(s, ':', |s|);
      assert TruncateID(s) == s[..SHORT_LEN];
      if !IsNumber(TruncateID(s)) {
        LetterIn(s);
        return Some(s);
      }
    }
    return None;
  }

  // ---------- Pod names ----------

  // strings.ReplaceAll(s, "--", "-"): one pass, left to right, so "---" becomes "--".
  function MergeHyphens(s: string): (r: string)
    ensures |r| <= |s|
  {
    if |s| < 2 then s
    else if s[0] == '-' && s[1] == '-' then "-" + MergeHyphens(s[2..])
    else [s[0]] + MergeHyphens(s[1..])
  }

  predicate IsNameChar(c: char) { IsAlnum(c) || c == '-' }

  function HyphenChar(c: char): char { if c == '_' then '-' else c }

  function Hyphenate(s: string): (r: string)
    ensures |r| == |s|
  {
    seq(|s|, i requires 0 <= i < |s| => HyphenChar(s[i]))
  }

  function BaseName(name: string, prefix: Option<string>): (r: string)
    ensures |r| <= 32 && AllOf(r, IsNameChar)
  {
    var full := (match prefix case Some(p) => p case None => "testtender") + "-" + name;
    Take(Filter(Hyphenate(full), IsNameChar), 32)
  }

  function PodName(name: string, prefix: Option<string>, shortID: string): string {
    ToLower(TrimLeft(MergeHyphens(BaseName(name, prefix) + "-" + shortID), NotAlnum))
  }

  predicate IsLabelChar(c: char) { IsLower(c) || IsDigit(c) || c == '-' }

  // A DNS label in the sense of RFC 1123: at most 63 of [a-z0-9-], hyphens inside only.
  ghost predicate IsDnsLabel(s: string) {
    && 0 < |s| <= 63 && AllOf(s, IsLabelChar)
    && s[0] != '-' && s[|s| - 1] != '-'
  }

  // Merging hyphens stops at a suffix that has none.
  lemma {:induction false} MergeSuffix(s: string, tail: string)
    requires '-' !in tail
    ensures MergeHyphens(s + tail) == MergeHyphens(s) + tail
    decreases |s|
  {
    var all := s + tail;
    if s == [] {
      assert all == tail;
      MergeNone(tail);
    } else if |s| == 1 {
      if tail != [] {
        assert tail[0] in tail;
        assert all[1..] == tail;
        MergeNone(tail);
      } else {
        assert all == s;
      }
    } else if s[0] == '-' && s[1] == '-' {
      assert all[2..] == s[2..] + tail;
      MergeSuffix(s[2..], tail);
    } else {
      assert all[1..] == s[1..] + tail;
      MergeSuffix(s[1..], tail);
    }
  }

  lemma {:induction false} MergeNone(s: string)
    requires '-' !in s
    ensures MergeHyphens(s) == s
  {
    if |s| >= 2 {
      assert s[0] in s;
      MergeNone(s[1..]);
    }
  }

  lemma {:induction false} MergeKeeps(s: string)
    requires AllOf(s, IsNameChar)
    ensures AllOf(MergeHyphens(s), IsNameChar)
    ensures s != [] && s[|s| - 1] == '-' ==> MergeHyphens(s) != [] && MergeHyphens(s)[|MergeHyphens(s)| - 1] == '-'
    decreases |s|
  {
    if |s| >= 2 {
      if s[0] == '-' && s[1] == '-' {
        assert AllOf(s[2..], IsNameChar);
        MergeKeeps(s[2..]);
      } else {
        assert AllOf(s[1..], IsNameChar);
        MergeKeeps(s[1..]);
      }
    }
  }

  lemma {:induction false} TrimLeftSuffix(s: string, tail: string, p: char -> bool)
    requires tail != [] && !p(tail[0])
    ensures TrimLeft(s + tail, p) == TrimLeft(s, p) + tail
  {
    if s == [] {
      assert s + tail == tail;
    } else {
      assert (s + tail)[1..] == s[1..] + tail;
      TrimLeftSuffix(s[1..], tail, p);
    }
  }

  // What stands before the short id: nothing, or name characters ending in a hyphen.
  function Stem(name: string, prefix: Option<string>): string {
    ToLower(TrimLeft(MergeHyphens(BaseName(name, prefix) + "-"), NotAlnum))
  }

  lemma ShortIDChars(id: string)
    requires IsShortID(id)
    ensures '-' !in id && ToLower(id) == id && IsAlnum(id[0]) && AllOf(id, IsLabelChar)
  {
  }

  lemma LowerConcat(a: string, b: string)
    ensures ToLower(a + b) == ToLower(a) + ToLower(b)
  {
    hide ToLower;
  }

  lemma PodNameSplits(name: string, prefix: Option<string>, shortID: string)
    requires IsShortID(shortID)
    ensures PodName(name, prefix, shortID) == Stem(name, prefix) + shortID
  {
    ShortIDChars(shortID);
    hide BaseName, MergeHyphens, ToLower, ToLowerChar, IsShortID, TrimLeft;
    var base := BaseName(name, prefix) + "-";
    var stem := TrimLeft(MergeHyphens(base), NotAlnum);
    MergeSuffix(base, shortID);
    TrimLeftSuffix(MergeHyphens(base), shortID, NotAlnum);
    LowerConcat(stem, shortID);
    assert BaseName(name, prefix) + "-" + shortID == base + shortID;
  }

  ghost predicate IsStem(s: string) {
    |s| <= 33 && AllOf(s, IsLabelChar) && (s != [] ==> s[0] != '-' && s[|s| - 1] == '-')
  }

  lemma TrimmedStem(merged: string)
    requires |merged| <= 33 && AllOf(merged, IsNameChar) && merged != [] && merged[|merged| - 1] == '-'
    ensures IsStem(ToLower(TrimLeft(merged, NotAlnum)))
  {
    hide TrimLeft;
    var stem := TrimLeft(merged, NotAlnum);
    SuffixKeeps(merged, |merged| - |stem|);
    LowerName(stem);
    assert stem != [] ==> NotAlnum('-');
  }

  lemma SuffixKeeps(s: string, k: nat)
    requires k <= |s| && AllOf(s, IsNameChar)
    ensures AllOf(s[k..], IsNameChar)
    ensures k < |s| ==> s[k..][|s[k..]| - 1] == s[|s| - 1]
  {
  }

  lemma LowerName(s: string)
    requires AllOf(s, IsNameChar)
    ensures AllOf(ToLower(s), IsLabelChar)
    ensures forall i :: 0 <= i < |s| ==> (ToLower(s)[i] == '-' <==> s[i] == '-')
  {
    forall i | 0 <= i < |s| ensures IsLabelChar(ToLowerChar(s[i])) && (ToLowerChar(s[i]) == '-' <==> s[i] == '-') {
      assert IsNameChar(s[i]);
    }
  }

  lemma StemShape(name: string, prefix: Option<string>)
    ensures IsStem(Stem(name, prefix))
  {
    hide BaseName, MergeHyphens, IsStem;
    var base := BaseName(name, prefix) + "-";
    assert AllOf(base, IsNameChar) && base[|base| - 1] == '-';
    MergeKeeps(base);
    TrimmedStem(MergeHyphens(base));
  }

  // A DNS label of at most 45 characters that ends in the short id, set off by a
  // hyphen if anything precedes it.
  ghost predicate NamesPod(p: string, shortID: string) {
    && IsDnsLabel(p) && SHORT_LEN <= |p| <= 45
    && p[|p| - SHORT_LEN..] == shortID
    && (p == shortID || (|p| > SHORT_LEN && p[|p| - SHORT_LEN - 1] == '-'))
  }

  lemma StemThenID(stem: string, shortID: string)
    requires IsStem(stem) && IsShortID(shortID)
    ensures NamesPod(stem + shortID, shortID)
  {
    ShortIDChars(shortID);
    var p := stem + shortID;
    assert p[|stem|..] == shortID;
    assert p[|p| - 1] == shortID[SHORT_LEN - 1];
    assert forall i :: 0 <= i < |p| ==> p[i] == if i < |stem| then stem[i] else shortID[i - |stem|];
    assert stem == [] ==> p == shortID;
  }

  // For every name and prefix.
  lemma PodNameIsLabel(name: string, prefix: Option<string>, shortID: string)
    requires IsShortID(shortID)
    ensures NamesPod(PodName(name, prefix, shortID), shortID)
  {
    hide PodName, Stem, IsStem, NamesPod;
    PodNameSplits(name, prefix, shortID);
    StemShape(name, prefix);
    StemThenID(Stem(name, prefix), shortID);
  }

  // Distinct short ids give distinct Pod names, whatever the names and prefixes.
  lemma PodNamesDistinct(n1: string, p1: Option<string>, s1: string, n2: string, p2: Option<string>, s2: string)
    requires IsShortID(s1) && IsShortID(s2) && PodName(n1, p1, s1) == PodName(n2, p2, s2)
    ensures s1 == s2
  {
    hide PodName, IsDnsLabel;
    PodNameIsLabel(n1, p1, s1);
    PodNameIsLabel(n2, p2, s2);
  }

  // ---------- What the name says ----------

  function FullName(name: string, prefix: Option<string>): string {
    (if prefix.Some? then prefix.value else "testtender") + "-" + name
  }

  predicate IsPlainChar(c: char) { IsLower(c) || IsDigit(c) || c == '-' }

  ghost predicate NoPair(s: string) {
    forall i :: 0 <= i < |s| - 1 ==> !(s[i] == '-' && s[i + 1] == '-')
  }

  lemma {:induction false} MergeNoPair(s: string)
    requires NoPair(s)
    ensures MergeHyphens(s) == s
  {
    if |s| >= 2 {
      assert NoPair(s[1..]);
      MergeNoPair(s[1..]);
    }
  }

  function CutTo32(s: string): string { if |s| > 32 then s[..32] else s }

  lemma BasePlain(name: string, prefix: Option<string>)
    requires AllOf(FullName(name, prefix), IsPlainChar)
    ensures BaseName(name, prefix) == CutTo32(FullName(name, prefix))
  {
    var full := FullName(name, prefix);
    assert Hyphenate(full) == full;
    assert AllOf(full, IsNameChar);
    FilterAll(full, IsNameChar);
    hide Filter, Hyphenate;
  }

  lemma PlainThenID(cut: string, shortID: string)
    requires IsShortID(shortID) && AllOf(cut, IsPlainChar)
    requires cut != "" && NoPair(cut) && cut[0] != '-' && cut[|cut| - 1] != '-'
    ensures var all := cut + "-" + shortID;
            NoPair(all) && AllOf(all, IsPlainChar) && IsAlnum(all[0])
  {
    ShortIDChars(shortID);
    var all := cut + "-" + shortID;
    assert forall i :: 0 <= i < |shortID| ==> shortID[i] in shortID;
    forall i | 0 <= i < |all| ensures IsPlainChar(all[i]) && (i > |cut| ==> all[i] != '-') {
      if i > |cut| { assert all[i] == shortID[i - |cut| - 1]; }
    }
  }

  lemma LowerPlain(s: string)
    requires AllOf(s, IsPlainChar)
    ensures ToLower(s) == s
  {
    assert forall i :: 0 <= i < |s| ==> IsPlainChar(s[i]);
  }

  // A prefix and name that are fine as they are, joined and cut to 32, then the short id.
  lemma PodNamePlain(name: string, prefix: Option<string>, shortID: string)
    requires IsShortID(shortID) && AllOf(FullName(name, prefix), IsPlainChar)
    requires var cut := CutTo32(FullName(name, prefix));
             cut != "" && NoPair(cut) && cut[0] != '-' && cut[|cut| - 1] != '-'
    ensures PodName(name, prefix, shortID) == CutTo32(FullName(name, prefix)) + "-" + shortID
  {
    var cut := CutTo32(FullName(name, prefix));
    BasePlain(name, prefix);
    assert AllOf(cut, IsPlainChar);
    hide BaseName, FullName, CutTo32;
    var all := cut + "-" + shortID;
    PlainThenID(cut, shortID);
    hide IsShortID;
    MergeNoPair(all);
    hide MergeHyphens, NoPair;
    assert TrimLeft(all, NotAlnum) == all;
    hide TrimLeft, ToLower;
    LowerPlain(all);
  }

  // Underscores count as hyphens.
  lemma UnderscoresAreHyphens(name: string, name': string, prefix: Option<string>, shortID: string)
    requires |name| == |name'| && forall i :: 0 <= i < |name| ==> name'[i] == if name[i] == '_' then '-' else name[i]
    ensures PodName(name, prefix, shortID) == PodName(name', prefix, shortID)
  {
    assert Hyphenate(FullName(name, prefix)) == Hyphenate(FullName(name', prefix));
  }

  lemma HyphenateConcat(a: string, b: string)
    ensures Hyphenate(a + b) == Hyphenate(a) + Hyphenate(b)
  {
  }

  // Any other character is dropped.
  lemma ForbiddenDropped(a: string, c: char, b: string, prefix: Option<string>, shortID: string)
    requires !IsAlnum(c) && c != '-' && c != '_'
    ensures PodName(a + [c] + b, prefix, shortID) == PodName(a + b, prefix, shortID)
  {
    var front := FullName(a, prefix);
    assert FullName(a + [c] + b, prefix) == front + [c] + b && FullName(a + b, prefix) == front + b;
    assert BaseName(a + [c] + b, prefix) == Take(Filter(Hyphenate(front + [c] + b), IsNameChar), 32);
    assert BaseName(a + b, prefix) == Take(Filter(Hyphenate(front + b), IsNameChar), 32);
    hide FullName, BaseName;
    assert Hyphenate([c]) == [c];
    HyphenateConcat(front + [c], b);
    HyphenateConcat(front, [c]);
    HyphenateConcat(front, b);
    var x, y := Hyphenate(front), Hyphenate(b);
    hide Hyphenate;
    FilterConcat(x + [c], y, IsNameChar);
    FilterConcat(x, [c], IsNameChar);
    FilterConcat(x, y, IsNameChar);
    FilterOne(c, IsNameChar);
    hide Filter, MergeHyphens, TrimLeft, ToLower, Take;
    assert Filter(x + [c] + y, IsNameChar) == Filter(x, IsNameChar) + [] + Filter(y, IsNameChar);
    assert Filter(x, IsNameChar) + [] == Filter(x, IsNameChar);
  }

  // Pairs of hyphens are merged from the left.
  lemma {:induction false} MergePair(a: string, b: string)
    requires '-' !in a
    ensures MergeHyphens(a + "--" + b) == a + "-" + MergeHyphens(b)
  {
    var s := a + "--" + b;
    if a == [] {
      assert s == "--" + b && s[2..] == b;
    } else {
      assert a[0] in a;
      assert s[1..] == a[1..] + "--" + b;
      MergePair(a[1..], b);
    }
  }

  // ---------- Lookup ----------

  // The container table through its three indexes, each mapping to the full id.
  datatype Database = Database(ids: set<string>, byShort: map<string, string>, byName: map<string, string>) {
    // Full ids are 64 characters, and the short index finds each of them.
    ghost predicate Valid() {
      && (forall id :: id in ids ==> |id| == 64 && IsShortID(TruncateID(id)))
      && (forall id :: id in ids ==> TruncateID(id) in byShort && byShort[TruncateID(id)] == id)
    }

    function GetContainer(id: string): Option<string> {
      if IsShortID(id) && id in byShort then Some(byShort[id])
      else if !IsShortID(id) && id in ids then Some(id)
      else FromName(id)
    }

    function FromName(name: string): Option<string> {
      if name in byName then Some(byName[name]) else None
    }

    function GetContainerByName(name: string): Option<string> {
      if name in byName then Some(byName[name])
      else if '-' !in name then None
      else GetContainer(Last(Split(name, '-')))
    }

    function GetContainerByNameOrID(id: string): Option<string> {
      match GetContainer(id)
      case Some(c) => Some(c)
      case None => GetContainerByName(id)
    }
  }

  // A stored container is found under its id and its short id, and under a name that is
  // neither; an id goes before a name.
  lemma FoundByIds(db: Database, id: string, name: string)
    requires db.Valid() && id in db.ids
    ensures db.GetContainer(id) == Some(id) && db.GetContainerByNameOrID(id) == Some(id)
    ensures db.GetContainer(TruncateID(id)) == Some(id) && db.GetContainerByNameOrID(TruncateID(id)) == Some(id)
    ensures name in db.byName && name !in db.ids && name !in db.byShort ==>
              db.GetContainerByNameOrID(name) == Some(db.byName[name])
    ensures name !in db.byName && name !in db.ids && name !in db.byShort && '-' !in name ==>
              db.GetContainerByNameOrID(name) == None
  {
    hide TruncateID;
  }

  // A stored container is found under its Pod name exactly when no other container
  // is literally so named; a Pod name that is just the short id is always safe.
  lemma FoundByPodName(db: Database, id: string, name: string, prefix: Option<string>)
    requires db.Valid() && id in db.ids
    ensures var p := PodName(name, prefix, TruncateID(id));
            db.GetContainerByNameOrID(p) == Some(id)
            <==> p == TruncateID(id) || p !in db.byName || db.byName[p] == id
  {
    hide PodName, TruncateID, IsDnsLabel;
    var sid := TruncateID(id);
    PodNameIsLabel(name, prefix, sid);
    FoundByLabel(db, id, PodName(name, prefix, sid));
  }

  lemma FoundByLabel(db: Database, id: string, p: string)
    requires db.Valid() && id in db.ids && NamesPod(p, TruncateID(id))
    ensures db.GetContainerByNameOrID(p) == Some(id)
            <==> p == TruncateID(id) || p !in db.byName || db.byName[p] == id
  {
    hide TruncateID, IsDnsLabel, Split;
    var sid := TruncateID(id);
    if p != sid {
      var n := |p| - SHORT_LEN - 1;
      assert p == p[..n] + ['-'] + sid;
      ShortIDChars(sid);
      assert '-' in p && !IsShortID(p);
      SplitLast(p[..n], sid, '-');
    }
  }

  // A container literally named like another's Pod hides it.
  lemma HiddenWhenNamed(id: string, other: string, name: string, prefix: Option<string>)
    requires |id| == 64 && |other| == 64 && TruncateID(id) != TruncateID(other)
    requires IsShortID(TruncateID(id)) && IsShortID(TruncateID(other))
    requires PodName(name, prefix, TruncateID(id)) != TruncateID(id)
    ensures var p := PodName(name, prefix, TruncateID(id));
            var db := Database({id, other}, map[TruncateID(id) := id, TruncateID(other) := other], map[p := other]);
            db.Valid() && db.GetContainerByNameOrID(p) != Some(id)
  {
    hide PodName, TruncateID, IsShortID;
    var p := PodName(name, prefix, TruncateID(id));
    var db := Database({id, other}, map[TruncateID(id) := id, TruncateID(other) := other], map[p := other]);
    assert db.Valid();
    FoundByPodName(db, id, name, prefix);
  }

  function Sixty4(c: char): (s: string)
    ensures |s| == 64 && forall i :: 0 <= i < |s| ==> s[i] == c
  {
    seq(64, i => c)
  }

  // Two ids, and the Pod of the first under an empty name and the prefix "a".
  lemma HiddenByName()
    ensures var id, other := Sixty4('a'), Sixty4('b');
            var p := PodName("", Some("a"), TruncateID(id));
            var db := Database({id, other}, map[TruncateID(id) := id, TruncateID(other) := other], map[p := other]);
            db.Valid() && id in db.ids && db.GetContainerByNameOrID(p) != Some(id)
  {
    hide Sixty4, TruncateID, IsShortID, PodName, Stem;
    var id, other := Sixty4('a'), Sixty4('b');
    AllSame(id, 'a');
    AllSame(other, 'b');
    SampleStem();
    PodNameSplits("", Some("a"), TruncateID(id));
    assert |PodName("", Some("a"), TruncateID(id))| > |TruncateID(id)|;
    HiddenWhenNamed(id, other, "", Some("a"));
  }

  lemma AllSame(id: string, c: char)
    requires |id| == 64 && IsHex(c) && forall i :: 0 <= i < |id| ==> id[i] == c
    ensures IsShortID(TruncateID(id)) && TruncateID(id) != "" && TruncateID(id)[0] == c
  {
    IndexOfIs(id, ':', |id|);
    assert TruncateID(id) == id[..SHORT_LEN];
  }

  lemma SampleStem()
    ensures Stem("", Some("a")) != ""
  {
    var base := BaseName("", Some("a"));
    var hyphenated := Hyphenate("a" + "-" + "");
    assert hyphenated == "a-";
    FilterAll("a-", IsNameChar);
    assert base == "a-";
    assert MergeHyphens("a--") == "a-" by {
      assert "a--"[1..] == "--" && "--"[2..] == "";
    }
    assert base + "-" == "a--";
  }
}
