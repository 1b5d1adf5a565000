/**
 Key sets of the OIDC verifier (internal/auth/oidc.go): reading a JWKS document,
 and matching a key with a token algorithm. Key sets and key ids are those of
 sections 5 and 4.5 of RFC 7517. Decoding the key material is foreign code, so a
 document entry carries the outcome of decoding it.
 */
module KeySet {
  import opened Basics

  datatype Curve = P256 | P384 | P521

  datatype Key = Rsa(n: nat) | Ec(curve: Curve, point: nat)

  datatype Record = Record(key: Key, algorithm: string)

  // `rsa` and `ec` are what the two decoders make of the entry's parameters.
  datatype Jwk = Jwk(kid: string, kty: string, use: string, alg: string,
                     rsa: Option<nat>, ec: Option<(Curve, nat)>)

  type Document = seq<Jwk>

  const VALID_METHODS: set<string> := {"RS256", "ES256", "ES384", "ES512"}

  datatype Parse = Keys(keys: map<string, Record>) | Rejected

  predicate Signing(j: Jwk) { j.use == "" || j.use == "sig" }

  predicate Typed(j: Jwk) { j.kty == "RSA" || j.kty == "EC" }

  function Material(j: Jwk): Option<Key> {
    if j.kty == "RSA" then
      (if j.rsa.Some? then Some(Rsa(j.rsa.value)) else None)
    else if j.kty == "EC" then
      (if j.ec.Some? then Some(Ec(j.ec.value.0, j.ec.value.1)) else None)
    else None
  }

  // An entry that ends up in the key set.
  predicate Accepted(j: Jwk) {
    Signing(j) && Material(j).Some? && (j.alg == "" || j.alg in VALID_METHODS)
  }

  function RecordOf(j: Jwk): Record
    requires Accepted(j)
  {
    Record(Material(j).value, j.alg)
  }

  // No signing entry lacks an id or has a key that fails to decode, and none
  // repeats the id of an accepted entry before it.
  ghost predicate Readable(d: Document) {
    forall j :: 0 <= j < |d| && Signing(d[j]) ==>
      && d[j].kid != ""
      && (Typed(d[j]) ==> Material(d[j]).Some?)
      && forall i :: 0 <= i < j && Accepted(d[i]) ==> d[i].kid != d[j].kid
  }

  ghost predicate WellFormed(d: Document) {
    Readable(d) && exists i :: 0 <= i < |d| && Accepted(d[i])
  }

  // The keys of a readable document: exactly its accepted entries.
  ghost predicate KeysOf(d: Document, keys: map<string, Record>) {
    && (forall i :: 0 <= i < |d| && Accepted(d[i]) ==> d[i].kid in keys && keys[d[i].kid] == RecordOf(d[i]))
    && (forall kid :: kid in keys ==> exists i :: 0 <= i < |d| && Accepted(d[i]) && d[i].kid == kid)
  }

  // What one turn of the loop does with entry j.
  function ReadEntry(keys: map<string, Record>, j: Jwk): Parse {
    if !Signing(j) then Keys(keys)
    else if j.kid == "" || j.kid in keys || (Typed(j) && Material(j).None?) then Rejected
    else if Accepted(j) then Keys(keys[j.kid := RecordOf(j)])
    else Keys(keys)
  }

  function ReadEntries(d: Document): Parse {
    if d == [] then Keys(map[])
    else
      match ReadEntries(d[..|d| - 1])
      case Keys(keys) => ReadEntry(keys, d[|d| - 1])
      case Rejected => Rejected
  }

  function Parsed(d: Document): Parse {
    match ReadEntries(d)
    case Keys(keys) => if keys == map[] then Rejected else Keys(keys)
    case Rejected => Rejected
  }

  lemma {:induction false} RejectedStays(d: Document, n: nat)
    requires n <= |d| && ReadEntries(d[..n]).Rejected?
    ensures ReadEntries(d).Rejected?
  {
    if n < |d| {
      assert d[..|d| - 1][..n] == d[..n];
      RejectedStays(d[..|d| - 1], n);
    } else {
      assert d[..n] == d;
    }
  }

  method ParseKeySet(d: Document) returns (r: Parse)
    ensures r == Parsed(d)
  {
    if |d| == 0 { return Rejected; }
    var keys: map<string, Record> := map[];
    for n := 0 to |d|
      invariant ReadEntries(d[..n]) == Keys(keys)
    {
      var j := d[n];
      assert d[..n + 1][..n] == d[..n];
      if j.use != "" && j.use != "sig" { continue; }
      if j.kid == "" || j.kid in keys {
        RejectedStays(d, n + 1);
        return Rejected;
      }
      if j.kty != "RSA" && j.kty != "EC" { continue; }
      var key := Material(j);
      if key == None {
        RejectedStays(d, n + 1);
        return Rejected;
      }
      if j.alg != "" && j.alg !in VALID_METHODS { continue; }
      keys := keys[j.kid := Record(key.value, j.alg)];
    }
    assert d[..|d|] == d;
    return if |keys| == 0 then Rejected else Keys(keys);
  }

  lemma ReadableFront(d: Document)
    requires d != []
    ensures Readable(d) <==>
            && Readable(d[..|d| - 1])
            && (Signing(d[|d| - 1]) ==>
                  && d[|d| - 1].kid != ""
                  && (Typed(d[|d| - 1]) ==> Material(d[|d| - 1]).Some?)
                  && forall i :: 0 <= i < |d| - 1 && Accepted(d[i]) ==> d[i].kid != d[|d| - 1].kid)
  {
    var front := d[..|d| - 1];
    assert forall i :: 0 <= i < |front| ==> front[i] == d[i];
  }

  lemma KeysOfAppend(front: Document, j: Jwk, keys: map<string, Record>)
    requires KeysOf(front, keys)
    ensures !Accepted(j) ==> KeysOf(front + [j], keys)
    ensures Accepted(j) && j.kid !in keys ==> KeysOf(front + [j], keys[j.kid := RecordOf(j)])
  {
    hide Accepted;
    var d := front + [j];
    assert d[|front|] == j;
    assert forall i :: 0 <= i < |front| ==> d[i] == front[i];
    forall kid | kid in keys ensures exists i :: 0 <= i < |d| && Accepted(d[i]) && d[i].kid == kid {
      var i :| 0 <= i < |front| && Accepted(front[i]) && front[i].kid == kid;
      assert d[i] == front[i];
    }
  }

  lemma {:induction false} ReadEntriesIff(d: Document)
    ensures ReadEntries(d).Keys? <==> Readable(d)
    ensures Readable(d) ==> KeysOf(d, ReadEntries(d).keys)
  {
    if d != [] {
      var n := |d| - 1;
      ReadEntriesIff(d[..n]);
      ReadableFront(d);
      if Readable(d) {
        var keys := ReadEntries(d[..n]).keys;
        KeysOfAppend(d[..n], d[n], keys);
        assert d[..n] + [d[n]] == d;
        assert Signing(d[n]) ==> d[n].kid !in keys by {
          assert forall i :: 0 <= i < n ==> d[..n][i] == d[i];
        }
      } else if Readable(d[..n]) {
        var keys := ReadEntries(d[..n]).keys;
        assert forall i :: 0 <= i < n ==> d[..n][i] == d[i];
        assert Signing(d[n]);
      }
    }
  }

  // A document is accepted exactly when it is well formed, and the key set then
  // holds exactly its supported signing keys, each under its own id.
  lemma ParsedIff(d: Document)
    ensures Parsed(d).Keys? <==> WellFormed(d)
    ensures Parsed(d).Keys? ==> KeysOf(d, Parsed(d).keys)
  {
    ReadEntriesIff(d);
    if Readable(d) {
      var keys := ReadEntries(d).keys;
      if keys == map[] {
        assert forall i :: 0 <= i < |d| && Accepted(d[i]) ==> d[i].kid in keys;
      } else {
        var kid :| kid in keys;
      }
    }
  }

  // What an accepted entry is, and what it is stored as.
  ghost predicate Supports(j: Jwk, r: Record) {
    && (j.use == "" || j.use == "sig")
    && (j.alg == "" || j.alg == "RS256" || j.alg == "ES256" || j.alg == "ES384" || j.alg == "ES512")
    && r.algorithm == j.alg
    && (|| (j.kty == "RSA" && j.rsa.Some? && r.key == Rsa(j.rsa.value))
        || (j.kty == "EC" && j.ec.Some? && r.key == Ec(j.ec.value.0, j.ec.value.1)))
  }

  lemma AcceptedIff(j: Jwk)
    ensures Accepted(j) <==> exists r :: Supports(j, r)
    ensures forall r :: Supports(j, r) <==> Accepted(j) && r == RecordOf(j)
  {
    if Accepted(j) { assert Supports(j, RecordOf(j)); }
  }

  // A parsed set in the terms of the document.
  lemma ParsedSupports(d: Document, kid: string, r: Record)
    requires Parsed(d).Keys?
    ensures kid in Parsed(d).keys && Parsed(d).keys[kid] == r <==>
              exists i :: 0 <= i < |d| && d[i].kid == kid && Supports(d[i], r)
  {
    ParsedIff(d);
    hide Parsed, Accepted, Supports;
    if kid in Parsed(d).keys && Parsed(d).keys[kid] == r {
      var i :| 0 <= i < |d| && Accepted(d[i]) && d[i].kid == kid;
      AcceptedIff(d[i]);
    }
    if i :| 0 <= i < |d| && d[i].kid == kid && Supports(d[i], r) {
      AcceptedIff(d[i]);
    }
  }

  // A signing entry without an id, with material that does not decode, or with the id of
  // a supported one before it.
  ghost predicate Bad(d: Document, j: int) {
    && 0 <= j < |d| && (d[j].use == "" || d[j].use == "sig")
    && (|| d[j].kid == ""
        || (d[j].kty == "RSA" && d[j].rsa.None?) || (d[j].kty == "EC" && d[j].ec.None?)
        || exists i, r :: 0 <= i < j && d[i].kid == d[j].kid && Supports(d[i], r))
  }

  lemma RejectedIff(d: Document)
    ensures Parsed(d).Rejected? <==>
              (exists j :: Bad(d, j)) || !(exists i, r :: 0 <= i < |d| && Supports(d[i], r))
  {
    ParsedIff(d);
    forall i | 0 <= i < |d| ensures Accepted(d[i]) <==> exists r :: Supports(d[i], r) { AcceptedIff(d[i]); }
    forall j ensures Bad(d, j) <==> BadAt(d, j) { BadIs(d, j); }
    hide Parsed, Accepted, Supports, Bad;
    ReadableIff(d);
    hide Readable, BadAt;
  }

  ghost predicate BadAt(d: Document, j: int) {
    && 0 <= j < |d| && Signing(d[j])
    && (|| d[j].kid == "" || (Typed(d[j]) && Material(d[j]).None?)
        || exists i :: 0 <= i < j && Accepted(d[i]) && d[i].kid == d[j].kid)
  }

  lemma ReadableIff(d: Document)
    ensures Readable(d) <==> forall j :: !BadAt(d, j)
  {
    hide Accepted;
    if !Readable(d) {
      var j :| 0 <= j < |d| && Signing(d[j])
               && !(&& d[j].kid != "" && (Typed(d[j]) ==> Material(d[j]).Some?)
                    && forall i :: 0 <= i < j && Accepted(d[i]) ==> d[i].kid != d[j].kid);
      assert BadAt(d, j);
    }
  }

  lemma BadIs(d: Document, j: int)
    ensures Bad(d, j) <==> BadAt(d, j)
  {
    if 0 <= j < |d| {
      forall i | 0 <= i < |d| ensures Accepted(d[i]) <==> exists r :: Supports(d[i], r) { AcceptedIff(d[i]); }
      hide Accepted, Supports;
    }
  }

  lemma KeysUnique(d: Document, a: map<string, Record>, b: map<string, Record>)
    requires KeysOf(d, a) && KeysOf(d, b)
    ensures a == b
  {
    assert forall kid :: kid in a <==> kid in b;
  }

  // Whether a document is read can depend on the order of its entries: an
  // unsupported entry may come before a supported one of the same id, not after.
  lemma OrderMatters()
    ensures exists a: Jwk, b: Jwk :: WellFormed([a, b]) && !WellFormed([b, a])
  {
    var oct := Jwk("k", "oct", "sig", "", None, None);
    var rsa := Jwk("k", "RSA", "sig", "", Some(1), None);
    assert Accepted([oct, rsa][1]);
    assert Accepted([rsa, oct][0]) && Signing([rsa, oct][1]);
    assert !Readable([rsa, oct]);
    assert WellFormed([oct, rsa]);
  }

  // No accepted entry shares its id with another signing entry.
  ghost predicate Unambiguous(d: Document) {
    forall i, j :: 0 <= i < |d| && 0 <= j < |d| && i != j && Accepted(d[i]) && Signing(d[j]) ==> d[i].kid != d[j].kid
  }

  lemma {:induction false} TwoPlaces(d: Document, i: nat, j: nat)
    requires i < j < |d| && d[i] == d[j]
    ensures multiset(d)[d[i]] >= 2
  {
    assert d == d[..j] + [d[j]] + d[j + 1..];
    assert d[..j][i] == d[i];
  }

  lemma {:induction false} PlacesOf(d: Document, a: Jwk)
    requires multiset(d)[a] >= 2
    ensures exists i, j :: 0 <= i < j < |d| && d[i] == a && d[j] == a
  {
    var n := |d| - 1;
    assert d == d[..n] + [d[n]];
    if d[n] == a {
      assert a in multiset(d[..n]);
      var i :| 0 <= i < n && d[..n][i] == a;
      assert d[i] == a && d[n] == a;
    } else {
      PlacesOf(d[..n], a);
      var i, j :| 0 <= i < j < n && d[..n][i] == a && d[..n][j] == a;
      assert d[i] == a && d[j] == a;
    }
  }

  lemma RepeatIsAmbiguous(d: Document, a: Jwk)
    requires multiset(d)[a] >= 2 && Accepted(a)
    ensures !Unambiguous(d)
  {
    PlacesOf(d, a);
    var i, j :| 0 <= i < j < |d| && d[i] == a && d[j] == a;
    assert Accepted(d[i]) && Signing(d[j]) && d[i].kid == d[j].kid;
  }

  lemma ReadableWhenUnambiguous(d: Document, p: Document)
    requires WellFormed(d) && Unambiguous(d) && multiset(p) == multiset(d)
    ensures WellFormed(p)
  {
    hide Accepted;
    forall j | 0 <= j < |p| ensures exists k :: 0 <= k < |d| && d[k] == p[j] { assert p[j] in multiset(p); }
    forall i, j | 0 <= i < j < |p| && Accepted(p[i]) && Signing(p[j]) ensures p[i].kid != p[j].kid {
      if p[i] == p[j] {
        TwoPlaces(p, i, j);
        RepeatIsAmbiguous(d, p[i]);
      } else {
        var k :| 0 <= k < |d| && d[k] == p[i];
        var l :| 0 <= l < |d| && d[l] == p[j];
        assert d[k].kid != d[l].kid;
      }
    }
    var k :| 0 <= k < |d| && Accepted(d[k]);
    assert d[k] in multiset(d);
    var i :| 0 <= i < |p| && p[i] == d[k];
  }

  lemma SwapsToAmbiguous(d: Document, i: nat, j: nat)
    requires j < i < |d| && Accepted(d[i]) && Signing(d[j]) && d[i].kid == d[j].kid
    ensures exists p: Document :: multiset(p) == multiset(d) && !WellFormed(p)
  {
    var p := d[i := d[j]][j := d[i]];
    SwapKeepsMultiset(d, i, j);
    assert Accepted(p[j]) && Signing(p[i]) && p[j].kid == p[i].kid;
    assert !Readable(p);
    assert multiset(p) == multiset(d) && !WellFormed(p);
  }

  lemma SwapKeepsMultiset<T>(d: seq<T>, i: nat, j: nat)
    requires j < i < |d|
    ensures multiset(d[i := d[j]][j := d[i]]) == multiset(d)
  {
    var p := d[i := d[j]][j := d[i]];
    TwoOut(d, i, j);
    TwoOut(p, i, j);
    assert p[..j] == d[..j] && p[j + 1..i] == d[j + 1..i] && p[i + 1..] == d[i + 1..];
  }

  lemma TwoOut<T>(d: seq<T>, i: nat, j: nat)
    requires j < i < |d|
    ensures multiset(d) == multiset(d[..j]) + multiset(d[j + 1..i]) + multiset(d[i + 1..]) + multiset{d[j], d[i]}
  {
    OneOut(d, i);
    OneOut(d[..i], j);
    assert d[..i][..j] == d[..j] && d[..i][j + 1..] == d[j + 1..i];
  }

  lemma OneOut<T>(d: seq<T>, i: nat)
    requires i < |d|
    ensures multiset(d) == multiset(d[..i]) + multiset{d[i]} + multiset(d[i + 1..])
  {
    assert d == d[..i] + ([d[i]] + d[i + 1..]);
  }

  // A well-formed document is read in every order of its entries exactly when
  // it is unambiguous, and then to the same keys.
  lemma OrderIndependentIff(d: Document)
    requires WellFormed(d)
    ensures (forall p: Document :: multiset(p) == multiset(d) ==> Parsed(p) == Parsed(d)) <==> Unambiguous(d)
  {
    ParsedIff(d);
    if Unambiguous(d) {
      forall p: Document | multiset(p) == multiset(d) ensures Parsed(p) == Parsed(d) {
        ReadableWhenUnambiguous(d, p);
        ParsedIff(p);
        SameEntriesSameKeys(d, p, Parsed(p).keys);
        KeysUnique(d, Parsed(p).keys, Parsed(d).keys);
      }
    } else {
      var i, j :| 0 <= i < |d| && 0 <= j < |d| && i != j && Accepted(d[i]) && Signing(d[j]) && d[i].kid == d[j].kid;
      SwapsToAmbiguous(d, i, j);
      var p: Document :| multiset(p) == multiset(d) && !WellFormed(p);
      ParsedIff(p);
    }
  }

  lemma SameEntriesSameKeys(d: Document, p: Document, keys: map<string, Record>)
    requires multiset(p) == multiset(d) && KeysOf(p, keys)
    ensures KeysOf(d, keys)
  {
    hide Accepted;
    forall k | 0 <= k < |d| && Accepted(d[k]) ensures d[k].kid in keys && keys[d[k].kid] == RecordOf(d[k]) {
      assert d[k] in multiset(d);
      var i :| 0 <= i < |p| && p[i] == d[k];
    }
    forall kid | kid in keys ensures exists k :: 0 <= k < |d| && Accepted(d[k]) && d[k].kid == kid {
      var i :| 0 <= i < |p| && Accepted(p[i]) && p[i].kid == kid;
      assert p[i] in multiset(p);
      var k :| 0 <= k < |d| && d[k] == p[i];
    }
  }

  // ---------- Matching a key with a token algorithm ----------

  function CurveAlgorithm(c: Curve): string {
    match c case P256 => "ES256" case P384 => "ES384" case P521 => "ES512"
  }

  function CheckKeyAlgorithm(r: Record, token: string): Option<Key> {
    if r.algorithm != "" && r.algorithm != token then None
    else
      match r.key
      case Rsa(_) => if token == "RS256" then Some(r.key) else None
      case Ec(c, _) => if CurveAlgorithm(c) == token then Some(r.key) else None
  }

  // RSA keys are for RS256, and a curve is for the algorithm of its size; an algorithm
  // named in the entry has to agree.
  lemma CheckIff(r: Record, token: string, key: Key)
    ensures CheckKeyAlgorithm(r, token) == Some(key) <==>
              && key == r.key && (r.algorithm == "" || r.algorithm == token)
              && (|| (key.Rsa? && token == "RS256")
                  || (key.Ec? && key.curve.P256? && token == "ES256")
                  || (key.Ec? && key.curve.P384? && token == "ES384")
                  || (key.Ec? && key.curve.P521? && token == "ES512"))
  {
  }

  // A key of a parsed set is handed out for at most one algorithm, a permitted
  // one, and for that one unless its entry names another.
  lemma OneAlgorithmPerKey(d: Document, kid: string, a: string, b: string)
    requires Parsed(d).Keys? && kid in Parsed(d).keys
    ensures var r := Parsed(d).keys[kid];
            && (CheckKeyAlgorithm(r, a).Some? && CheckKeyAlgorithm(r, b).Some? ==> a == b && a in VALID_METHODS)
            && (r.algorithm == "" ==> exists m :: m in VALID_METHODS && CheckKeyAlgorithm(r, m) == Some(r.key))
  {
    var r := Parsed(d).keys[kid];
    var m := if r.key.Rsa? then "RS256" else CurveAlgorithm(r.key.curve);
    assert m in VALID_METHODS;
  }
}
