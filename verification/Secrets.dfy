/**
 Secret references in container labels (internal/policy/secret/env.go): which
 labels are translated, to what, and that the outcome does not depend on the
 iteration order of the label map.

 The name rules of Kubernetes are library code; they are parameters here, so the
 results hold for any rules.
 */
module Secrets {
  import opened Strings
  import opened Sorting

  type LabelMap = map<string, string>

  const MAX_REFERENCES := 32
  const VOLUME_NAME := "testtender-secrets"

  datatype Rules = Rules(envVarName: string -> bool, subdomain: string -> bool, configMapKey: string -> bool)

  datatype Policy = Policy(rules: Rules, allowed: set<string>)

  datatype Error =
    | TooMany
    | InvalidName(name: string)
    | Conflict(name: string)
    | Duplicate(name: string)
    | InvalidReference(target: string)
    | Denied(secret: string)

  datatype Result<+T> = Ok(value: T) | Err(error: Error)

  // One reference: the variable or file it is for, and the Secret key behind it.
  datatype Entry = Entry(name: string, secret: string, key: string)

  // ---------- The allowlist ----------

  // Names are trimmed, empty ones skipped, and an invalid one rejects the list.
  method New(rules: Rules, raw: seq<string>) returns (p: Result<Policy>)
    ensures p.Ok? <==> forall i :: 0 <= i < |raw| && TrimSpace(raw[i]) != "" ==> rules.subdomain(TrimSpace(raw[i]))
    ensures p.Ok? ==> p.value.rules == rules
    ensures p.Ok? ==> forall name :: name in p.value.allowed <==>
                        name != "" && exists i :: 0 <= i < |raw| && TrimSpace(raw[i]) == name
  {
    hide TrimSpace;
    var allowed: set<string> := {};
    for n := 0 to |raw|
      invariant forall i :: 0 <= i < n && TrimSpace(raw[i]) != "" ==> rules.subdomain(TrimSpace(raw[i]))
      invariant forall name :: name in allowed <==> name != "" && exists i :: 0 <= i < n && TrimSpace(raw[i]) == name
    {
      var name := TrimSpace(raw[n]);
      if name == "" { continue; }
      if !rules.subdomain(name) { return Err(InvalidName(name)); }
      allowed := allowed + {name};
    }
    return Ok(Policy(rules, allowed));
  }

  // ---------- One reference ----------

  // <secret-name>:<secret-key>
  function ParseReference(p: Policy, target: string, raw: string): Result<Entry> {
    var t := TrimSpace(raw);
    var k := IndexOf(t, ':');
    if k == |t| || k == 0 || k == |t| - 1 then Err(InvalidReference(target))
    else
      var secret, key := t[..k], t[k + 1..];
      if !p.rules.subdomain(secret) || !p.rules.configMapKey(key) then Err(InvalidReference(target))
      else if secret !in p.allowed then Err(Denied(secret))
      else Ok(Entry(target, secret, key))
  }

  // What each kind of label asks of the name after its prefix.
  datatype Kind = Env(existing: set<string>) | File

  function Prefix(kind: Kind): string {
    if kind.Env? then "testtender.io/secret-env." else "testtender.io/secret-file."
  }

  function CheckName(p: Policy, kind: Kind, name: string): Result<()> {
    match kind
    case Env(existing) =>
      if !p.rules.envVarName(name) then Err(InvalidName(name))
      else if name in existing then Err(Conflict(name)) else Ok(())
    case File =>
      if name == "." || name == ".." || !p.rules.configMapKey(name) then Err(InvalidName(name)) else Ok(())
  }

  function NameOf(kind: Kind, tag: string): string
    requires Prefix(kind) <= tag
  {
    tag[|Prefix(kind)|..]
  }

  function Translate1(p: Policy, kind: Kind, labels: LabelMap, tag: string): Result<Entry>
    requires tag in labels && Prefix(kind) <= tag
  {
    var name := NameOf(kind, tag);
    match CheckName(p, kind, name)
    case Err(e) => Err(e)
    case Ok(_) => ParseReference(p, name, labels[tag])
  }

  function LabelsFor(kind: Kind, labels: LabelMap): set<string> {
    set tag | tag in labels && Prefix(kind) <= tag
  }

  // ---------- All references ----------

  ghost predicate For(kind: Kind, labels: LabelMap, l: seq<string>) {
    forall i :: 0 <= i < |l| ==> l[i] in labels && Prefix(kind) <= l[i]
  }

  // The labels one after the other, stopping at the first error.
  ghost function TranslateAll(p: Policy, kind: Kind, labels: LabelMap, l: seq<string>): Result<seq<Entry>>
    requires For(kind, labels, l)
  {
    if l == [] then Ok([])
    else
      match TranslateAll(p, kind, labels, l[..|l| - 1])
      case Err(e) => Err(e)
      case Ok(es) =>
        match Translate1(p, kind, labels, l[|l| - 1])
        case Err(e) => Err(e)
        case Ok(e) => Ok(es + [e])
  }

  ghost function Keys(kind: Kind, labels: LabelMap): (l: seq<string>)
    ensures Lists(l, LabelsFor(kind, labels)) && For(kind, labels, l)
  {
    var l := Listing(LabelsFor(kind, labels));
    assert forall i :: 0 <= i < |l| ==> l[i] in l;
    l
  }

  // The translation as a function of the label map: no iteration order is left.
  ghost function Translate(p: Policy, kind: Kind, labels: LabelMap): Result<seq<Entry>> {
    if |LabelsFor(kind, labels)| > MAX_REFERENCES then Err(TooMany)
    else TranslateAll(p, kind, labels, Keys(kind, labels))
  }

  lemma {:induction false} ErrorStays(p: Policy, kind: Kind, labels: LabelMap, l: seq<string>, n: nat)
    requires For(kind, labels, l) && n <= |l|
    requires For(kind, labels, l[..n]) && TranslateAll(p, kind, labels, l[..n]).Err?
    ensures TranslateAll(p, kind, labels, l) == TranslateAll(p, kind, labels, l[..n])
  {
    hide Translate1;
    if n < |l| {
      var front := l[..|l| - 1];
      assert front[..n] == l[..n];
      ErrorStays(p, kind, labels, front, n);
    } else {
      assert l[..n] == l;
    }
  }

  // One turn of either loop.
  lemma NextEntry(p: Policy, kind: Kind, labels: LabelMap, l: seq<string>, n: nat, es: seq<Entry>)
    requires For(kind, labels, l) && n < |l| && For(kind, labels, l[..n])
    requires TranslateAll(p, kind, labels, l[..n]) == Ok(es)
    ensures For(kind, labels, l[..n + 1])
    ensures match Translate1(p, kind, labels, l[n])
            case Err(e) => TranslateAll(p, kind, labels, l) == Err(e)
            case Ok(e) => TranslateAll(p, kind, labels, l[..n + 1]) == Ok(es + [e])
  {
    hide Translate1, Prefix;
    assert l[..n + 1][..n] == l[..n];
    if Translate1(p, kind, labels, l[n]).Err? {
      ErrorStays(p, kind, labels, l, n + 1);
    }
  }

  method EnvVars(p: Policy, labels: LabelMap, existing: seq<string>) returns (r: Result<seq<Entry>>)
    ensures r == Translate(p, Env(set name | name in existing), labels)
  {
    var kind := Env(set name | name in existing);
    hide Prefix;
    var wanted := LabelsFor(kind, labels);
    if |wanted| > MAX_REFERENCES { return Err(TooMany); }
    var l := SortedKeys(wanted);
    var es: seq<Entry> := [];
    assert l == Keys(kind, labels);
    hide TranslateAll, ParseReference, Keys;
    EmptyTranslates(p, kind, labels, l);
    for n := 0 to |l|
      invariant For(kind, labels, l) && For(kind, labels, l[..n])
      invariant TranslateAll(p, kind, labels, l[..n]) == Ok(es)
    {
      NextEntry(p, kind, labels, l, n, es);
      var name := NameOf(kind, l[n]);
      if !p.rules.envVarName(name) { return Err(InvalidName(name)); }
      if name in kind.existing { return Err(Conflict(name)); }
      var ref := ParseReference(p, name, labels[l[n]]);
      if ref.Err? { return Err(ref.error); }
      es := es + [ref.value];
    }
    assert l[..|l|] == l;
    return Ok(es);
  }

  lemma EmptyTranslates(p: Policy, kind: Kind, labels: LabelMap, l: seq<string>)
    ensures For(kind, labels, l[..0]) && TranslateAll(p, kind, labels, l[..0]) == Ok([])
  {
  }

  // ---------- What a translation contains ----------

  // <secret-name>:<secret-key>, both valid and the Secret allowed.
  ghost predicate Names(p: Policy, raw: string, e: Entry) {
    && TrimSpace(raw) == e.secret + ":" + e.key
    && e.secret != "" && e.key != "" && ':' !in e.secret
    && p.rules.subdomain(e.secret) && p.rules.configMapKey(e.key) && e.secret in p.allowed
  }

  // Entry e is what label tag translates to.
  ghost predicate Stands(p: Policy, kind: Kind, labels: LabelMap, tag: string, e: Entry) {
    && tag in labels && Names(p, labels[tag], e)
    && match kind
       case Env(existing) =>
         tag == "testtender.io/secret-env." + e.name && p.rules.envVarName(e.name) && e.name !in existing
       case File =>
         tag == "testtender.io/secret-file." + e.name && p.rules.configMapKey(e.name) && e.name != "." && e.name != ".."
  }

  lemma CutJoins(t: string)
    ensures var k := IndexOf(t, ':'); k < |t| ==> t == t[..k] + ":" + t[k + 1..] && ':' !in t[..k]
  {
    hide IndexOf;
    var k := IndexOf(t, ':');
    if k < |t| {
      CutIn3(t, k, k + 1);
      assert t[k..k + 1] == ":";
    }
  }

  lemma CutAtColon(t: string, secret: string, key: string)
    ensures (IndexOf(t, ':') < |t| && t[..IndexOf(t, ':')] == secret && t[IndexOf(t, ':') + 1..] == key) <==>
              t == secret + ":" + key && ':' !in secret
  {
    hide IndexOf;
    if t == secret + ":" + key && ':' !in secret {
      CutAt(t, secret, ':', key);
    } else {
      CutJoins(t);
    }
  }

  lemma ParseReferenceIff(p: Policy, target: string, raw: string, e: Entry)
    ensures ParseReference(p, target, raw) == Ok(e) <==> e.name == target && Names(p, raw, e)
  {
    hide TrimSpace, IndexOf;
    CutAtColon(TrimSpace(raw), e.secret, e.key);
    if ParseReference(p, target, raw) == Ok(e) {
      CutIsFull(TrimSpace(raw), e.secret, e.key);
    }
  }

  lemma CutIsFull(t: string, secret: string, key: string)
    requires t == secret + ":" + key
    ensures |t| == |secret| + 1 + |key|
  {
  }

  lemma CheckNameIff(p: Policy, kind: Kind, name: string)
    ensures CheckName(p, kind, name).Ok? <==>
              match kind
              case Env(existing) => p.rules.envVarName(name) && name !in existing
              case File => p.rules.configMapKey(name) && name != "." && name != ".."
    ensures Prefix(kind) == if kind.Env? then "testtender.io/secret-env." else "testtender.io/secret-file."
  {
  }

  lemma StandsIff(p: Policy, kind: Kind, labels: LabelMap, tag: string, e: Entry)
    requires tag in labels && Prefix(kind) <= tag
    ensures Stands(p, kind, labels, tag, e) <==> Translate1(p, kind, labels, tag) == Ok(e)
  {
    var name := NameOf(kind, tag);
    assert tag == Prefix(kind) + name;
    CheckNameIff(p, kind, name);
    ParseReferenceIff(p, name, labels[tag], e);
    assert (Prefix(kind) + e.name)[|Prefix(kind)|..] == e.name;
    hide ParseReference, CheckName, Names, Prefix;
  }

  lemma Stands1(p: Policy, kind: Kind, labels: LabelMap, tag: string)
    requires tag in labels && Prefix(kind) <= tag
    ensures var r := Translate1(p, kind, labels, tag);
            r.Ok? ==> Stands(p, kind, labels, tag, r.value) && tag == Prefix(kind) + r.value.name
    ensures Translate1(p, kind, labels, tag).Ok? <==> exists e :: Stands(p, kind, labels, tag, e)
  {
    var r := Translate1(p, kind, labels, tag);
    hide Translate1, Names;
    forall e ensures Stands(p, kind, labels, tag, e) <==> r == Ok(e) { StandsIff(p, kind, labels, tag, e); }
    if r.Ok? { assert Stands(p, kind, labels, tag, r.value); }
  }

  lemma {:induction false} TranslateAllIff(p: Policy, kind: Kind, labels: LabelMap, l: seq<string>)
    requires For(kind, labels, l)
    ensures var r := TranslateAll(p, kind, labels, l);
            && (r.Ok? <==> forall i :: 0 <= i < |l| ==> Translate1(p, kind, labels, l[i]).Ok?)
            && (r.Ok? ==>
                  && |r.value| == |l|
                  && forall i :: 0 <= i < |l| ==> Ok(r.value[i]) == Translate1(p, kind, labels, l[i]))
  {
    hide Translate1, Prefix;
    if l != [] {
      var n := |l| - 1;
      TranslateAllIff(p, kind, labels, l[..n]);
      assert forall i :: 0 <= i < n ==> l[..n][i] == l[i];
    }
  }

  // What a label is turned away with, in the order of the checks.
  lemma Error1(p: Policy, kind: Kind, labels: LabelMap, tag: string)
    requires tag in labels && Prefix(kind) <= tag
    ensures var name, t, r := NameOf(kind, tag), TrimSpace(labels[tag]), Translate1(p, kind, labels, tag);
            && (r == Err(InvalidName(name)) <==>
                  if kind.Env? then !p.rules.envVarName(name)
                  else name == "." || name == ".." || !p.rules.configMapKey(name))
            && (r == Err(Conflict(name)) <==> kind.Env? && p.rules.envVarName(name) && name in kind.existing)
            && (r.Err? && r.error.Denied? ==>
                  exists key :: t == r.error.secret + ":" + key && ':' !in r.error.secret
                                && r.error.secret !in p.allowed)
            && (r.Err? ==> r.error in {InvalidName(name), Conflict(name), InvalidReference(name)} || r.error.Denied?)
  {
    hide TrimSpace, IndexOf, Prefix;
    var t, r := TrimSpace(labels[tag]), Translate1(p, kind, labels, tag);
    if r.Err? && r.error.Denied? {
      var k := IndexOf(t, ':');
      CutAtColon(t, t[..k], t[k + 1..]);
    }
  }

  // A translation fails with the error of its first failing label.
  lemma {:induction false} FirstError(p: Policy, kind: Kind, labels: LabelMap, l: seq<string>)
    requires For(kind, labels, l) && TranslateAll(p, kind, labels, l).Err?
    ensures exists i :: 0 <= i < |l| && Translate1(p, kind, labels, l[i]) == Err(TranslateAll(p, kind, labels, l).error)
                        && forall j :: 0 <= j < i ==> Translate1(p, kind, labels, l[j]).Ok?
  {
    hide Translate1, Prefix;
    var n := |l| - 1;
    var front := l[..n];
    if TranslateAll(p, kind, labels, front).Err? {
      FirstError(p, kind, labels, front);
      var i :| 0 <= i < n && Translate1(p, kind, labels, front[i]) == Err(TranslateAll(p, kind, labels, front).error)
               && forall j :: 0 <= j < i ==> Translate1(p, kind, labels, front[j]).Ok?;
      assert front[i] == l[i] && forall j :: 0 <= j < i ==> front[j] == l[j];
    } else {
      TranslateAllIff(p, kind, labels, front);
      assert forall j :: 0 <= j < n ==> front[j] == l[j];
    }
  }

  // More than 32 labels are too many; otherwise the least failing label decides.
  lemma ErrorIs(p: Policy, kind: Kind, labels: LabelMap)
    requires Translate(p, kind, labels).Err?
    ensures var e := Translate(p, kind, labels).error;
            if |LabelsFor(kind, labels)| > 32 then e == TooMany
            else exists tag :: tag in LabelsFor(kind, labels) && Translate1(p, kind, labels, tag) == Err(e)
                   && forall other :: other in LabelsFor(kind, labels) && Less(other, tag) ==>
                        Translate1(p, kind, labels, other).Ok?
  {
    hide Prefix, Translate1, Less, TranslateAll;
    if |LabelsFor(kind, labels)| <= 32 {
      var l := Keys(kind, labels);
      hide Keys;
      FirstError(p, kind, labels, l);
      var i :| 0 <= i < |l| && Translate1(p, kind, labels, l[i]) == Err(TranslateAll(p, kind, labels, l).error)
               && forall j :: 0 <= j < i ==> Translate1(p, kind, labels, l[j]).Ok?;
      assert l[i] in l;
      forall other | other in LabelsFor(kind, labels) && Less(other, l[i])
        ensures Translate1(p, kind, labels, other).Ok?
      {
        assert other in l;
        var j :| 0 <= j < |l| && l[j] == other;
        LessTotal(l[i], l[j]);
        LessTotal(l[i], l[i]);
      }
    }
  }

  // References are conserved: the entries stand one to one for the labels of this
  // kind, at most 32, in ascending order of distinct names, each from an allowed
  // Secret.
  ghost predicate Conserves(p: Policy, kind: Kind, labels: LabelMap, es: seq<Entry>) {
    && |es| == |LabelsFor(kind, labels)| <= 32
    && (forall i :: 0 <= i < |es| ==> Stands(p, kind, labels, Prefix(kind) + es[i].name, es[i]))
    && (forall tag :: tag in LabelsFor(kind, labels) ==> exists i :: 0 <= i < |es| && tag == Prefix(kind) + es[i].name)
    && (forall i, j :: 0 <= i < j < |es| ==> Less(es[i].name, es[j].name))
    && (forall i :: 0 <= i < |es| ==> es[i].secret in p.allowed)
  }

  lemma TranslateIff(p: Policy, kind: Kind, labels: LabelMap)
    ensures Translate(p, kind, labels).Ok? <==>
              && |LabelsFor(kind, labels)| <= 32
              && forall tag :: tag in LabelsFor(kind, labels) ==> exists e :: Stands(p, kind, labels, tag, e)
    ensures Translate(p, kind, labels).Ok? ==> Conserves(p, kind, labels, Translate(p, kind, labels).value)
  {
    hide Prefix, TranslateAll, Translate1, Stands, Less;
    var l := Keys(kind, labels);
    hide Keys;
    TranslateAllIff(p, kind, labels, l);
    ListingSize(l, LabelsFor(kind, labels));
    forall i | 0 <= i < |l|
      ensures Translate1(p, kind, labels, l[i]).Ok? <==> exists e :: Stands(p, kind, labels, l[i], e)
    {
      Stands1(p, kind, labels, l[i]);
    }
    assert forall tag :: tag in LabelsFor(kind, labels) <==> tag in l;
    if Translate(p, kind, labels).Ok? {
      EntriesConserve(p, kind, labels, l, Translate(p, kind, labels).value);
    } else if |LabelsFor(kind, labels)| <= 32 {
      var i :| 0 <= i < |l| && !Translate1(p, kind, labels, l[i]).Ok?;
      assert l[i] in LabelsFor(kind, labels);
    }
  }

  lemma StandsAllowed(p: Policy, kind: Kind, labels: LabelMap, tag: string, e: Entry)
    requires Stands(p, kind, labels, tag, e)
    ensures e.secret in p.allowed
  {
  }

  lemma EntriesConserve(p: Policy, kind: Kind, labels: LabelMap, l: seq<string>, es: seq<Entry>)
    requires Lists(l, LabelsFor(kind, labels)) && For(kind, labels, l) && |l| == |es| <= 32
    requires forall i :: 0 <= i < |l| ==> Ok(es[i]) == Translate1(p, kind, labels, l[i])
    ensures Conserves(p, kind, labels, es)
  {
    hide Prefix, Translate1, Stands, Less;
    ListingSize(l, LabelsFor(kind, labels));
    forall i | 0 <= i < |l|
      ensures Stands(p, kind, labels, l[i], es[i]) && es[i].secret in p.allowed && l[i] == Prefix(kind) + es[i].name
    {
      Stands1(p, kind, labels, l[i]);
      StandsAllowed(p, kind, labels, l[i], es[i]);
    }
    forall i, j | 0 <= i < j < |es| ensures Less(es[i].name, es[j].name) {
      LessAfterPrefix(Prefix(kind), es[i].name, es[j].name);
    }
    forall tag | tag in LabelsFor(kind, labels) ensures exists i :: 0 <= i < |es| && tag == Prefix(kind) + es[i].name {
      assert tag in l;
    }
  }

  // ---------- Files, grouped by Secret ----------

  datatype Source = Source(secret: string, items: seq<Entry>)

  function OfSecret(es: seq<Entry>, secret: string): (r: seq<Entry>)
    ensures |r| <= |es|
  {
    if es == [] then []
    else
      var n := |es| - 1;
      OfSecret(es[..n], secret) + (if es[n].secret == secret then [es[n]] else [])
  }

  function SecretsOf(es: seq<Entry>): set<string> {
    set e | e in es :: e.secret
  }

  function SourceNames(sources: seq<Source>): (l: seq<string>)
    ensures |l| == |sources| && forall i :: 0 <= i < |l| ==> l[i] == sources[i].secret
  {
    seq(|sources|, i requires 0 <= i < |sources| => sources[i].secret)
  }

  // One source per Secret, in ascending order, holding that Secret's entries.
  ghost predicate Grouped(es: seq<Entry>, sources: seq<Source>) {
    && Lists(SourceNames(sources), SecretsOf(es))
    && forall k :: 0 <= k < |sources| ==> sources[k].items == OfSecret(es, sources[k].secret)
  }

  ghost predicate GroupsBy(m: map<string, seq<Entry>>, es: seq<Entry>) {
    m.Keys == SecretsOf(es) && forall s :: s in m ==> m[s] == OfSecret(es, s)
  }

  lemma GroupNext(m: map<string, seq<Entry>>, es: seq<Entry>, e: Entry)
    requires GroupsBy(m, es)
    ensures var items := if e.secret in m then m[e.secret] else [];
            GroupsBy(m[e.secret := items + [e]], es + [e])
  {
    var all := es + [e];
    assert all[..|es|] == es;
    assert SecretsOf(all) == SecretsOf(es) + {e.secret};
    if e.secret !in m { NoneOf(es, e.secret); }
    forall s ensures OfSecret(all, s) == OfSecret(es, s) + (if e.secret == s then [e] else []) {}
  }

  lemma {:induction false} NoneOf(es: seq<Entry>, secret: string)
    requires secret !in SecretsOf(es)
    ensures OfSecret(es, secret) == []
  {
    if es != [] {
      var n := |es| - 1;
      assert es[n] in es;
      forall e | e in es[..n] ensures e.secret != secret { assert e in es; }
      NoneOf(es[..n], secret);
    }
  }

  // The file references of a label map, grouped by Secret.
  method Collect(p: Policy, labels: LabelMap) returns (r: Result<map<string, seq<Entry>>>)
    ensures Translate(p, File, labels).Err? ==> r == Err(Translate(p, File, labels).error)
    ensures Translate(p, File, labels).Ok? ==> r.Ok? && GroupsBy(r.value, Translate(p, File, labels).value)
  {
    hide Prefix, GroupsBy, NameOf, Less, Earlier;
    var wanted := LabelsFor(File, labels);
    if |wanted| > MAX_REFERENCES { return Err(TooMany); }
    var l := SortedKeys(wanted);
    assert l == Keys(File, labels);
    assert Ascending(l);
    hide TranslateAll, ParseReference, Keys, Lists, Ascending, LabelsFor;
    EmptyTranslates(p, File, labels, l);
    ghost var es: seq<Entry> := [];
    var bySecret: map<string, seq<Entry>> := map[];
    NothingYet(l);
    var seen: set<string> := {};
    for n := 0 to |l|
      invariant For(File, labels, l) && For(File, labels, l[..n])
      invariant TranslateAll(p, File, labels, l[..n]) == Ok(es)
      invariant GroupsBy(bySecret, es)
      invariant Earlier(seen, l, n)
    {
      NextEntry(p, File, labels, l, n, es);
      var name := NameOf(File, l[n]);
      if name == "." || name == ".." || !p.rules.configMapKey(name) { return Err(InvalidName(name)); }
      NotEarlier(labels, l, n, seen);
      if name in seen {
        assert false;  // distinct labels have distinct names
      }
      seen := seen + {name};
      var ref := ParseReference(p, name, labels[l[n]]);
      if ref.Err? { return Err(ref.error); }
      var e := ref.value;
      GroupNext(bySecret, es, e);
      bySecret := bySecret[e.secret := (if e.secret in bySecret then bySecret[e.secret] else []) + [e]];
      es := es + [e];
    }
    assert l[..|l|] == l;
    return Ok(bySecret);
  }

  ghost predicate Earlier(seen: set<string>, l: seq<string>, n: nat) {
    n <= |l| && forall name :: name in seen ==> exists i :: 0 <= i < n && l[i] == Prefix(File) + name
  }

  // Distinct labels have distinct names, so a file name never comes twice.
  lemma NotEarlier(labels: LabelMap, l: seq<string>, n: nat, seen: set<string>)
    requires Ascending(l) && For(File, labels, l) && n < |l| && Earlier(seen, l, n)
    ensures NameOf(File, l[n]) !in seen
    ensures Earlier(seen + {NameOf(File, l[n])}, l, n + 1)
  {
    hide Prefix, Less;
    var name := NameOf(File, l[n]);
    assert l[n] == Prefix(File) + name;
    if name in seen {
      var i :| 0 <= i < n && l[i] == Prefix(File) + name;
      LessTotal(l[i], l[n]);
    }
  }

  lemma NothingYet(l: seq<string>)
    ensures GroupsBy(map[], []) && Earlier({}, l, 0)
  {
  }

  method Files(p: Policy, labels: LabelMap) returns (r: Result<seq<Source>>)
    ensures Translate(p, File, labels).Err? ==> r == Err(Translate(p, File, labels).error)
    ensures Translate(p, File, labels).Ok? ==> r.Ok? && Grouped(Translate(p, File, labels).value, r.value)
  {
    hide OfSecret, Translate, SecretsOf;
    var groups := Collect(p, labels);
    if groups.Err? { return Err(groups.error); }
    var bySecret := groups.value;
    ghost var es := Translate(p, File, labels).value;
    var names := SortedKeys(bySecret.Keys);
    var sources: seq<Source> := [];
    for k := 0 to |names|
      invariant SourceNames(sources) == names[..k]
      invariant forall i :: 0 <= i < |sources| ==> sources[i].items == OfSecret(es, sources[i].secret)
    {
      assert names[k] in bySecret.Keys;
      sources := sources + [Source(names[k], bySecret[names[k]])];
      assert SourceNames(sources) == names[..k + 1];
    }
    assert names[..|names|] == names;
    return Ok(sources);
  }

  // ---------- The groups partition the entries ----------

  ghost function Collected(sources: seq<Source>): multiset<Entry> {
    if sources == [] then multiset{}
    else Collected(sources[..|sources| - 1]) + multiset(sources[|sources| - 1].items)
  }

  lemma {:induction false} CountOfSecret(es: seq<Entry>, secret: string, e: Entry)
    ensures multiset(OfSecret(es, secret))[e] == if e.secret == secret then multiset(es)[e] else 0
  {
    if es != [] {
      var n := |es| - 1;
      CountOfSecret(es[..n], secret, e);
      assert es == es[..n] + [es[n]];
    }
  }

  lemma {:induction false} CountCollected(es: seq<Entry>, sources: seq<Source>, e: Entry)
    requires Ascending(SourceNames(sources))
    requires forall k :: 0 <= k < |sources| ==> sources[k].items == OfSecret(es, sources[k].secret)
    ensures Collected(sources)[e] == if e.secret in SourceNames(sources) then multiset(es)[e] else 0
  {
    hide OfSecret, Less;
    if sources != [] {
      var n := |sources| - 1;
      var front := sources[..n];
      var names := SourceNames(sources);
      assert SourceNames(front) == names[..n];
      CountCollected(es, front, e);
      CountOfSecret(es, sources[n].secret, e);
      assert names == names[..n] + [names[n]];
      if e.secret == names[n] && e.secret in names[..n] {
        var i :| 0 <= i < n && names[i] == names[n];
        LessTotal(names[i], names[n]);
      }
    }
  }

  lemma IsOfSecret(es: seq<Entry>, secret: string, i: nat)
    requires i < |OfSecret(es, secret)|
    ensures OfSecret(es, secret)[i] in es
  {
    hide OfSecret;
    var e := OfSecret(es, secret)[i];
    CountOfSecret(es, secret, e);
    assert e in multiset(OfSecret(es, secret));
    assert e in multiset(es);
  }

  // By ascending name.
  ghost predicate Before(a: Entry, b: Entry) { Less(a.name, b.name) }

  // The entries of one Secret keep their order.
  lemma {:induction false} OfSecretAscends(es: seq<Entry>, secret: string)
    requires forall i, j :: 0 <= i < j < |es| ==> Before(es[i], es[j])
    ensures forall i, j :: 0 <= i < j < |OfSecret(es, secret)| ==>
              Before(OfSecret(es, secret)[i], OfSecret(es, secret)[j])
  {
    hide Before;
    if es != [] {
      var n := |es| - 1;
      OfSecretAscends(es[..n], secret);
      var r := OfSecret(es[..n], secret);
      forall i | 0 <= i < |r| ensures Before(r[i], es[n]) { IsOfSecret(es[..n], secret, i); }
    }
  }

  // The projections hold every file reference exactly once, at most 32 in any one
  // of them and by ascending file name, and mention only allowed Secrets.
  lemma FilesPartition(p: Policy, labels: LabelMap, sources: seq<Source>)
    requires Translate(p, File, labels).Ok? && Grouped(Translate(p, File, labels).value, sources)
    ensures Collected(sources) == multiset(Translate(p, File, labels).value)
    ensures forall k :: 0 <= k < |sources| ==>
              && 0 < |sources[k].items| <= 32 && sources[k].secret in p.allowed
              && SourceOrdered(sources[k])
  {
    var es := Translate(p, File, labels).value;
    TranslateIff(p, File, labels);
    ConservedOrder(p, File, labels, es);
    hide Translate, Conserves, OfSecret, Before, SourceOrdered;
    CollectsAll(es, sources);
    forall k | 0 <= k < |sources|
      ensures 0 < |sources[k].items| <= 32 && sources[k].secret in p.allowed && SourceOrdered(sources[k])
    {
      assert sources[k].secret in SourceNames(sources);
      SourceIs(es, sources[k]);
    }
  }

  lemma ConservedOrder(p: Policy, kind: Kind, labels: LabelMap, es: seq<Entry>)
    requires Conserves(p, kind, labels, es)
    ensures |es| <= 32 && (forall e :: e in es ==> e.secret in p.allowed)
    ensures forall i, j :: 0 <= i < j < |es| ==> Before(es[i], es[j])
  {
    hide Stands, LabelsFor, Prefix, Less;
  }

  lemma CollectsAll(es: seq<Entry>, sources: seq<Source>)
    requires Grouped(es, sources)
    ensures Collected(sources) == multiset(es)
  {
    hide OfSecret;
    forall e ensures Collected(sources)[e] == multiset(es)[e] {
      CountCollected(es, sources, e);
      if e in es { assert e.secret in SecretsOf(es); }
      assert multiset(es)[e] > 0 <==> e in es;
    }
  }

  // The items of a source are of its Secret, by ascending file name.
  ghost predicate SourceOrdered(source: Source) {
    && (forall i :: 0 <= i < |source.items| ==> source.items[i].secret == source.secret)
    && forall i, j :: 0 <= i < j < |source.items| ==> Before(source.items[i], source.items[j])
  }

  lemma SourceIs(es: seq<Entry>, source: Source)
    requires forall i, j :: 0 <= i < j < |es| ==> Before(es[i], es[j])
    requires source.items == OfSecret(es, source.secret) && source.secret in SecretsOf(es)
    ensures source.items != [] && SourceOrdered(source) && exists e :: e in es && e.secret == source.secret
  {
    hide OfSecret, Before;
    OfSecretAscends(es, source.secret);
    var e :| e in es && e.secret == source.secret;
    CountOfSecret(es, source.secret, e);
    forall i | 0 <= i < |source.items| ensures source.items[i].secret == source.secret {
      CountOfSecret(es, source.secret, source.items[i]);
      assert source.items[i] in multiset(source.items);
    }
  }

  // ---------- Create and start ----------

  method Validate(p: Policy, labels: LabelMap, existing: seq<string>) returns (r: Result<()>)
    ensures r.Ok? <==> Translate(p, Env(set name | name in existing), labels).Ok? && Translate(p, File, labels).Ok?
  {
    hide Translate;
    var env := EnvVars(p, labels, existing);
    if env.Err? { return Err(env.error); }
    var files := Files(p, labels);
    if files.Err? { return Err(files.error); }
    return Ok(());
  }

  // No sources, no references.
  lemma SourcesEmptyIff(p: Policy, labels: LabelMap, sources: seq<Source>)
    requires Translate(p, File, labels).Ok? && Grouped(Translate(p, File, labels).value, sources)
    ensures sources == [] <==> LabelsFor(File, labels) == {}
  {
    var es := Translate(p, File, labels).value;
    TranslateIff(p, File, labels);
    hide Translate, LabelsFor;
    if sources != [] { assert SourceNames(sources)[0] in SourceNames(sources); }
    if es != [] { assert es[0] in es && es[0].secret in SecretsOf(es); }
  }

  // A container accepted at creation has its references translated at start, with
  // the same labels and allowlist and the same environment names in any order,
  // unless it asks for files and the Pod template has taken the volume's name.
  method CreateThenStart(p: Policy, labels: LabelMap, env: seq<string>, env': seq<string>, volumes: set<string>)
    returns (created: bool, started: bool)
    requires forall name :: name in env <==> name in env'
    ensures started <==> created && (LabelsFor(File, labels) == {} || "testtender-secrets" !in volumes)
  {
    hide Translate, LabelsFor, Grouped;
    var v := Validate(p, labels, env);
    created := v.Ok?;
    assert (set name | name in env) == (set name | name in env');
    var vars := EnvVars(p, labels, env');
    if vars.Err? { return created, false; }
    var files := Files(p, labels);
    if files.Err? { return created, false; }
    SourcesEmptyIff(p, labels, files.value);
    started := |files.value| == 0 || VOLUME_NAME !in volumes;
  }
}
