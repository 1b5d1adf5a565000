/**
 Turning arbitrary strings into Kubernetes names (internal/backend/util.go), the
 labels put on every object (internal/backend/deploy.go), and deleting objects by
 those labels (internal/backend/delete.go).
 */
module Labels {
  import opened Basics
  import opened Strings

  // ---------- Sanitising ----------

  const MAX := 63

  // The regular expressions used: a class at the start, anywhere, or at the end.
  datatype Pattern = Leading(p: char -> bool) | Anywhere(keep: char -> bool) | Trailing(p: char -> bool)

  function Replace(v: string, pt: Pattern): string {
    match pt
    case Leading(p) => TrimLeft(v, p)
    case Anywhere(keep) => Filter(v, keep)
    case Trailing(p) => TrimRight(v, p)
  }

  function ReplaceAll(v: string, pts: seq<Pattern>): string {
    if pts == [] then v else Take(Replace(ReplaceAll(v, pts[..|pts| - 1]), pts[|pts| - 1]), MAX)
  }

  method ReplaceValueWithPatterns(v: string, def: string, pts: seq<Pattern>) returns (r: string)
    ensures r == if ReplaceAll(v, pts) == "" then def else ReplaceAll(v, pts)
  {
    r := v;
    for i := 0 to |pts|
      invariant r == ReplaceAll(v, pts[..i])
    {
      assert pts[..i + 1][..i] == pts[..i];
      r := Replace(r, pts[i]);
      if |r| > MAX { r := r[..MAX]; }
    }
    assert pts[..|pts|] == pts;
    if r == "" { r := def; }
  }

  predicate IsKeyChar(c: char) { IsAlnum(c) || c == '-' || c == '.' || c == '/' }
  predicate IsValueChar(c: char) { IsAlnum(c) || c == '-' || c == '.' }
  predicate IsNameChar(c: char) { IsAlnum(c) || c == '-' }
  predicate IsKeyEnd(c: char) { c == '-' || c == '_' || c == '.' || c == '/' }
  predicate IsValueEnd(c: char) { c == '-' || c == '_' || c == '.' }

  function Patterns(keep: char -> bool, end: char -> bool): seq<Pattern> {
    [Leading(NotAlnum), Anywhere(keep), Trailing(end)]
  }

  function ToKey(v: string): string { ReplaceAll(v, Patterns(IsKeyChar, IsKeyEnd)) }
  function ToValue(v: string): string { ReplaceAll(v, Patterns(IsValueChar, IsValueEnd)) }
  function ToName(v: string): string {
    var r := ReplaceAll(v, Patterns(IsNameChar, IsValueEnd));
    if r == "" then "undef" else r
  }

  // At most 63 permitted characters, beginning and ending in a letter or digit.
  ghost predicate IsClean(s: string, keep: char -> bool) {
    |s| <= MAX && AllOf(s, keep) && (s != "" ==> IsAlnum(s[0]) && IsAlnum(s[|s| - 1]))
  }

  // The classes fit together: what may stay but not end a string is no letter or
  // digit, and letters and digits may stay.
  ghost predicate Fits(keep: char -> bool, end: char -> bool) {
    forall c :: (IsAlnum(c) ==> keep(c) && !end(c)) && (keep(c) && !IsAlnum(c) ==> end(c))
  }

  lemma ThreeSteps(v: string, keep: char -> bool, end: char -> bool)
    ensures ReplaceAll(v, Patterns(keep, end)) ==
            Take(TrimRight(Take(Filter(Take(TrimLeft(v, NotAlnum), MAX), keep), MAX), end), MAX)
  {
    var pts := Patterns(keep, end);
    assert pts[..2][..1] == pts[..1] && pts[..1][..0] == [];
    assert ReplaceAll(v, pts[..1]) == Take(TrimLeft(v, NotAlnum), MAX);
    assert ReplaceAll(v, pts[..2]) == Take(Filter(ReplaceAll(v, pts[..1]), keep), MAX);
  }

  lemma FilterFirst(s: string, keep: char -> bool)
    requires s != "" && keep(s[0])
    ensures Filter(s, keep) != "" && Filter(s, keep)[0] == s[0]
  {
  }

  // Every result is clean, whatever the input.
  lemma ReplacedIsClean(v: string, keep: char -> bool, end: char -> bool)
    requires Fits(keep, end)
    ensures IsClean(ReplaceAll(v, Patterns(keep, end)), keep)
  {
    ThreeSteps(v, keep, end);
    hide ReplaceAll, TrimLeft, TrimRight, Filter;
    var a := Take(TrimLeft(v, NotAlnum), MAX);
    var b := Take(Filter(a, keep), MAX);
    var c := TrimRight(b, end);
    if a != "" {
      FilterFirst(a, keep);
    }
    assert forall i :: 0 <= i < |c| ==> c[i] == b[i];
  }

  lemma TrimsNothing(s: string, keep: char -> bool, end: char -> bool)
    requires IsClean(s, keep) && Fits(keep, end)
    ensures TrimLeft(s, NotAlnum) == s && Filter(s, keep) == s && TrimRight(s, end) == s
  {
    FilterAll(s, keep);
  }

  // A string is left alone exactly when it is clean; so sanitising is idempotent.
  lemma FixedIffClean(v: string, keep: char -> bool, end: char -> bool)
    requires Fits(keep, end)
    ensures ReplaceAll(v, Patterns(keep, end)) == v <==> IsClean(v, keep)
    ensures var r := ReplaceAll(v, Patterns(keep, end)); ReplaceAll(r, Patterns(keep, end)) == r
  {
    hide IsClean, ReplaceAll;
    ReplacedIsClean(v, keep, end);
    var r := ReplaceAll(v, Patterns(keep, end));
    CleanIsFixed(r, keep, end);
    if IsClean(v, keep) { CleanIsFixed(v, keep, end); }
  }

  lemma CleanIsFixed(v: string, keep: char -> bool, end: char -> bool)
    requires Fits(keep, end) && IsClean(v, keep)
    ensures ReplaceAll(v, Patterns(keep, end)) == v
  {
    ThreeSteps(v, keep, end);
    TrimsNothing(v, keep, end);
  }

  lemma ClassesFit()
    ensures Fits(IsKeyChar, IsKeyEnd) && Fits(IsValueChar, IsValueEnd) && Fits(IsNameChar, IsValueEnd)
  {
  }

  // The three sanitisers of the backend.
  lemma Sanitisers(v: string)
    ensures IsClean(ToKey(v), IsKeyChar) && (ToKey(v) == v <==> IsClean(v, IsKeyChar))
    ensures IsClean(ToValue(v), IsValueChar) && (ToValue(v) == v <==> IsClean(v, IsValueChar))
    ensures IsClean(ToName(v), IsNameChar) && ToName(v) != ""
  {
    ClassesFit();
    assert IsClean("undef", IsNameChar);
    hide Fits, IsClean, ReplaceAll;
    ReplacedIsClean(v, IsKeyChar, IsKeyEnd);
    FixedIffClean(v, IsKeyChar, IsKeyEnd);
    ReplacedIsClean(v, IsValueChar, IsValueEnd);
    FixedIffClean(v, IsValueChar, IsValueEnd);
    ReplacedIsClean(v, IsNameChar, IsValueEnd);
  }

  // ---------- The labels of an object ----------

  type LabelMap = map<string, string>

  const MANAGED := "testtender.io/managed"
  const INSTANCE := "testtender.io/instance-id"
  const CONTAINER := "testtender.io/container-id"

  // A user label that cannot be expressed is dropped.
  predicate Expressible(k: string, v: string) {
    !(ToKey(k) == "" && k != "") && !(ToValue(v) == "" && v != "")
  }

  predicate IsSystemKey(k: string) { k == MANAGED || k == INSTANCE || k == CONTAINER }

  // Two user keys can sanitise onto one label, in which case the map's iteration
  // order picks the value; everything else is determined.
  ghost predicate UserLabels(labels: LabelMap, base: LabelMap, user: LabelMap, done: set<string>) {
    && done <= user.Keys
    && (forall k :: k in labels <==> k in base || exists u :: u in done && Expressible(u, user[u]) && ToKey(u) == k)
    && (forall k :: k in labels ==>
          (exists u :: u in done && Expressible(u, user[u]) && ToKey(u) == k && labels[k] == ToValue(user[u]))
          || (k in base && labels[k] == base[k] && !exists u :: u in done && Expressible(u, user[u]) && ToKey(u) == k))
  }

  function WithSystem(rest: LabelMap, instance: string, shortID: string): LabelMap {
    rest[MANAGED := "true"][INSTANCE := instance][CONTAINER := shortID]
  }

  ghost predicate LabelsOf(labels: LabelMap, template: LabelMap, defaults: LabelMap, user: LabelMap,
                           instance: string, shortID: string)
  {
    && MANAGED in labels && labels[MANAGED] == "true"
    && INSTANCE in labels && labels[INSTANCE] == instance
    && CONTAINER in labels && labels[CONTAINER] == shortID
    && exists rest: LabelMap ::
         UserLabels(rest, template + defaults, user, user.Keys) && labels == WithSystem(rest, instance, shortID)
  }

  lemma AddUserLabel(labels: LabelMap, base: LabelMap, user: LabelMap, done: set<string>, k: string)
    requires UserLabels(labels, base, user, done) && k in user && k !in done
    ensures !Expressible(k, user[k]) ==> UserLabels(labels, base, user, done + {k})
    ensures Expressible(k, user[k]) ==> UserLabels(labels[ToKey(k) := ToValue(user[k])], base, user, done + {k})
  {
    hide Expressible, ToKey, ToValue;
  }

  method GetLabels(template: LabelMap, defaults: LabelMap, user: LabelMap, instance: string, shortID: string)
    returns (labels: LabelMap)
    ensures LabelsOf(labels, template, defaults, user, instance, shortID)
  {
    hide ToKey, ToValue;
    labels := template + defaults;
    var todo := user.Keys;
    ghost var done: set<string> := {};
    while todo != {}
      invariant todo + done == user.Keys && todo !! done
      invariant UserLabels(labels, template + defaults, user, done)
      decreases todo
    {
      var k :| k in todo;
      AddUserLabel(labels, template + defaults, user, done, k);
      todo := todo - {k};
      done := done + {k};
      if !Expressible(k, user[k]) { continue; }
      labels := labels[ToKey(k) := ToValue(user[k])];
    }
    assert done == user.Keys;
    RestIsLabels(labels, template, defaults, user, instance, shortID);
    labels := labels[MANAGED := "true"];
    labels := labels[INSTANCE := instance];
    labels := labels[CONTAINER := shortID];
  }

  // The iteration order of the user's labels does not show: keys that sanitise onto
  // the same label, other than a system label, have values that sanitise alike.
  ghost predicate Orderless(user: LabelMap) {
    forall u, w ::
      u in user && w in user && Collide(user, u, w) ==> ToValue(user[u]) == ToValue(user[w])
  }

  predicate Collide(user: LabelMap, u: string, w: string)
    requires u in user && w in user
  {
    && Expressible(u, user[u]) && Expressible(w, user[w])
    && ToKey(u) == ToKey(w) && !IsSystemKey(ToKey(u))
  }

  lemma SameRest(a: LabelMap, b: LabelMap, base: LabelMap, user: LabelMap, k: string)
    requires UserLabels(a, base, user, user.Keys) && UserLabels(b, base, user, user.Keys)
    requires Orderless(user) && !IsSystemKey(k)
    ensures k in a <==> k in b
    ensures k in a ==> a[k] == b[k]
  {
    hide Expressible, ToKey, ToValue, IsSystemKey;
  }

  // Some run of the loop gives label ToKey(u) the value of user label u.
  lemma Attainable(base: LabelMap, user: LabelMap, u: string) returns (rest: LabelMap)
    requires u in user && Expressible(u, user[u])
    ensures UserLabels(rest, base, user, user.Keys) && ToKey(u) in rest && rest[ToKey(u)] == ToValue(user[u])
  {
    hide Expressible, ToKey, ToValue;
    rest := base;
    var todo, done: set<string> := user.Keys - {u}, {};
    while todo != {}
      invariant todo + done == user.Keys - {u} && todo !! done && u !in done
      invariant UserLabels(rest, base, user, done)
      decreases todo
    {
      var k :| k in todo;
      AddUserLabel(rest, base, user, done, k);
      todo, done := todo - {k}, done + {k};
      if Expressible(k, user[k]) { rest := rest[ToKey(k) := ToValue(user[k])]; }
    }
    AddUserLabel(rest, base, user, done, u);
    assert done + {u} == user.Keys;
    rest := rest[ToKey(u) := ToValue(user[u])];
  }

  lemma SystemKeysDiffer()
    ensures MANAGED != INSTANCE && INSTANCE != CONTAINER && MANAGED != CONTAINER
  {
    assert MANAGED[14] == 'm' && INSTANCE[14] == 'i' && CONTAINER[14] == 'c';
  }

  lemma RestIsLabels(rest: LabelMap, template: LabelMap, defaults: LabelMap, user: LabelMap,
                     instance: string, shortID: string)
    requires UserLabels(rest, template + defaults, user, user.Keys)
    ensures LabelsOf(WithSystem(rest, instance, shortID), template, defaults, user, instance, shortID)
    ensures forall k :: !IsSystemKey(k) ==>
              (k in WithSystem(rest, instance, shortID) <==> k in rest)
              && (k in rest ==> WithSystem(rest, instance, shortID)[k] == rest[k])
  {
    hide UserLabels;
    SystemKeysDiffer();
  }

  // The labels are the same for every iteration order exactly when the user's
  // labels are orderless.
  lemma DeterminedIff(template: LabelMap, defaults: LabelMap, user: LabelMap, instance: string, shortID: string)
    ensures (forall a: LabelMap, b: LabelMap ::
               (LabelsOf(a, template, defaults, user, instance, shortID) &&
                LabelsOf(b, template, defaults, user, instance, shortID)) ==> a == b)
        <==> Orderless(user)
  {
    var base := template + defaults;
    if Orderless(user) {
      forall a: LabelMap, b: LabelMap
        | && LabelsOf(a, template, defaults, user, instance, shortID)
          && LabelsOf(b, template, defaults, user, instance, shortID)
        ensures a == b
      {
        Determined(a, b, template, defaults, user, instance, shortID);
      }
    } else {
      var u, w :| u in user && w in user && Collide(user, u, w) && ToValue(user[u]) != ToValue(user[w]);
      hide Expressible, ToKey, ToValue, UserLabels, LabelsOf, IsSystemKey, WithSystem;
      var a := Attainable(base, user, u);
      var b := Attainable(base, user, w);
      RestIsLabels(a, template, defaults, user, instance, shortID);
      RestIsLabels(b, template, defaults, user, instance, shortID);
      assert WithSystem(a, instance, shortID)[ToKey(u)] != WithSystem(b, instance, shortID)[ToKey(u)];
    }
  }

  lemma Determined(a: LabelMap, b: LabelMap, template: LabelMap, defaults: LabelMap, user: LabelMap,
                   instance: string, shortID: string)
    requires Orderless(user)
    requires LabelsOf(a, template, defaults, user, instance, shortID)
    requires LabelsOf(b, template, defaults, user, instance, shortID)
    ensures a == b
  {
    hide Expressible, ToKey, ToValue, UserLabels, Orderless;
    var base := template + defaults;
    var ra: LabelMap :| UserLabels(ra, base, user, user.Keys) && a == WithSystem(ra, instance, shortID);
    var rb: LabelMap :| UserLabels(rb, base, user, user.Keys) && b == WithSystem(rb, instance, shortID);
    forall k ensures (k in a <==> k in b) && (k in a ==> a[k] == b[k]) {
      if !IsSystemKey(k) { SameRest(ra, rb, base, user, k); }
    }
  }

  // Two user labels that fall together: either value can end up on the object.
  lemma CollidingLabels(template: LabelMap, defaults: LabelMap, instance: string, shortID: string)
    ensures var user := map["a" := "1", "a_" := "2"];
            && !Orderless(user)
            && exists a: LabelMap, b: LabelMap ::
                 && LabelsOf(a, template, defaults, user, instance, shortID)
                 && LabelsOf(b, template, defaults, user, instance, shortID) && a != b
  {
    var user := map["a" := "1", "a_" := "2"];
    CollidingKeys();
    assert Collide(user, "a", "a_") by { hide ReplaceAll; }
    hide ToKey, ToValue, Collide, LabelsOf;
    assert !Orderless(user);
    DeterminedIff(template, defaults, user, instance, shortID);
  }

  lemma CollidingKeys()
    ensures ToKey("a") == "a" && ToKey("a_") == "a" && !IsSystemKey("a")
    ensures ToValue("1") == "1" && ToValue("2") == "2"
  {
    hide Fits, ReplaceAll, Patterns, IsSystemKey, IsClean;
    ClassesFit();
    OneChar('a', IsKeyChar, IsKeyEnd);
    OneChar('1', IsValueChar, IsValueEnd);
    OneChar('2', IsValueChar, IsValueEnd);
    UnderscoreGoes();
    ShortKeys("a");
  }

  lemma OneChar(c: char, keep: char -> bool, end: char -> bool)
    requires Fits(keep, end) && IsAlnum(c)
    ensures ReplaceAll([c], Patterns(keep, end)) == [c]
  {
    hide ReplaceAll, Patterns;
    CleanIsFixed([c], keep, end);
  }

  lemma ShortKeys(k: string)
    requires |k| == 1
    ensures !IsSystemKey(k)
  {
    assert |MANAGED| > 1 && |INSTANCE| > 1 && |CONTAINER| > 1;
  }

  lemma UnderscoreGoes()
    ensures ReplaceAll("a_", Patterns(IsKeyChar, IsKeyEnd)) == "a"
  {
    ThreeSteps("a_", IsKeyChar, IsKeyEnd);
    hide ReplaceAll, Patterns;
    assert TrimLeft("a_", NotAlnum) == "a_";
    assert Filter("a_", IsKeyChar) == "a" by {
      hide TrimLeft, TrimRight;
      assert "a_"[1..] == "_" && "_"[1..] == "";
    }
    hide Filter, TrimLeft;
    assert TrimRight("a", IsKeyEnd) == "a";
  }

  lemma NamelessIs(v: string)
    requires AllOf(v, NotAlnum)
    ensures ToName(v) == "undef" && ToKey(v) == "" && ToValue(v) == ""
  {
    ThreeSteps(v, IsKeyChar, IsKeyEnd);
    ThreeSteps(v, IsValueChar, IsValueEnd);
    ThreeSteps(v, IsNameChar, IsValueEnd);
    hide ReplaceAll, Patterns;
    assert TrimLeft(v, NotAlnum) == "" by { NothingLeft(v); }
    hide TrimLeft;
  }

  lemma {:induction false} NothingLeft(v: string)
    requires AllOf(v, NotAlnum)
    ensures TrimLeft(v, NotAlnum) == ""
  {
    if v != "" {
      assert NotAlnum(v[0]) && AllOf(v[1..], NotAlnum);
      NothingLeft(v[1..]);
    }
  }

  // The character classes, spelled out.
  lemma ClassesAre()
    ensures forall c :: IsAlnum(c) <==> ('a' <= c <= 'z') || ('A' <= c <= 'Z') || ('0' <= c <= '9')
    ensures forall c :: IsKeyChar(c) <==> IsAlnum(c) || c in "-./"
    ensures forall c :: IsValueChar(c) <==> IsAlnum(c) || c in "-."
    ensures forall c :: IsNameChar(c) <==> IsAlnum(c) || c in "-"
  {
    assert "-./"[0] == '-' && "-./"[1] == '.' && "-./"[2] == '/';
    assert "-."[0] == '-' && "-."[1] == '.' && "-"[0] == '-';
  }

  // A string of at most 63 characters that begins and ends in a letter or digit loses
  // exactly what is not permitted; one of letters and digits is cut to 63.
  lemma Sanitised(v: string, keep: char -> bool, end: char -> bool)
    requires Fits(keep, end) && v != ""
    ensures |v| <= 63 && IsAlnum(v[0]) && IsAlnum(v[|v| - 1]) ==> ReplaceAll(v, Patterns(keep, end)) == Filter(v, keep)
    ensures AllOf(v, IsAlnum) ==> ReplaceAll(v, Patterns(keep, end)) == if |v| > 63 then v[..63] else v
  {
    ThreeSteps(v, keep, end);
    hide ReplaceAll, Patterns;
    if IsAlnum(v[0]) {
      assert TrimLeft(v, NotAlnum) == v;
      if |v| <= 63 && IsAlnum(v[|v| - 1]) { LastKept(v, keep, end); }
      if AllOf(v, IsAlnum) {
        var cut := if |v| > 63 then v[..63] else v;
        assert AllOf(cut, IsAlnum) && AllOf(cut, keep) && cut[|cut| - 1] in cut;
        FilterAll(cut, keep);
        hide Filter;
        assert TrimRight(cut, end) == cut;
      }
    }
  }

  lemma LastKept(v: string, keep: char -> bool, end: char -> bool)
    requires Fits(keep, end) && v != "" && IsAlnum(v[|v| - 1])
    ensures TrimRight(Filter(v, keep), end) == Filter(v, keep)
  {
    var n := |v| - 1;
    FilterConcat(v[..n], [v[n]], keep);
    FilterOne(v[n], keep);
    assert v == v[..n] + [v[n]];
  }

  // Which label a key has: the system's, else a user label that sanitises to it, else the
  // default, else the template's; and no others.
  lemma LabelIs(labels: LabelMap, template: LabelMap, defaults: LabelMap, user: LabelMap,
                instance: string, shortID: string, k: string)
    requires LabelsOf(labels, template, defaults, user, instance, shortID)
    ensures Selects(labels, "testtender.io/managed", "true")
    ensures Selects(labels, "testtender.io/instance-id", instance)
    ensures Selects(labels, "testtender.io/container-id", shortID)
    ensures !IsSystemKey(k) && (exists u :: u in user && Shows(u, user[u], k)) ==>
              k in labels && exists u :: u in user && Shows(u, user[u], k) && labels[k] == ToValue(user[u])
    ensures !IsSystemKey(k) && !(exists u :: u in user && Shows(u, user[u], k)) ==>
              Get(labels, k) == if k in defaults then Some(defaults[k]) else Get(template, k)
  {
    hide ToKey, ToValue;
    var base := template + defaults;
    var rest: LabelMap :| UserLabels(rest, base, user, user.Keys) && labels == WithSystem(rest, instance, shortID);
    RestIsLabels(rest, template, defaults, user, instance, shortID);
    assert forall u :: u in user ==> (Shows(u, user[u], k) <==> Expressible(u, user[u]) && ToKey(u) == k);
    hide Shows, Expressible, LabelsOf, WithSystem;
  }

  function Get(m: LabelMap, k: string): Option<string> { if k in m then Some(m[k]) else None }

  // User label u with value v becomes label k: it does unless sanitising leaves nothing of
  // a key or value that was not empty.
  predicate Shows(u: string, v: string, k: string) {
    ToKey(u) == k && (k == "" ==> u == "") && (ToValue(v) == "" ==> v == "")
  }

  // ---------- Deleting by label ----------

  datatype Kind = Pods | Services | ConfigMaps

  // Objects of one namespace, by kind and name.
  datatype Key = Key(kind: Kind, name: string)

  datatype Owner = Owner(instance: string, shortID: string)

  predicate Selects(labels: LabelMap, key: string, value: string) {
    key in labels && labels[key] == value
  }

  type Objects = map<Key, LabelMap>

  // Objects only went away, and took their owners with them.
  ghost predicate Smaller(objects: Objects, owners: map<Key, Owner>, before: Objects, owned: map<Key, Owner>) {
    && objects.Keys <= before.Keys && (forall k :: k in objects ==> objects[k] == before[k])
    && owners.Keys == owned.Keys * objects.Keys && (forall k :: k in owners ==> owners[k] == owned[k])
  }

  lemma OneLess(objects: Objects, owners: map<Key, Owner>, before: Objects, owned: map<Key, Owner>, k: Key)
    requires Smaller(objects, owners, before, owned) && k in objects
    ensures Smaller(objects - {k}, owners - {k}, before, owned)
  {
  }

  function Matching(objects: Objects, kind: Kind, key: string, value: string): set<Key> {
    set k | k in objects && k.kind == kind && Selects(objects[k], key, value)
  }

  lemma OneMatchLess(objects: Objects, kind: Kind, key: string, value: string, k: Key)
    ensures Matching(objects - {k}, kind, key, value) == Matching(objects, kind, key, value) - {k}
  {
  }

  lemma MatchStored(objects: Objects, kind: Kind, key: string, value: string)
    ensures Matching(objects, kind, key, value) <= objects.Keys
  {
  }

  class Cluster {
    var objects: Objects
    // Which container an object was made for; other objects have no owner.
    ghost var owners: map<Key, Owner>

    // Owned objects carry their owner's labels; others carry no system label.
    ghost predicate Valid()
      reads this
    {
      && owners.Keys <= objects.Keys
      && (forall k :: k in owners ==> LabelledFor(objects[k], owners[k]))
      && (forall k :: k in objects && k !in owners ==> forall l :: IsSystemKey(l) ==> l !in objects[k])
    }

    ghost predicate LabelledFor(labels: LabelMap, o: Owner) {
      && Selects(labels, MANAGED, "true") && Selects(labels, INSTANCE, o.instance)
      && Selects(labels, CONTAINER, o.shortID)
    }

    // Creates a Pod, Service or ConfigMap for a container, whatever its labels and
    // the template's say.
    method Create(kind: Kind, name: string, template: LabelMap, defaults: LabelMap, user: LabelMap,
                  instance: string, shortID: string) returns (created: bool)
      requires Valid()
      modifies this
      ensures Valid()
      ensures created <==> Key(kind, name) !in old(objects)
      ensures !created ==> objects == old(objects) && owners == old(owners)
      ensures created ==> objects.Keys == old(objects).Keys + {Key(kind, name)}
                          && owners == old(owners)[Key(kind, name) := Owner(instance, shortID)]
    {
      var k := Key(kind, name);
      if k in objects { return false; }
      var labels := GetLabels(template, defaults, user, instance, shortID);
      objects := objects[k := labels];
      owners := owners[k := Owner(instance, shortID)];
      return true;
    }

    // One API call, which may fail.
    method DeleteObject(k: Key) returns (ok: bool)
      requires Valid() && k in objects
      modifies this
      ensures Valid()
      ensures ok ==> objects == old(objects) - {k} && owners == old(owners) - {k}
      ensures !ok ==> objects == old(objects) && owners == old(owners)
    {
      ok := *;
      if ok {
        objects := objects - {k};
        owners := owners - {k};
      }
    }

    // Lists the objects of a kind that match, then deletes them one by one and
    // gives up at the first failure.
    method DeleteKind(kind: Kind, key: string, value: string) returns (ok: bool)
      requires Valid()
      modifies this
      ensures Valid() && Smaller(objects, owners, old(objects), old(owners))
      ensures forall k :: k in old(objects) && k !in objects ==> k.kind == kind && Selects(old(objects)[k], key, value)
      ensures ok ==> forall k :: k in objects && k.kind == kind ==> !Selects(objects[k], key, value)
    {
      var listed: bool := *;
      if !listed { return false; }
      var todo := Matching(objects, kind, key, value);
      ghost var all := todo;
      while todo != {}
        invariant Valid() && Smaller(objects, owners, old(objects), old(owners))
        invariant todo == Matching(objects, kind, key, value) <= all
        invariant forall k :: k in old(objects) && k !in objects ==> k in all
        decreases todo
      {
        hide Valid, Matching, Smaller;
        var k :| k in todo;
        MatchStored(objects, kind, key, value);
        OneLess(objects, owners, old(objects), old(owners), k);
        OneMatchLess(objects, kind, key, value, k);
        ok := DeleteObject(k);
        if !ok { return false; }
        todo := todo - {k};
      }
      forall k | k in objects && k.kind == kind ensures !Selects(objects[k], key, value) {
        assert k !in Matching(objects, kind, key, value);
      }
      return true;
    }

    // The three kinds are tried whatever happens to the others.
    method DeleteSelected(key: string, value: string) returns (ok: bool)
      requires Valid()
      modifies this
      ensures Valid() && Smaller(objects, owners, old(objects), old(owners))
      ensures forall k :: k in old(objects) && k !in objects ==> Selects(old(objects)[k], key, value)
      ensures ok ==> forall k :: k in objects ==> !Selects(objects[k], key, value)
    {
      var s := DeleteKind(Services, key, value);
      var c := DeleteKind(ConfigMaps, key, value);
      var p := DeleteKind(Pods, key, value);
      return s && c && p;
    }

    // Removes objects of this container only, and all of them unless a call fails.
    method DeleteContainer(shortID: string) returns (ok: bool)
      requires Valid()
      modifies this
      ensures Valid() && Smaller(objects, owners, old(objects), old(owners))
      ensures forall k :: k in old(objects) && k !in objects ==> k in old(owners) && old(owners)[k].shortID == shortID
      ensures ok ==> forall k :: k in old(objects) ==>
                (k in objects <==> !(k in old(owners) && old(owners)[k].shortID == shortID))
    {
      ok := DeleteSelected(CONTAINER, shortID);
    }

    method DeleteWithInstanceID(id: string) returns (ok: bool)
      requires Valid()
      modifies this
      ensures Valid() && Smaller(objects, owners, old(objects), old(owners))
      ensures forall k :: k in old(objects) && k !in objects ==> k in old(owners) && old(owners)[k].instance == id
      ensures ok ==> forall k :: k in old(objects) ==>
                (k in objects <==> !(k in old(owners) && old(owners)[k].instance == id))
    {
      ok := DeleteSelected(INSTANCE, id);
    }

    method DeleteAll() returns (ok: bool)
      requires Valid()
      modifies this
      ensures Valid() && Smaller(objects, owners, old(objects), old(owners))
      ensures forall k :: k in old(objects) && k !in objects ==> k in old(owners)
      ensures ok ==> forall k :: k in old(objects) ==> (k in objects <==> k !in old(owners))
    {
      ok := DeleteSelected(MANAGED, "true");
    }
  }
}
