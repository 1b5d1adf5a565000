/**
 What a container image offers to the wrapper of an exec request: directories and
 the shell's `cd`, and the accounts and groups that user-switching tools look up.
 Paths have no symbolic links in them.
 */
module Posix {
  import opened Basics
  import opened Strings

  type Environment = map<string, string>
  type Path = seq<string>  // the components below the root

  datatype Account = Account(uid: nat, gid: nat)

  // `finds` says whether a PATH leads to a tool. `uids` gives the primary group of
  // every user id that has a passwd entry.
  datatype Image = Image(
    finds: (Option<string>, string) -> bool,
    dirs: set<Path>,
    accounts: map<string, Account>,
    uids: map<nat, nat>,
    groups: map<string, nat>)

  const MAX_ID := 0x7fff_ffff

  // Names of accounts and groups are not numbers and have no colon, ids are in range,
  // and the two views of the passwd file go together.
  ghost predicate ValidImage(image: Image) {
    && (forall name :: name in image.accounts ==>
          && !Numeric(name) && ':' !in name
          && image.accounts[name].uid in image.uids && image.accounts[name].gid <= MAX_ID)
    && (forall uid :: uid in image.uids ==> image.uids[uid] <= MAX_ID)
    && (forall name :: name in image.groups ==> !Numeric(name))
  }

  function Get(env: Environment, name: string): Option<string> {
    if name in env then Some(env[name]) else None
  }

  // ---------- Directories ----------

  function Parent(at: Path): Path { if at == [] then [] else at[..|at| - 1] }

  function Walk(image: Image, at: Path, parts: seq<string>): Option<Path>
    decreases |parts|
  {
    if parts == [] then Some(at)
    else if parts[0] == "" || parts[0] == "." then Walk(image, at, parts[1..])
    else if parts[0] == ".." then Walk(image, Parent(at), parts[1..])
    else if at + [parts[0]] in image.dirs then Walk(image, at + [parts[0]], parts[1..])
    else None
  }

  // The directory a path names, seen from `at`.
  function Locate(image: Image, at: Path, path: string): Option<Path> {
    Walk(image, if path != "" && path[0] == '/' then [] else at, Split(path, '/'))
  }

  predicate Dashed(word: string) { word != "" && word[0] == '-' }

  // ---------- cd ----------

  // The variables that `cd` consults.
  datatype CdVars = CdVars(home: Option<string>, oldpwd: Option<string>, cdpath: Option<string>)

  function CdVarsOf(env: Environment): CdVars {
    CdVars(Get(env, "HOME"), Get(env, "OLDPWD"), Get(env, "CDPATH"))
  }

  // -L, -P, any mix of them, or the end of options: there is no operand then.
  predicate OnlyOptions(word: string) {
    Dashed(word) && |word| > 1 && (word == "--" || forall i :: 0 < i < |word| ==> word[i] == 'L' || word[i] == 'P')
  }

  // Operands that CDPATH applies to.
  predicate Searched(op: string) {
    op != "" && op[0] != '/' && Split(op, '/')[0] != "." && Split(op, '/')[0] != ".."
  }

  function Under(entry: string, op: string): string {
    if entry == "" then "./" + op else if entry[|entry| - 1] == '/' then entry + op else entry + "/" + op
  }

  function Search(image: Image, at: Path, entries: seq<string>, op: string): Option<Path> {
    if entries == [] then None
    else
      match Locate(image, at, Under(entries[0], op))
      case Some(p) => Some(p)
      case None => Search(image, at, entries[1..], op)
  }

  function CdOperand(image: Image, vars: CdVars, at: Path, op: string): Option<Path> {
    if Searched(op) && vars.cdpath.Some? then
      match Search(image, at, Split(vars.cdpath.value, ':'), op)
      case Some(p) => Some(p)
      case None => Locate(image, at, op)
    else Locate(image, at, op)
  }

  // The directory a variable names; an unset or empty one names none.
  function CdVariable(image: Image, vars: CdVars, at: Path, value: Option<string>): Option<Path> {
    if value.None? || value.value == "" then None else CdOperand(image, vars, at, value.value)
  }

  // cd "$word", with no -- before it.
  function Cd(image: Image, vars: CdVars, at: Path, word: string): Option<Path> {
    if word == "-" then CdVariable(image, vars, at, vars.oldpwd)
    else if OnlyOptions(word) then CdVariable(image, vars, at, vars.home)
    else if Dashed(word) then None
    else CdOperand(image, vars, at, word)
  }

  // Entry i is the first one under which the operand exists.
  ghost predicate FirstHit(image: Image, at: Path, entries: seq<string>, op: string, i: int) {
    && 0 <= i < |entries| && Locate(image, at, Under(entries[i], op)).Some?
    && forall j :: 0 <= j < i ==> Locate(image, at, Under(entries[j], op)).None?
  }

  // `cd` leads to the directory that the word names: the word is neither - nor an
  // option, and CDPATH does not come in, or these happen to lead to the same place.
  ghost predicate Straight(image: Image, vars: CdVars, at: Path, word: string) {
    match Locate(image, at, word)
    case None => false
    case Some(want) =>
      if word == "-" then CdVariable(image, vars, at, vars.oldpwd) == Some(want)
      else if Dashed(word) then OnlyOptions(word) && CdVariable(image, vars, at, vars.home) == Some(want)
      else Searched(word) && vars.cdpath.Some? ==>
        forall i :: FirstHit(image, at, Split(vars.cdpath.value, ':'), word, i) ==>
          Locate(image, at, Under(Split(vars.cdpath.value, ':')[i], word)) == Some(want)
  }

  lemma {:induction false} SearchFirst(image: Image, at: Path, entries: seq<string>, op: string)
    ensures Search(image, at, entries, op).None? <==>
              forall i :: 0 <= i < |entries| ==> Locate(image, at, Under(entries[i], op)).None?
    ensures forall i :: FirstHit(image, at, entries, op, i) ==>
              Search(image, at, entries, op) == Locate(image, at, Under(entries[i], op))
    ensures Search(image, at, entries, op).Some? ==> exists i :: FirstHit(image, at, entries, op, i)
  {
    hide Locate, Under;
    if entries != [] {
      var rest := entries[1..];
      SearchFirst(image, at, rest, op);
      assert forall i :: 0 < i < |entries| ==> entries[i] == rest[i - 1];
      if Locate(image, at, Under(entries[0], op)).Some? {
        assert FirstHit(image, at, entries, op, 0);
      } else {
        forall i | FirstHit(image, at, entries, op, i)
          ensures FirstHit(image, at, rest, op, i - 1) && rest[i - 1] == entries[i]
        {
          assert forall j :: 0 <= j < i - 1 ==> rest[j] == entries[j + 1];
        }
        if i :| FirstHit(image, at, rest, op, i) {
          assert entries[i + 1] == rest[i];
          assert FirstHit(image, at, entries, op, i + 1);
        }
      }
    }
  }

  // cd goes where it was told exactly when nothing diverts it.
  lemma StraightIff(image: Image, vars: CdVars, at: Path, word: string)
    ensures Straight(image, vars, at, word) <==>
              Locate(image, at, word).Some? && Cd(image, vars, at, word) == Locate(image, at, word)
  {
    hide Locate, Under, Split, Search, CdVariable, FirstHit;
    if !Dashed(word) && Searched(word) && vars.cdpath.Some? {
      var entries := Split(vars.cdpath.value, ':');
      SearchFirst(image, at, entries, word);
      if i :| FirstHit(image, at, entries, word, i) {
        HitExists(image, at, entries, word, i);
      }
    }
  }

  lemma HitExists(image: Image, at: Path, entries: seq<string>, op: string, i: int)
    requires FirstHit(image, at, entries, op, i)
    ensures 0 <= i < |entries| && Locate(image, at, Under(entries[i], op)).Some?
  {
  }

  // ---------- Accounts ----------

  predicate Numeric(s: string) { s != "" && forall i :: 0 <= i < |s| ==> IsDigit(s[i]) }

  function NumberOf(s: string): Option<nat> {
    if Numeric(s) && Digits(s) <= MAX_ID then Some(Digits(s)) else None
  }

  function Decimal(n: nat): string {
    if n < 10 then [('0' as int + n) as char] else Decimal(n / 10) + [('0' as int + n % 10) as char]
  }

  lemma {:induction false} NumberOfDecimal(n: nat)
    ensures Numeric(Decimal(n)) && Digits(Decimal(n)) == n
  {
    if n < 10 {
      var s := Decimal(n);
      assert s[..0] == [];
      assert Digits(s) == Digits(s[..0]) * 10 + n;
    } else {
      NumberOfDecimal(n / 10);
      var front, s := Decimal(n / 10), Decimal(n);
      assert s[..|s| - 1] == front;
      assert n == n / 10 * 10 + n % 10;
    }
  }

  datatype Identity = Identity(uid: nat, gid: nat)

  // A name with an entry, or a number; a number without an entry has no group of its own.
  function UserOf(image: Image, user: string, fallback: nat): Option<Identity> {
    if user in image.accounts then Some(Identity(image.accounts[user].uid, image.accounts[user].gid))
    else
      match NumberOf(user)
      case None => None
      case Some(n) => Some(Identity(n, if n in image.uids then image.uids[n] else fallback))
  }

  function GroupOf(image: Image, group: string): Option<nat> {
    if group in image.groups then Some(image.groups[group]) else NumberOf(group)
  }

  // A user with a passwd entry.
  predicate Known(image: Image, user: string) {
    var id := UserOf(image, user, 0);
    id.Some? && id.value.uid in image.uids
  }

  function BeforeColon(s: string): string { s[..IndexOf(s, ':')] }

  function AfterColon(s: string): string
    requires ':' in s
  {
    s[IndexOf(s, ':') + 1..]
  }

  // Who <user> or <user>:<group> is.
  function WhoOf(image: Image, user: string, fallback: nat): Option<Identity> {
    match UserOf(image, BeforeColon(user), fallback)
    case None => None
    case Some(id) =>
      if ':' !in user then Some(id)
      else
        match GroupOf(image, AfterColon(user))
        case None => None
        case Some(g) => Some(Identity(id.uid, g))
  }

  lemma ColonSplits(user: string)
    ensures BeforeColon(user) == user <==> ':' !in user
  {
    var k := IndexOf(user, ':');
    if ':' in user {
      assert |BeforeColon(user)| == k < |user|;
    } else {
      assert user[..k] == user;
    }
  }

  // A known user's primary group survives being printed and read back.
  lemma PrimaryGroup(image: Image, user: string)
    requires ValidImage(image) && Known(image, user)
    ensures GroupOf(image, Decimal(UserOf(image, user, 0).value.gid)) == Some(UserOf(image, user, 0).value.gid)
  {
    NumberOfDecimal(UserOf(image, user, 0).value.gid);
  }

  // The fallback shows only in a user without an entry and without a group.
  lemma FallbackIff(image: Image, user: string, fallback: nat)
    requires ValidImage(image)
    ensures WhoOf(image, user, fallback).Some? <==> WhoOf(image, user, 0).Some?
    ensures WhoOf(image, user, 0).Some? ==>
              (WhoOf(image, user, fallback) == WhoOf(image, user, 0) <==>
                 fallback == 0 || ':' in user || Known(image, user))
    ensures Known(image, BeforeColon(user)) ==> WhoOf(image, user, fallback) == WhoOf(image, user, 0)
    ensures user in image.accounts ==> WhoOf(image, user, fallback) == WhoOf(image, user, 0)
  {
    ColonSplits(user);
    hide IndexOf, BeforeColon, AfterColon, NumberOf, Numeric;
  }

  // Names and numbers, with and without a group.
  lemma WhoOfIs(image: Image, u: string, g: string, fallback: nat)
    requires ':' !in u && ':' !in g
    ensures u in image.accounts ==>
              WhoOf(image, u, fallback) == Some(Identity(image.accounts[u].uid, image.accounts[u].gid))
    ensures u !in image.accounts && !Numeric(u) ==> WhoOf(image, u, fallback) == None
    ensures u in image.accounts && g in image.groups ==>
              WhoOf(image, u + ":" + g, fallback) == Some(Identity(image.accounts[u].uid, image.groups[g]))
    ensures u in image.accounts && g !in image.groups && !Numeric(g) ==> WhoOf(image, u + ":" + g, fallback) == None
  {
    var s := u + ":" + g;
    assert forall i :: 0 <= i < |u| ==> s[i] == u[i] && u[i] in u;
    assert s[|u|] == ':';
    IndexOfIs(s, ':', |u|);
    assert s[..|u|] == u && s[|u| + 1..] == g;
    IndexOfIs(u, ':', |u|);
    assert u[..|u|] == u;
    hide IndexOf, Digits;
  }

  // Up, stay, and from the root.
  lemma LocateIs(image: Image, at: Path)
    ensures Locate(image, at, "..") == Some(if at == [] then [] else at[..|at| - 1])
    ensures Locate(image, at, ".") == Some(at) && Locate(image, at, "/") == Some([])
  {
    SplitNone("..", '/');
    SplitNone(".", '/');
    SplitTwo("", "", '/');
    assert "" + ['/'] + "" == "/";
    assert ["", ""][1..] == [""] && [""][1..] == [] && [".."][1..] == [] && ["."][1..] == [];
    hide Split;
    assert Walk(image, [], ["", ""]) == Walk(image, [], [""]);
  }

  // An empty entry of CDPATH is the current directory, and a slash is not doubled.
  lemma UnderIs(entry: string, op: string)
    ensures Under("", op) == "./" + op
    ensures entry != "" && entry[|entry| - 1] != '/' ==> Under(entry, op) == Under(entry + "/", op) == entry + "/" + op
  {
    assert entry + "/" + op == (entry + "/") + op;
  }

  lemma OptionsAre()
    ensures OnlyOptions("--") && OnlyOptions("-L") && OnlyOptions("-P") && OnlyOptions("-LP")
    ensures !OnlyOptions("-") && !OnlyOptions("-e") && !OnlyOptions("L")
  {
    assert "-e"[1] == 'e';
  }
}
