/**
 Docker exec on Kubernetes (internal/backend/exec.go). Kubernetes takes only an
 argument vector, so the requested environment, user and working directory are
 wrapped around the command with `env` and a small shell script.

 The model prepares the vector as the code does and gives the programs in it
 their meaning, one exec at a time. The main result says exactly when the chain of
 execs ends in the requested command, in the requested context.
 */
module Exec {
  import opened Basics
  import opened Posix
  import opened Strings

  datatype Request = Request(cmd: seq<string>, env: seq<string>, user: string, workdir: string)

  datatype Error = EmptyCommand | NulInWorkdir | InvalidUser(user: string) | InvalidEntry(entry: string)
  datatype Result<+T> = Ok(value: T) | Err(error: Error)

  // ---------- Validation ----------

  predicate UserStart(c: char) { IsAlnum(c) || c == '_' }
  predicate UserRest(c: char) { IsAlnum(c) || c == '_' || c == '.' || c == '-' }
  predicate NameStart(c: char) { IsLower(c) || IsUpper(c) || c == '_' }
  predicate NameRest(c: char) { IsAlnum(c) || c == '_' }

  predicate UserPart(s: string) {
    s != "" && UserStart(s[0]) && forall i :: 0 < i < |s| ==> UserRest(s[i])
  }

  // <user> or <user>:<group>
  predicate ValidUser(s: string) {
    var k := IndexOf(s, ':');
    UserPart(s[..k]) && (k < |s| ==> UserPart(s[k + 1..]))
  }

  predicate ValidName(s: string) {
    s != "" && NameStart(s[0]) && forall i :: 0 < i < |s| ==> NameRest(s[i])
  }

  // <name>=<value>
  predicate ValidEntry(s: string) {
    var k := IndexOf(s, '=');
    k < |s| && ValidName(s[..k]) && '\0' !in s
  }

  ghost predicate Accepted(ex: Request) {
    && ex.cmd != [] && '\0' !in ex.workdir && (ex.user != "" ==> ValidUser(ex.user))
    && forall i :: 0 <= i < |ex.env| ==> ValidEntry(ex.env[i])
  }

  predicate InUserPart(s: string) {
    && s != "" && (('a' <= s[0] <= 'z') || ('A' <= s[0] <= 'Z') || ('0' <= s[0] <= '9') || s[0] == '_')
    && forall i :: 0 < i < |s| ==>
         ('a' <= s[i] <= 'z') || ('A' <= s[i] <= 'Z') || ('0' <= s[i] <= '9') || s[i] in "_.-"
  }

  lemma PartIff(s: string)
    ensures UserPart(s) <==> InUserPart(s)
    ensures UserPart(s) ==> ':' !in s
  {
    assert "_.-"[0] == '_' && "_.-"[1] == '.' && "_.-"[2] == '-';
  }

  lemma ValidUserIff(s: string)
    ensures ValidUser(s) <==>
              InUserPart(s) || exists u, g :: s == u + ":" + g && InUserPart(u) && InUserPart(g)
  {
    hide UserPart, InUserPart, IndexOf;
    var k := IndexOf(s, ':');
    PartIff(s);
    PartIff(s[..k]);
    if k < |s| {
      PartIff(s[k + 1..]);
      CutIn3(s, k, k + 1);
      assert s[k..k + 1] == ":";
    } else {
      assert s[..k] == s;
    }
    if u, g :| s == u + ":" + g && InUserPart(u) && InUserPart(g) {
      PartIff(u);
      PartIff(g);
      CutAt(s, u, ':', g);
    }
  }

  predicate InName(s: string) {
    && s != "" && (('a' <= s[0] <= 'z') || ('A' <= s[0] <= 'Z') || s[0] == '_')
    && forall i :: 0 < i < |s| ==>
         ('a' <= s[i] <= 'z') || ('A' <= s[i] <= 'Z') || ('0' <= s[i] <= '9') || s[i] == '_'
  }

  lemma ValidEntryIff(s: string)
    ensures ValidEntry(s) <==> exists name, value :: s == name + "=" + value && InName(name) && '\0' !in s
  {
    var k := IndexOf(s, '=');
    if ValidEntry(s) {
      CutIn3(s, k, k + 1);
      assert s[k..k + 1] == "=";
      assert s == s[..k] + "=" + s[k + 1..] && InName(s[..k]);
    }
    if name, value :| s == name + "=" + value && InName(name) && '\0' !in s {
      assert '=' !in name;
      CutAt(s, name, '=', value);
    }
  }

  // ---------- The argument vector ----------

  // Stands for the text of the script.
  const SCRIPT := "execContextScript"

  predicate Wrapped(ex: Request) { ex.user != "" || ex.workdir != "" }

  function Inner(ex: Request): seq<string> {
    if Wrapped(ex) then ["/bin/sh", "-c", SCRIPT, "testtender-exec", ex.user, ex.workdir] + ex.cmd else ex.cmd
  }

  function Prepared(ex: Request): seq<string> {
    if ex.env == [] then Inner(ex) else ["env"] + ex.env + Inner(ex)
  }

  method PrepareExecCommand(ex: Request) returns (r: Result<seq<string>>)
    ensures r.Ok? <==> Accepted(ex)
    ensures r.Ok? ==> r.value == Prepared(ex)
    ensures r == Err(EmptyCommand) <==> ex.cmd == []
    ensures r == Err(NulInWorkdir) <==> ex.cmd != [] && '\0' in ex.workdir
    ensures r == Err(InvalidUser(ex.user)) <==>
              ex.cmd != [] && '\0' !in ex.workdir && ex.user != "" && !ValidUser(ex.user)
    ensures r.Err? && r.error.InvalidEntry? ==>
              exists i :: 0 <= i < |ex.env| && ex.env[i] == r.error.entry && !ValidEntry(ex.env[i])
                && forall j :: 0 <= j < i ==> ValidEntry(ex.env[j])
  {
    hide ValidUser, ValidEntry;
    if |ex.cmd| == 0 { return Err(EmptyCommand); }
    if '\0' in ex.workdir { return Err(NulInWorkdir); }
    if ex.user != "" && !ValidUser(ex.user) { return Err(InvalidUser(ex.user)); }
    var cmd := ex.cmd;
    if ex.user != "" || ex.workdir != "" {
      cmd := ["/bin/sh", "-c", SCRIPT, "testtender-exec", ex.user, ex.workdir] + cmd;
    }
    if |ex.env| == 0 { return Ok(cmd); }
    var env: seq<string> := [];
    for n := 0 to |ex.env|
      invariant env == ex.env[..n]
      invariant forall i :: 0 <= i < n ==> ValidEntry(ex.env[i])
    {
      if !ValidEntry(ex.env[n]) { return Err(InvalidEntry(ex.env[n])); }
      env := env + [ex.env[n]];
    }
    assert env == ex.env;
    return Ok(["env"] + env + cmd);
  }

  // ---------- What the programs do ----------

  datatype Context = Context(env: Environment, dir: Path, who: Identity)
  datatype Process = Process(ctx: Context, argv: seq<string>)

  // One exec: the process goes on as another program, or it ends.
  datatype Outcome =
    | Exec(p: Process)
    | Exit(status: int)
    | ListsEnvironment
    | Refused  // the program does not take these arguments
    | TakesOptions  // a word meant as the command is an option to the program

  predicate Finds(image: Image, env: Environment, tool: string) { image.finds(Get(env, "PATH"), tool) }

  // --- env [name=value]... utility [argument]...

  function Operands(argv: seq<string>): (n: nat)
    ensures n <= |argv|
    ensures forall i :: 0 <= i < n ==> '=' in argv[i]
    ensures n < |argv| ==> '=' !in argv[n]
  {
    if argv == [] || '=' !in argv[0] then 0 else 1 + Operands(argv[1..])
  }

  function Export(env: Environment, entry: string): Environment {
    var k := IndexOf(entry, '=');
    if k == |entry| then env else env[entry[..k] := entry[k + 1..]]
  }

  function ExportAll(env: Environment, entries: seq<string>): Environment {
    if entries == [] then env else Export(ExportAll(env, entries[..|entries| - 1]), entries[|entries| - 1])
  }

  // Entry i is the last one for the name, and gives it the value.
  ghost predicate LastEntry(entries: seq<string>, name: string, value: string, i: int) {
    && 0 <= i < |entries| && entries[i] == name + "=" + value
    && forall j, v: string :: i < j < |entries| ==> entries[j] != name + "=" + v
  }

  // The environment, and over it the entries: a name has the value of its last entry, or
  // the one it had before if it has none.
  ghost predicate WithEntries(env: Environment, entries: seq<string>, result: Environment) {
    forall name :: '=' !in name ==>
      && (forall value, i :: LastEntry(entries, name, value, i) ==> Get(result, name) == Some(value))
      && ((forall i, v: string :: 0 <= i < |entries| ==> entries[i] != name + "=" + v) ==>
            Get(result, name) == Get(env, name))
  }

  lemma ExportIs(env: Environment, entry: string, name: string)
    requires '=' !in name
    ensures forall value :: entry == name + "=" + value ==> Get(Export(env, entry), name) == Some(value)
    ensures (forall v: string :: entry != name + "=" + v) ==> Get(Export(env, entry), name) == Get(env, name)
  {
    forall value | entry == name + "=" + value ensures Get(Export(env, entry), name) == Some(value) {
      CutAt(entry, name, '=', value);
    }
    var k := IndexOf(entry, '=');
    if k < |entry| && entry[..k] == name {
      CutIn3(entry, k, k + 1);
      assert entry[k..k + 1] == "=";
      assert entry == name + "=" + entry[k + 1..];
    }
  }

  lemma {:induction false} ExportAllIs(env: Environment, entries: seq<string>, name: string)
    requires '=' !in name
    ensures forall value, i :: LastEntry(entries, name, value, i) ==> Get(ExportAll(env, entries), name) == Some(value)
    ensures (forall i, v: string :: 0 <= i < |entries| ==> entries[i] != name + "=" + v) ==>
              Get(ExportAll(env, entries), name) == Get(env, name)
  {
    hide Export, Get;
    if entries != [] {
      var n := |entries| - 1;
      var front := entries[..n];
      ExportAllIs(env, front, name);
      ExportIs(ExportAll(env, front), entries[n], name);
      forall value, i | LastEntry(entries, name, value, i)
        ensures Get(ExportAll(env, entries), name) == Some(value)
      {
        if i < n {
          assert LastEntry(front, name, value, i);
          assert forall v: string :: entries[n] != name + "=" + v;
        }
      }
    }
  }

  lemma EnvironmentIs(env: Environment, entries: seq<string>)
    ensures WithEntries(env, entries, ExportAll(env, entries))
  {
    hide ExportAll, Get;
    forall name | '=' !in name
      ensures forall value, i :: LastEntry(entries, name, value, i) ==>
                Get(ExportAll(env, entries), name) == Some(value)
      ensures (forall i, v: string :: 0 <= i < |entries| ==> entries[i] != name + "=" + v) ==>
                Get(ExportAll(env, entries), name) == Get(env, name)
    {
      ExportAllIs(env, entries, name);
    }
  }

  function RunEnv(ctx: Context, args: seq<string>): Outcome {
    if args != [] && Dashed(args[0]) then Refused
    else
      var n := Operands(args);
      if n == |args| then ListsEnvironment
      else Exec(Process(ctx.(env := ExportAll(ctx.env, args[..n])), args[n..]))
  }

  // --- /bin/sh -c script name [argument]...

  // An assignment in the shell changes what a later exec passes on exactly when the
  // variable came in from the environment: only those are exported.
  function Assign(env: Environment, name: string, value: string): Environment {
    if name in env then env[name := value] else env
  }

  function Set(ctx: Context, name: string, value: string): Context {
    ctx.(env := Assign(ctx.env, name, value))
  }

  predicate OptionLike(word: string) { Dashed(word) && |word| > 1 }

  // The exec built-in, which drops a leading --.
  function ShellExec(ctx: Context, argv: seq<string>): Outcome {
    if argv == [] || argv == ["--"] then Exit(0)
    else if argv[0] == "--" then Exec(Process(ctx, argv[1..]))
    else if OptionLike(argv[0]) then TakesOptions
    else Exec(Process(ctx, argv))
  }

  function SetPriv(image: Image, ctx: Context, user: string, cmd: seq<string>): Outcome {
    var runUser := BeforeColon(user);
    var ctx := Set(ctx, "run_user", runUser);
    if runUser != user && ':' in user then
      var group := AfterColon(user);
      ShellExec(Set(ctx, "run_group", group), SetPrivArgs(runUser, group) + cmd)
    else if !Known(image, runUser) then Exit(126)
    else
      var group := Decimal(UserOf(image, runUser, 0).value.gid);
      ShellExec(Set(ctx, "run_group", group), SetPrivArgs(runUser, group) + cmd)
  }

  function SetPrivArgs(user: string, group: string): seq<string> {
    ["setpriv", "--reuid", user, "--regid", group, "--init-groups"]
  }

  function SwitchUser(image: Image, ctx: Context, user: string, cmd: seq<string>): Outcome {
    var first := Set(ctx, "helper", "gosu");
    var second := Set(first, "helper", "su-exec");
    if Finds(image, first.env, "gosu") then ShellExec(first, ["gosu", user] + cmd)
    else if Finds(image, second.env, "su-exec") then ShellExec(second, ["su-exec", user] + cmd)
    else if Finds(image, second.env, "setpriv") then SetPriv(image, second, user, cmd)
    else if Finds(image, second.env, "runuser") then ShellExec(second, ["runuser", "-u", user, "--"] + cmd)
    else Exit(126)
  }

  // Where the script is once it has changed directory.
  function Reached(image: Image, ctx: Context, workdir: string): Option<Path> {
    if workdir == "" then Some(ctx.dir) else Cd(image, CdVarsOf(ctx.env), ctx.dir, workdir)
  }

  function RunScript(image: Image, ctx: Context, args: seq<string>): Outcome {
    if |args| < 2 then Refused
    else
      var user, workdir, cmd := args[0], args[1], args[2..];
      var ctx := Set(Set(ctx, "user", user), "workdir", workdir);
      match Reached(image, ctx, workdir)
      case None => Exit(126)
      case Some(d) =>
        var ctx := ctx.(dir := d);
        if user != "" then SwitchUser(image, ctx, user, cmd) else ShellExec(ctx, cmd)
  }

  // --- the user-switching tools

  // Only root can become somebody else.
  function RunAs(ctx: Context, who: Option<Identity>, cmd: seq<string>): Outcome {
    if ctx.who.uid != 0 || who.None? then Refused else Exec(Process(ctx.(who := who.value), cmd))
  }

  // setpriv --reuid <user> --regid <group> --init-groups, which needs a passwd entry.
  function PrivilegesOf(image: Image, user: string, group: string): Option<Identity> {
    if !Known(image, user) || GroupOf(image, group).None? then None
    else Some(Identity(UserOf(image, user, 0).value.uid, GroupOf(image, group).value))
  }

  // setpriv drops a leading -- of the command too, and takes other options.
  function RunPrivileged(ctx: Context, who: Option<Identity>, cmd: seq<string>): Outcome {
    if cmd == [] || cmd == ["--"] then Refused
    else if cmd[0] == "--" then RunAs(ctx, who, cmd[1..])
    else if OptionLike(cmd[0]) then TakesOptions
    else RunAs(ctx, who, cmd)
  }

  // runuser -u <user>: a name with a passwd entry.
  function RunuserOf(image: Image, user: string): Option<Identity> {
    if user in image.accounts then UserOf(image, user, 0) else None
  }

  // One step: the program named by the first word does its work and execs the next.
  function Step(image: Image, p: Process): Outcome {
    var argv := p.argv;
    if argv == [] then Refused
    else if argv[0] == "env" then RunEnv(p.ctx, argv[1..])
    else if argv[0] == "/bin/sh" then
      if |argv| >= 4 && argv[1] == "-c" && argv[2] == SCRIPT then RunScript(image, p.ctx, argv[4..]) else Refused
    else if argv[0] == "gosu" || argv[0] == "su-exec" then
      if |argv| >= 2 then RunAs(p.ctx, WhoOf(image, argv[1], p.ctx.who.gid), argv[2..]) else Refused
    else if argv[0] == "setpriv" then
      if |argv| >= 6 && argv[1] == "--reuid" && argv[3] == "--regid" && argv[5] == "--init-groups"
      then RunPrivileged(p.ctx, PrivilegesOf(image, argv[2], argv[4]), argv[6..]) else Refused
    else if argv[0] == "runuser" then
      if |argv| >= 4 && argv[1] == "-u" && argv[3] == "--"
      then RunAs(p.ctx, RunuserOf(image, argv[2]), argv[4..]) else Refused
    else Refused
  }

  function Steps(image: Image, o: Outcome, n: nat): Outcome
    decreases n
  {
    if n == 0 || !o.Exec? then o else Steps(image, Step(image, o.p), n - 1)
  }

  // ---------- What was asked for ----------

  function Layers(ex: Request): nat {
    (if ex.env != [] then 1 else 0) + (if Wrapped(ex) then 1 else 0) + (if ex.user != "" then 1 else 0)
  }

  // A user id without an entry and without a group is asked for with group 0.
  function RequestedUser(image: Image, ctx: Context, user: string): Option<Identity> {
    if user == "" then Some(ctx.who) else WhoOf(image, user, 0)
  }

  function RequestedDir(image: Image, ctx: Context, workdir: string): Option<Path> {
    if workdir == "" then Some(ctx.dir) else Locate(image, ctx.dir, workdir)
  }

  // The command itself, in the requested context; None when there is no such
  // directory, user or group.
  function Requested(image: Image, ctx: Context, ex: Request): Option<Process> {
    var who, dir := RequestedUser(image, ctx, ex.user), RequestedDir(image, ctx, ex.workdir);
    if who.None? || dir.None? then None
    else Some(Process(Context(ExportAll(ctx.env, ex.env), dir.value, who.value), ex.cmd))
  }

  // ---------- When it is what happens ----------

  // A tool is there that can become the user, and the container runs as root.
  predicate CanSwitch(image: Image, env: Environment, who: Identity, user: string) {
    && who.uid == 0 && WhoOf(image, user, 0).Some?
    && (|| Finds(image, env, "gosu") || Finds(image, env, "su-exec")
        || if Finds(image, env, "setpriv") then Known(image, BeforeColon(user))
           else Finds(image, env, "runuser") && user in image.accounts)
  }

  // gosu and su-exec keep the group of the process for a user that has none.
  predicate GroupSettled(image: Image, who: Identity, user: string) {
    who.gid == 0 || ':' in user || Known(image, user)
  }

  // The last program before the command looks for options: the exec built-in when there
  // is no user, and setpriv. The other helpers take the command as it is.
  predicate Parses(image: Image, env: Environment, user: string) {
    user == "" || (!Finds(image, env, "gosu") && !Finds(image, env, "su-exec") && Finds(image, env, "setpriv"))
  }

  // What is then left of the command to run, if it is known.
  function Words(image: Image, env: Environment, user: string, cmd: seq<string>): Option<seq<string>>
    requires cmd != []
  {
    if !Parses(image, env, user) || !OptionLike(cmd[0]) then Some(cmd)
    else if cmd[0] == "--" && |cmd| > 1 then Some(cmd[1..])
    else None
  }

  // Options come in only so.
  predicate MayTakeOptions(image: Image, env: Environment, user: string, cmd: seq<string>)
    requires cmd != []
  {
    Parses(image, env, user) && OptionLike(cmd[0]) && cmd[0] != "--"
  }

  // The variables the script has assigned when it execs, with their values.
  function ScriptVars(image: Image, env: Environment, user: string, workdir: string): map<string, string> {
    var vars := map["user" := user, "workdir" := workdir];
    if user == "" then vars
    else if Finds(image, env, "gosu") then vars["helper" := "gosu"]
    else
      var vars := vars["helper" := "su-exec"];
      if Finds(image, env, "su-exec") || !Finds(image, env, "setpriv") then vars
      else vars["run_user" := BeforeColon(user)]["run_group" := RunGroup(image, user)]
  }

  function RunGroup(image: Image, user: string): string {
    if ':' in user then AfterColon(user)
    else if UserOf(image, user, 0).Some? then Decimal(UserOf(image, user, 0).value.gid) else ""
  }

  // The environment with the assigned variables in it that it already had.
  function Overlay(env: Environment, vars: map<string, string>): Environment {
    map name | name in env :: if name in vars then vars[name] else env[name]
  }

  ghost predicate Untouched(env: Environment, vars: map<string, string>) {
    forall name :: name in vars && name in env ==> env[name] == vars[name]
  }

  ghost predicate Preserved(image: Image, ctx: Context, ex: Request)
    requires ex.cmd != []
  {
    var env := ExportAll(ctx.env, ex.env);
    if Wrapped(ex) then
      && (ex.workdir != "" ==> Straight(image, CdVarsOf(env), ctx.dir, ex.workdir))
      && (ex.user != "" ==> CanSwitch(image, env, ctx.who, ex.user) && GroupSettled(image, ctx.who, ex.user))
      && (Parses(image, env, ex.user) ==> !OptionLike(ex.cmd[0]))
      && Untouched(env, ScriptVars(image, env, ex.user, ex.workdir))
    else ex.env == [] || '=' !in ex.cmd[0]
  }

  lemma OverlayNone(env: Environment)
    ensures Overlay(env, map[]) == env
  {
  }

  lemma OverlayNext(env: Environment, vars: map<string, string>, name: string, value: string)
    ensures Assign(Overlay(env, vars), name, value) == Overlay(env, vars[name := value])
  {
  }

  lemma OverlayIff(env: Environment, vars: map<string, string>)
    ensures Overlay(env, vars) == env <==> Untouched(env, vars)
  {
    if Overlay(env, vars) == env {
      forall name | name in vars && name in env ensures env[name] == vars[name] {
        assert Overlay(env, vars)[name] == vars[name];
      }
    }
  }

  // PATH is none of the script's variables, so the tools found stay the same.
  lemma OverlayFinds(image: Image, env: Environment, vars: map<string, string>, tool: string)
    requires "PATH" !in vars
    ensures Finds(image, Overlay(env, vars), tool) == Finds(image, env, tool)
  {
    assert Get(Overlay(env, vars), "PATH") == Get(env, "PATH");
  }

  // Nor is any variable that cd consults.
  lemma OverlayCd(env: Environment, user: string, workdir: string)
    ensures CdVarsOf(Overlay(env, map["user" := user, "workdir" := workdir])) == CdVarsOf(env)
  {
    var vars := map["user" := user, "workdir" := workdir];
    assert "HOME" !in vars && "OLDPWD" !in vars && "CDPATH" !in vars;
    assert Get(Overlay(env, vars), "HOME") == Get(env, "HOME");
    assert Get(Overlay(env, vars), "OLDPWD") == Get(env, "OLDPWD");
    assert Get(Overlay(env, vars), "CDPATH") == Get(env, "CDPATH");
  }

  // ---------- The env layer ----------

  lemma {:induction false} OperandsSkip(entries: seq<string>, rest: seq<string>)
    requires forall i :: 0 <= i < |entries| ==> '=' in entries[i]
    ensures Operands(entries + rest) == |entries| + Operands(rest)
  {
    var all := entries + rest;
    if entries == [] {
      assert all == rest;
    } else {
      assert all[0] == entries[0] && all[1..] == entries[1..] + rest;
      OperandsSkip(entries[1..], rest);
    }
  }

  lemma EntryShape(entry: string)
    requires ValidEntry(entry)
    ensures '=' in entry && !Dashed(entry)
  {
    var k := IndexOf(entry, '=');
    assert entry[..k][0] == entry[0];
  }

  lemma EnvStep(image: Image, ctx: Context, args: seq<string>)
    ensures Step(image, Process(ctx, ["env"] + args)) == RunEnv(ctx, args)
  {
    hide RunEnv;
    assert (["env"] + args)[1..] == args;
  }

  lemma EnvLayer(image: Image, ctx: Context, entries: seq<string>, cmd: seq<string>)
    requires entries != [] && cmd != [] && forall i :: 0 <= i < |entries| ==> ValidEntry(entries[i])
    ensures var o := Step(image, Process(ctx, ["env"] + entries + cmd));
            if '=' in cmd[0] then o.Exec? ==> |o.p.argv| < |cmd|
            else o == Exec(Process(ctx.(env := ExportAll(ctx.env, entries)), cmd))
  {
    hide ValidEntry, ExportAll, Step;
    var args := entries + cmd;
    EnvStep(image, ctx, args);
    assert ["env"] + entries + cmd == ["env"] + args;
    forall i | 0 <= i < |entries| ensures '=' in entries[i] && !Dashed(entries[i]) { EntryShape(entries[i]); }
    OperandsSkip(entries, cmd);
    assert args[0] == entries[0];
    if '=' !in cmd[0] {
      assert args[..|entries|] == entries && args[|entries|..] == cmd;
    }
  }

  // ---------- The script layer ----------

  lemma GosuStep(image: Image, ctx: Context, tool: string, user: string, cmd: seq<string>)
    requires tool == "gosu" || tool == "su-exec"
    ensures ShellExec(ctx, [tool, user] + cmd) == Exec(Process(ctx, [tool, user] + cmd))
    ensures Step(image, Process(ctx, [tool, user] + cmd)) ==
              RunAs(ctx, WhoOf(image, user, ctx.who.gid), cmd)
  {
    hide WhoOf;
    assert ([tool, user] + cmd)[2..] == cmd;
  }

  lemma SetPrivStep(image: Image, ctx: Context, user: string, group: string, cmd: seq<string>)
    ensures var argv := SetPrivArgs(user, group) + cmd;
            && ShellExec(ctx, argv) == Exec(Process(ctx, argv))
            && Step(image, Process(ctx, argv)) == RunPrivileged(ctx, PrivilegesOf(image, user, group), cmd)
  {
    hide PrivilegesOf, RunPrivileged;
    var argv := SetPrivArgs(user, group) + cmd;
    assert argv[6..] == cmd;
  }

  lemma RunuserStep(image: Image, ctx: Context, user: string, cmd: seq<string>)
    ensures var argv := ["runuser", "-u", user, "--"] + cmd;
            && ShellExec(ctx, argv) == Exec(Process(ctx, argv))
            && Step(image, Process(ctx, argv)) == RunAs(ctx, RunuserOf(image, user), cmd)
  {
    hide RunuserOf, RunAs;
    assert (["runuser", "-u", user, "--"] + cmd)[4..] == cmd;
  }

  // setpriv becomes the requested user if that user has an entry, and nobody otherwise.
  lemma PrivilegesAre(image: Image, user: string, group: string)
    requires ValidImage(image) && group == RunGroup(image, user)
    ensures Known(image, BeforeColon(user)) ==>
              PrivilegesOf(image, BeforeColon(user), group) == WhoOf(image, user, 0)
    ensures !Known(image, BeforeColon(user)) ==> PrivilegesOf(image, BeforeColon(user), group).None?
  {
    ColonSplits(user);
    hide IndexOf, BeforeColon, AfterColon, Decimal, NumberOf;
    if ':' !in user && Known(image, user) { PrimaryGroup(image, user); }
  }

  lemma RunuserIs(image: Image, user: string)
    requires ValidImage(image)
    ensures RunuserOf(image, user) == if user in image.accounts then WhoOf(image, user, 0) else None
  {
    ColonSplits(user);
    hide IndexOf, BeforeColon, AfterColon, NumberOf, Numeric;
  }

  // What the helper then runs: the words of the command with the assigned variables
  // overlaid, as the user asked for, or nothing; unless the words are options to it.
  ghost predicate Switched(image: Image, ctx: Context, env: Environment, user: string, workdir: string,
                           cmd: seq<string>, o: Outcome)
    requires cmd != []
  {
    var words, who := Words(image, env, user, cmd), WhoOf(image, user, ctx.who.gid);
    && (if CanSwitch(image, env, ctx.who, user) && words.Some? && who.Some?
        then o == Exec(Process(
                         Context(Overlay(env, ScriptVars(image, env, user, workdir)), ctx.dir, who.value), words.value))
        else !o.Exec?)
    && (o.TakesOptions? ==> MayTakeOptions(image, env, user, cmd))
  }

  lemma SetPrivSwitches(image: Image, ctx: Context, env: Environment, user: string, workdir: string, cmd: seq<string>)
    requires ValidImage(image) && cmd != [] && user != ""
    requires !Finds(image, env, "gosu") && !Finds(image, env, "su-exec") && Finds(image, env, "setpriv")
    requires ctx.env == Overlay(env, map["user" := user, "workdir" := workdir]["helper" := "su-exec"])
    ensures Switched(image, ctx, env, user, workdir, cmd, Steps(image, SetPriv(image, ctx, user, cmd), 1))
  {
    hide Finds, Overlay, Assign, Step, ShellExec, SetPrivArgs, ValidImage, WhoOf, PrivilegesOf, Decimal;
    var vars := map["user" := user, "workdir" := workdir]["helper" := "su-exec"];
    ColonSplits(user);
    var runUser, group := BeforeColon(user), RunGroup(image, user);
    hide BeforeColon, AfterColon;
    PrivilegesAre(image, user, group);
    FallbackIff(image, user, ctx.who.gid);
    if ':' in user || Known(image, runUser) {
      OverlayNext(env, vars, "run_user", runUser);
      OverlayNext(env, vars["run_user" := runUser], "run_group", group);
      SetPrivStep(image, Set(Set(ctx, "run_user", runUser), "run_group", group), runUser, group, cmd);
      assert SetPriv(image, ctx, user, cmd) ==
             ShellExec(Set(Set(ctx, "run_user", runUser), "run_group", group), SetPrivArgs(runUser, group) + cmd);
    }
  }

  lemma SwitchRuns(image: Image, ctx: Context, env: Environment, user: string, workdir: string, cmd: seq<string>)
    requires ValidImage(image) && cmd != [] && user != ""
    requires ctx.env == Overlay(env, map["user" := user, "workdir" := workdir])
    ensures Switched(image, ctx, env, user, workdir, cmd, Steps(image, SwitchUser(image, ctx, user, cmd), 1))
  {
    hide Finds, Overlay, Assign, Step, ShellExec, SetPriv, WhoOf, Known, RunuserOf, ValidImage, RunGroup;
    FallbackIff(image, user, ctx.who.gid);
    var vars := map["user" := user, "workdir" := workdir];
    var first, second := Set(ctx, "helper", "gosu"), Set(Set(ctx, "helper", "gosu"), "helper", "su-exec");
    OverlayNext(env, vars, "helper", "gosu");
    OverlayNext(env, vars["helper" := "gosu"], "helper", "su-exec");
    assert vars["helper" := "gosu"]["helper" := "su-exec"] == vars["helper" := "su-exec"];
    OverlayFinds(image, env, vars["helper" := "gosu"], "gosu");
    OverlayFinds(image, env, vars["helper" := "su-exec"], "su-exec");
    OverlayFinds(image, env, vars["helper" := "su-exec"], "setpriv");
    OverlayFinds(image, env, vars["helper" := "su-exec"], "runuser");
    if Finds(image, env, "gosu") {
      GosuStep(image, first, "gosu", user, cmd);
    } else if Finds(image, env, "su-exec") {
      GosuStep(image, second, "su-exec", user, cmd);
    } else if Finds(image, env, "setpriv") {
      SetPrivSwitches(image, second, env, user, workdir, cmd);
    } else if Finds(image, env, "runuser") {
      RunuserStep(image, second, user, cmd);
      RunuserIs(image, user);
    }
  }

  // Whom the script's helper turns the process into.
  function Becomes(image: Image, ctx: Context, user: string): Option<Identity> {
    if user == "" then Some(ctx.who)
    else if CanSwitch(image, ctx.env, ctx.who, user) then WhoOf(image, user, ctx.who.gid) else None
  }

  // The script layer as a whole, and with it the helper's exec: the words of the command
  // run as whom they should, where cd led, with the assigned variables overlaid, or
  // nothing runs; unless the words are options to the last program.
  ghost predicate Ran(image: Image, ctx: Context, ex: Request, o: Outcome)
    requires ex.cmd != []
  {
    var dir, who := Reached(image, ctx, ex.workdir), Becomes(image, ctx, ex.user);
    var words := Words(image, ctx.env, ex.user, ex.cmd);
    var env := Overlay(ctx.env, ScriptVars(image, ctx.env, ex.user, ex.workdir));
    && (if dir.Some? && who.Some? && words.Some?
        then o == Exec(Process(Context(env, dir.value, who.value), words.value)) else !o.Exec?)
    && (o.TakesOptions? ==> MayTakeOptions(image, ctx.env, ex.user, ex.cmd))
  }

  lemma ScriptLayer(image: Image, ctx: Context, ex: Request)
    requires ValidImage(image) && ex.cmd != [] && Wrapped(ex)
    ensures Ran(image, ctx, ex, Steps(image, Step(image, Process(ctx, Inner(ex))), if ex.user == "" then 0 else 1))
  {
    hide Finds, Overlay, Assign, SwitchUser, CdVarsOf, Cd, ValidImage, WhoOf, Known;
    var args := [ex.user, ex.workdir] + ex.cmd;
    assert Step(image, Process(ctx, Inner(ex))) == RunScript(image, ctx, args) by {
      hide RunScript;
      assert Inner(ex)[4..] == args;
    }
    hide Step;
    assert args[2..] == ex.cmd;
    var vars := map["user" := ex.user, "workdir" := ex.workdir];
    OverlayNone(ctx.env);
    OverlayNext(ctx.env, map[], "user", ex.user);
    OverlayNext(ctx.env, map[]["user" := ex.user], "workdir", ex.workdir);
    assert map[]["user" := ex.user]["workdir" := ex.workdir] == vars;
    var inside := Set(Set(ctx, "user", ex.user), "workdir", ex.workdir);
    assert inside.env == Overlay(ctx.env, vars);
    OverlayCd(ctx.env, ex.user, ex.workdir);
    var dir := Reached(image, ctx, ex.workdir);
    assert Reached(image, inside, ex.workdir) == dir;
    if dir.Some? && ex.user != "" {
      SwitchRuns(image, inside.(dir := dir.value), ctx.env, ex.user, ex.workdir, ex.cmd);
    }
  }

  // ---------- The whole chain ----------

  // What is left after one exec per layer.
  function Outcomes(image: Image, ctx: Context, ex: Request): Outcome {
    Steps(image, Exec(Process(ctx, Prepared(ex))), Layers(ex))
  }

  lemma StepsNext(image: Image, p: Process, n: nat)
    requires n > 0
    ensures Steps(image, Exec(p), n) == Steps(image, Step(image, p), n - 1)
  {
    hide Step;
  }

  // The same of the whole chain, entries included.
  lemma ChainRuns(image: Image, ctx: Context, ex: Request)
    requires ValidImage(image) && Accepted(ex) && Wrapped(ex)
    ensures Ran(image, ctx.(env := ExportAll(ctx.env, ex.env)), ex, Outcomes(image, ctx, ex))
  {
    hide Ran, ValidEntry, ValidUser, Step, Steps, ExportAll, ValidImage;
    var cmd := Inner(ex);
    var inner := Process(ctx.(env := ExportAll(ctx.env, ex.env)), cmd);
    var n := if ex.user == "" then 1 else 2;
    if ex.env != [] {
      assert cmd[0] == "/bin/sh" && '=' !in cmd[0];
      EnvLayer(image, ctx, ex.env, cmd);
      StepsNext(image, Process(ctx, Prepared(ex)), n + 1);
    } else {
      NoEntries(ctx.env);
    }
    assert Outcomes(image, ctx, ex) == Steps(image, Exec(inner), n);
    StepsNext(image, inner, n);
    ScriptLayer(image, inner.ctx, ex);
  }

  // Where the script is involved and the first word is no option to the last program,
  // whatever runs is the requested command, and as the requested user, the group of a
  // user without an entry apart. It runs where cd led, with the script's variables overlaid.
  lemma OnlyTheCommandRuns(image: Image, ctx: Context, ex: Request)
    requires ValidImage(image) && Accepted(ex) && Wrapped(ex)
    requires Parses(image, ExportAll(ctx.env, ex.env), ex.user) ==> !OptionLike(ex.cmd[0])
    ensures var env, got := ExportAll(ctx.env, ex.env), Outcomes(image, ctx, ex);
            && !got.TakesOptions?
            && (got.Exec? ==>
                  && got.p.argv == ex.cmd
                  && RequestedUser(image, ctx, ex.user).Some?
                  && got.p.ctx.who.uid == RequestedUser(image, ctx, ex.user).value.uid
                  && (ex.user == "" || GroupSettled(image, ctx.who, ex.user) ==>
                        Some(got.p.ctx.who) == RequestedUser(image, ctx, ex.user))
                  && Some(got.p.ctx.dir) == Reached(image, ctx.(env := env), ex.workdir)
                  && got.p.ctx.env == Overlay(env, ScriptVars(image, env, ex.user, ex.workdir)))
  {
    hide Outcomes, ExportAll, Finds, Reached, ScriptVars, Overlay, ValidImage;
    ChainRuns(image, ctx, ex);
    hide Known;
    if ex.user != "" {
      FallbackIff(image, ex.user, ctx.who.gid);
      SameUid(image, ex.user, ctx.who.gid);
    }
    hide WhoOf;
  }

  lemma SameUid(image: Image, user: string, fallback: nat)
    ensures WhoOf(image, user, fallback).Some? && WhoOf(image, user, 0).Some? ==>
              WhoOf(image, user, fallback).value.uid == WhoOf(image, user, 0).value.uid
  {
    hide IndexOf, BeforeColon, AfterColon, NumberOf;
  }

  lemma NoEntries(env: Environment)
    ensures ExportAll(env, []) == env
  {
  }

  // After one exec per layer the container runs the requested command with exactly
  // the requested environment, directory and user if and only if Preserved holds.
  lemma MeaningPreservedIff(image: Image, ctx: Context, ex: Request)
    requires ValidImage(image) && Accepted(ex)
    ensures var want := Requested(image, ctx, ex);
            (want.Some? && Outcomes(image, ctx, ex) == Exec(want.value)) <==> Preserved(image, ctx, ex)
    ensures Preserved(image, ctx, ex) ==>
              var got := Outcomes(image, ctx, ex);
              got.Exec? && got.p.argv == ex.cmd && WithEntries(ctx.env, ex.env, got.p.ctx.env)
  {
    EnvironmentIs(ctx.env, ex.env);
    hide WithEntries;
    if Wrapped(ex) {
      ChainRuns(image, ctx, ex);
      WrappedIff(image, ctx, ex, Outcomes(image, ctx, ex));
    } else {
      UnwrappedIff(image, ctx, ex);
    }
  }

  lemma UnwrappedIff(image: Image, ctx: Context, ex: Request)
    requires Accepted(ex) && !Wrapped(ex)
    ensures Requested(image, ctx, ex).Some?
    ensures Outcomes(image, ctx, ex) == Exec(Requested(image, ctx, ex).value) <==> ex.env == [] || '=' !in ex.cmd[0]
  {
    hide ValidEntry, ValidUser, Step, ExportAll;
    var p := Process(ctx, Prepared(ex));
    if ex.env != [] {
      EnvLayer(image, ctx, ex.env, ex.cmd);
      StepsNext(image, p, 1);
      assert Outcomes(image, ctx, ex) == Step(image, p);
    } else {
      NoEntries(ctx.env);
      assert Outcomes(image, ctx, ex) == Exec(p);
    }
  }

  lemma WrappedIff(image: Image, ctx: Context, ex: Request, got: Outcome)
    requires ValidImage(image) && ex.cmd != [] && Wrapped(ex)
    requires Ran(image, ctx.(env := ExportAll(ctx.env, ex.env)), ex, got)
    ensures var want := Requested(image, ctx, ex);
            (want.Some? && got == Exec(want.value)) <==> Preserved(image, ctx, ex)
  {
    hide Finds, Overlay, ScriptVars, ExportAll, Untouched, Straight, Cd, CdVarsOf, Locate, WhoOf, Known, OptionLike;
    hide ValidImage;
    var env := ExportAll(ctx.env, ex.env);
    FallbackIff(image, ex.user, ctx.who.gid);
    OverlayIff(env, ScriptVars(image, env, ex.user, ex.workdir));
    StraightIff(image, CdVarsOf(env), ctx.dir, ex.workdir);
  }

  // ---------- The requests that are not preserved ----------

  // A first command word with `=` in it, directly behind the entries, is taken for
  // one more variable and the next word is run instead.
  lemma FirstWordLost(image: Image, ctx: Context, entry: string, word: string, cmd: seq<string>)
    requires ValidEntry(entry) && '=' in word && cmd != [] && '=' !in cmd[0]
    ensures var ex := Request([word] + cmd, [entry], "", "");
            && Accepted(ex)
            && Steps(image, Exec(Process(ctx, Prepared(ex))), Layers(ex))
                 == Exec(Process(ctx.(env := ExportAll(ctx.env, [entry, word])), cmd))
  {
    hide ValidEntry, ExportAll, Step;
    var ex := Request([word] + cmd, [entry], "", "");
    var args := [entry, word] + cmd;
    EntryShape(entry);
    EnvStep(image, ctx, args);
    OperandsSkip([entry, word], cmd);
    assert Prepared(ex) == ["env"] + args;
    assert args[0] == entry && args[..2] == [entry, word] && args[2..] == cmd;
  }

  // A leading -- is dropped by exec and by setpriv, and the next word is run instead.
  lemma DashesDropped(image: Image, ctx: Context, ex: Request)
    requires ValidImage(image) && Accepted(ex) && Wrapped(ex) && |ex.cmd| > 1 && ex.cmd[0] == "--"
    requires Parses(image, ExportAll(ctx.env, ex.env), ex.user)
    ensures var inner, got := ctx.(env := ExportAll(ctx.env, ex.env)), Outcomes(image, ctx, ex);
            && (got.Exec? <==> Reached(image, inner, ex.workdir).Some? && Becomes(image, inner, ex.user).Some?)
            && (got.Exec? ==> got.p.argv == ex.cmd[1..])
            && !Preserved(image, ctx, ex)
  {
    hide Outcomes, ExportAll, Parses, Reached, Becomes, ScriptVars, Overlay, ValidImage;
    ChainRuns(image, ctx, ex);
  }

  // A user id without an entry and without a group gets the group of the container's
  // process from gosu and su-exec.
  lemma GroupKept(image: Image, ctx: Context, ex: Request)
    requires ValidImage(image) && Accepted(ex) && Outcomes(image, ctx, ex).Exec?
    requires NumberOf(ex.user).Some? && NumberOf(ex.user).value !in image.uids
    ensures Outcomes(image, ctx, ex).p.ctx.who == Identity(NumberOf(ex.user).value, ctx.who.gid)
    ensures RequestedUser(image, ctx, ex.user) == Some(Identity(NumberOf(ex.user).value, 0))
  {
    NumberIs(image, ex.user, 0);
    NumberIs(image, ex.user, ctx.who.gid);
    hide Outcomes, ExportAll, Finds, WhoOf, Known, NumberOf, ValidImage, Reached, ScriptVars, Overlay;
    ChainRuns(image, ctx, ex);
  }

  // A variable of the script's that the environment already has is replaced.
  lemma UserVariableReplaced(image: Image, ctx: Context, ex: Request)
    requires ValidImage(image) && Accepted(ex) && Wrapped(ex) && "user" in ExportAll(ctx.env, ex.env)
    ensures var got := Outcomes(image, ctx, ex); got.Exec? ==> Get(got.p.ctx.env, "user") == Some(ex.user)
  {
    hide Outcomes, Accepted, ExportAll, Finds, Reached, Becomes, ValidImage, RunGroup, BeforeColon, Words;
    ChainRuns(image, ctx, ex);
  }

  // A directory that cd takes for something else: - is the previous directory, an
  // option alone is the home directory, and CDPATH goes before the current directory.
  lemma DirectoryDiverted(image: Image, ctx: Context, ex: Request)
    requires ValidImage(image) && Accepted(ex) && ex.workdir != "" && Outcomes(image, ctx, ex).Exec?
    ensures var vars, dir := CdVarsOf(ExportAll(ctx.env, ex.env)), Outcomes(image, ctx, ex).p.ctx.dir;
            && (ex.workdir == "-" ==> Some(dir) == CdVariable(image, vars, ctx.dir, vars.oldpwd))
            && (OnlyOptions(ex.workdir) ==> Some(dir) == CdVariable(image, vars, ctx.dir, vars.home))
            && (Searched(ex.workdir) && !Dashed(ex.workdir) && vars.cdpath.Some? ==>
                  forall i :: FirstHit(image, ctx.dir, Split(vars.cdpath.value, ':'), ex.workdir, i) ==>
                    Some(dir) == Locate(image, ctx.dir, Under(Split(vars.cdpath.value, ':')[i], ex.workdir)))
  {
    hide Outcomes, Accepted, ExportAll, Becomes, Words, ValidImage, Locate, Under, CdVariable, ScriptVars, Overlay;
    hide Split, CdVarsOf;
    ChainRuns(image, ctx, ex);
    var vars := CdVarsOf(ExportAll(ctx.env, ex.env));
    if vars.cdpath.Some? {
      SearchFirst(image, ctx.dir, Split(vars.cdpath.value, ':'), ex.workdir);
      forall i | FirstHit(image, ctx.dir, Split(vars.cdpath.value, ':'), ex.workdir, i)
        ensures Locate(image, ctx.dir, Under(Split(vars.cdpath.value, ':')[i], ex.workdir)).Some?
      {
        HitExists(image, ctx.dir, Split(vars.cdpath.value, ':'), ex.workdir, i);
      }
    }
  }

  // With a user asked for, words of the command run exactly when a tool can become that
  // user, the directory is reached and there are words left. Otherwise nothing runs,
  // unless the first word is an option to setpriv.
  lemma RunsAsUserIff(image: Image, ctx: Context, ex: Request)
    requires ValidImage(image) && Accepted(ex) && ex.user != ""
    ensures var env, got := ExportAll(ctx.env, ex.env), Outcomes(image, ctx, ex);
            && (got.Exec? <==>
                  && CanSwitch(image, env, ctx.who, ex.user)
                  && Reached(image, ctx.(env := env), ex.workdir).Some?
                  && Words(image, env, ex.user, ex.cmd).Some?)
            && (got.TakesOptions? ==> MayTakeOptions(image, env, ex.user, ex.cmd))
  {
    hide Outcomes, ExportAll, Reached, Finds, Words, MayTakeOptions, ValidImage, ScriptVars, Overlay;
    ChainRuns(image, ctx, ex);
    FallbackIff(image, ex.user, ctx.who.gid);
    hide WhoOf, Known;
  }

  // A user id without a passwd entry can be asked for, but setpriv and runuser refuse it.
  lemma NumberNotSwitched(image: Image, ctx: Context, ex: Request)
    requires ValidImage(image) && Accepted(ex)
    requires NumberOf(ex.user).Some? && NumberOf(ex.user).value !in image.uids
    requires var env := ExportAll(ctx.env, ex.env); !Finds(image, env, "gosu") && !Finds(image, env, "su-exec")
    ensures RequestedUser(image, ctx, ex.user) == Some(Identity(NumberOf(ex.user).value, 0))
    ensures !Outcomes(image, ctx, ex).Exec? && !Preserved(image, ctx, ex)
  {
    NumberIs(image, ex.user, 0);
    hide Outcomes, ExportAll, Finds, WhoOf, Known, NumberOf, ValidImage, Words;
    RunsAsUserIff(image, ctx, ex);
  }

  lemma NumberIs(image: Image, user: string, fallback: nat)
    requires ValidImage(image) && NumberOf(user).Some? && NumberOf(user).value !in image.uids
    ensures user != "" && user !in image.accounts && BeforeColon(user) == user && !Known(image, user)
    ensures WhoOf(image, user, fallback) == Some(Identity(NumberOf(user).value, fallback))
  {
    assert ':' !in user by { assert !IsDigit(':'); }
    ColonSplits(user);
    hide IndexOf, BeforeColon, AfterColon, Digits;
  }

  // ---------- An input for each ----------

  lemma NotPreserved(image: Image, ctx: Context)
    ensures !Preserved(image, ctx, Request(["A=b", "ls"], ["A=b"], "", ""))
    ensures Accepted(Request(["A=b", "ls"], ["A=b"], "", ""))
    ensures "user" in ctx.env && ctx.env["user"] != "root" ==> !Preserved(image, ctx, Request(["ls"], [], "root", ""))
    ensures Accepted(Request(["ls"], [], "root", ""))
    ensures ctx.who.uid != 0 ==> !Preserved(image, ctx, Request(["ls"], [], "root", ""))
  {
    hide Finds, WhoOf, Known, Straight, CdVarsOf, RunGroup;
    assert "A=b"[1] == '=';
    IndexOfIs("A=b", '=', 1);
    IndexOfIs("root", ':', 4);
    assert "root"[..4] == "root";
    var vars := ScriptVars(image, ctx.env, "root", "");
    assert "user" in vars && vars["user"] == "root";
  }

  predicate Plain(name: string) { '/' !in name && name != "" && name != "." && name != ".." }

  lemma WalkNext(image: Image, at: Path, name: string, rest: seq<string>)
    requires Plain(name)
    ensures Walk(image, at, [name] + rest) == if at + [name] in image.dirs then Walk(image, at + [name], rest) else None
    ensures Walk(image, at, [""] + rest) == Walk(image, at, rest)
    ensures Walk(image, at, []) == Some(at)
  {
    assert ([name] + rest)[1..] == rest && ([""] + rest)[1..] == rest;
  }

  lemma LocateOne(image: Image, at: Path, name: string)
    requires Plain(name)
    ensures Locate(image, at, name) == if at + [name] in image.dirs then Some(at + [name]) else None
  {
    SplitNone(name, '/');
    assert name[0] in name;
    hide Walk, Split;
    WalkNext(image, at, name, []);
    WalkNext(image, at + [name], name, []);
    assert [name] + [] == [name];
  }

  lemma LocateBelowRoot(image: Image, at: Path, name: string)
    requires Plain(name)
    ensures Locate(image, at, "/" + name) == if [name] in image.dirs then Some([name]) else None
    ensures !Searched("/" + name)
  {
    SplitTwo("", name, '/');
    assert "" + ['/'] + name == "/" + name;
    hide Walk, Split;
    WalkNext(image, [], name, []);
    WalkNext(image, [], name, [name]);
    WalkNext(image, [name], name, []);
    assert [""] + [name] == ["", name] && [name] + [] == [name] && [] + [name] == [name];
  }

  lemma RunsWhereCdLeads(image: Image, ctx: Context, workdir: string, there: Path)
    requires ValidImage(image) && workdir != "" && '\0' !in workdir
    requires Cd(image, CdVarsOf(ctx.env), ctx.dir, workdir) == Some(there)
    ensures var ex := Request(["ls"], [], "", workdir);
            Accepted(ex) && Outcomes(image, ctx, ex).Exec? && Outcomes(image, ctx, ex).p.ctx.dir == there
  {
    hide Outcomes, Cd, CdVarsOf, ScriptVars, Overlay, ValidImage;
    NoEntries(ctx.env);
    ChainRuns(image, ctx, Request(["ls"], [], "", workdir));
  }

  lemma VariableLeads(image: Image, vars: CdVars, at: Path, name: string)
    requires Plain(name) && [name] in image.dirs
    ensures CdVariable(image, vars, at, Some("/" + name)) == Some([name])
  {
    hide Locate, Searched;
    LocateBelowRoot(image, at, name);
  }

  lemma CdpathLeads(image: Image, vars: CdVars, at: Path, entry: string, name: string)
    requires Plain(entry) && Plain(name) && ':' !in entry && !Dashed(name)
    requires [entry] in image.dirs && [entry, name] in image.dirs && vars.cdpath == Some("/" + entry)
    ensures Cd(image, vars, at, name) == Some([entry, name])
  {
    var path := Under("/" + entry, name);
    assert Locate(image, at, path) == Some([entry, name]) by { LocateTwo(image, at, entry, name); }
    hide Locate, Under;
    SplitNone(name, '/');
    SplitNone("/" + entry, ':');
    assert name[0] in name;
    hide Split;
  }

  lemma LocateTwo(image: Image, at: Path, a: string, b: string)
    requires Plain(a) && Plain(b) && [a] in image.dirs && [a, b] in image.dirs
    ensures Locate(image, at, Under("/" + a, b)) == Some([a, b])
  {
    var path, tail := Under("/" + a, b), a + ['/'] + b;
    assert path == "/" + tail by { assert a[|a| - 1] in a; }
    assert Split(path, '/') == [""] + Split(tail, '/') by {
      IndexOfIs(path, '/', 0);
      assert path[1..] == tail && path[..0] == "";
    }
    SplitTwo(a, b, '/');
    hide Split, Walk, Under;
    WalkNext(image, [], a, [a, b]);
    WalkNext(image, [], a, [b]);
    WalkNext(image, [a], b, []);
    WalkNext(image, [a, b], b, []);
    assert [a] + [b] == [a, b] && [b] + [] == [b] && [] + [a] == [a];
  }

  // An image and a context in which each of the three is there and none is reached.
  function SampleImage(): Image {
    Image(SetPrivOnly, {["-"], ["-P"], ["x"], ["old"], ["c"], ["c", "x"]}, map[], map[], map[])
  }

  function SetPrivOnly(path: Option<string>, tool: string): bool { tool == "setpriv" }

  function SampleContext(): Context {
    Context(map["OLDPWD" := "/old", "HOME" := "/old", "CDPATH" := "/c"], [], Identity(0, 0))
  }

  lemma SampleVars()
    ensures CdVarsOf(SampleContext().env) == CdVars(Some("/" + "old"), Some("/" + "old"), Some("/" + "c"))
    ensures ValidImage(SampleImage()) && SampleContext().dir == []
  {
    assert "/" + "old" == "/old" && "/" + "c" == "/c";
  }

  // The directory asked for is there, and the command runs in another one.
  lemma Misplaced(workdir: string)
    requires workdir == "-" || workdir == "-P" || workdir == "x"
    ensures var ex := Request(["ls"], [], "", workdir);
            var there := if workdir == "x" then ["c", "x"] else ["old"];
            && Accepted(ex) && RequestedDir(SampleImage(), SampleContext(), workdir) == Some([workdir])
            && Outcomes(SampleImage(), SampleContext(), ex).Exec?
            && Outcomes(SampleImage(), SampleContext(), ex).p.ctx.dir == there
  {
    var image, ctx := SampleImage(), SampleContext();
    SampleVars();
    var vars := CdVarsOf(ctx.env);
    assert [workdir] in image.dirs && ["old"] in image.dirs && ["c"] in image.dirs && ["c", "x"] in image.dirs;
    assert OnlyOptions("-P") && !OnlyOptions("-");
    hide SampleImage, SampleContext, CdVarsOf, Locate, CdVariable, Outcomes, ValidImage, OnlyOptions;
    LocateOne(image, [], workdir);
    assert [] + [workdir] == [workdir];
    if workdir == "x" {
      CdpathLeads(image, vars, [], "c", "x");
      hide Cd;
      RunsWhereCdLeads(image, ctx, workdir, ["c", "x"]);
    } else {
      VariableLeads(image, vars, [], "old");
      assert Cd(image, vars, [], workdir) == Some(["old"]);
      hide Cd;
      RunsWhereCdLeads(image, ctx, workdir, ["old"]);
    }
  }

  // The -- is dropped, and ls runs.
  lemma DashesInput()
    ensures var ex := Request(["--", "ls"], [], "", "/");
            && Accepted(ex)
            && Outcomes(SampleImage(), SampleContext(), ex).Exec?
            && Outcomes(SampleImage(), SampleContext(), ex).p.argv == ["ls"]
  {
    var image, ctx, ex := SampleImage(), SampleContext(), Request(["--", "ls"], [], "", "/");
    SplitTwo("", "", '/');
    assert "" + ['/'] + "" == "/";
    WalkNext(image, [], "x", [""]);
    WalkNext(image, [], "x", []);
    assert [""] + [""] == ["", ""] && [""] + [] == [""];
    assert Locate(image, [], "/") == Some([]) by { hide Split, Walk; }
    SampleVars();
    NoEntries(ctx.env);
    assert ex.cmd[1..] == ["ls"];
    hide Outcomes, ExportAll, ValidImage, Preserved, Locate, Split, Walk;
    DashesDropped(image, ctx, ex);
  }

  lemma SevenIs()
    ensures NumberOf("7") == Some(7) && Accepted(Request(["ls"], [], "7", ""))
  {
    IndexOfIs("7", ':', 1);
    assert "7"[..1] == "7" && "7"[..0] == "";
    assert Digits("7") == 7;
  }

  // User 7 is asked for, has no entry, and setpriv is all there is.
  lemma NumberRefused()
    ensures var ex := Request(["ls"], [], "7", "");
            && Accepted(ex) && RequestedUser(SampleImage(), SampleContext(), "7") == Some(Identity(7, 0))
            && !Outcomes(SampleImage(), SampleContext(), ex).Exec?
  {
    var image, ctx, ex := SampleImage(), SampleContext(), Request(["ls"], [], "7", "");
    SevenIs();
    SampleVars();
    NoEntries(ctx.env);
    hide Outcomes, ExportAll, ValidImage, Preserved, Accepted, NumberOf, RequestedUser;
    NumberNotSwitched(image, ctx, ex);
  }

  function GosuOnly(path: Option<string>, tool: string): bool { tool == "gosu" }

  // With gosu the same user runs, in the group of the container's process.
  lemma NumberInOtherGroup()
    ensures var image, ctx := Image(GosuOnly, {}, map[], map[], map[]), Context(map[], [], Identity(0, 5));
            var ex := Request(["ls"], [], "7", "");
            && RequestedUser(image, ctx, "7") == Some(Identity(7, 0))
            && Outcomes(image, ctx, ex).Exec? && Outcomes(image, ctx, ex).p.ctx.who == Identity(7, 5)
  {
    var image, ctx := Image(GosuOnly, {}, map[], map[], map[]), Context(map[], [], Identity(0, 5));
    var ex := Request(["ls"], [], "7", "");
    SevenIs();
    NoEntries(ctx.env);
    assert Finds(image, ctx.env, "gosu");
    hide Outcomes, ExportAll, Accepted, NumberOf, RequestedUser;
    NumberIs(image, "7", 0);
    RunsAsUserIff(image, ctx, ex);
    GroupKept(image, ctx, ex);
  }
}
