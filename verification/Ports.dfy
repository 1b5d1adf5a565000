/**
 Exposed, bound and mapped ports of a container: parsing them, giving unmapped ones
 a random host port, and reporting them (internal/model/types/container.go,
 internal/backend/util.go, and the port functions that the Docker and libpod
 container routes each have a copy of).
 */
module Ports {
  import opened Basics
  import opened Strings

  // ---------- Parsing ----------

  const MAX_INT := 0x7fff_ffff_ffff_ffff

  predicate Signed(s: string) { s != "" && (s[0] == '-' || s[0] == '+') }

  function Unsigned(s: string): string { if Signed(s) then s[1..] else s }

  predicate AllDigits(s: string) { s != "" && forall i :: 0 <= i < |s| ==> IsDigit(s[i]) }

  // strconv.Atoi: an optional sign, then digits, within 64 bits.
  function Atoi(s: string): Option<int> {
    if !AllDigits(Unsigned(s)) then None
    else
      var n: int := if Signed(s) && s[0] == '-' then 0 - Digits(Unsigned(s)) else Digits(Unsigned(s));
      if -MAX_INT - 1 <= n <= MAX_INT then Some(n) else None
  }

  // "9000/tcp" or "9000".
  function TCPPort(p: string): Option<int> {
    var f := Split(p, '/');
    if |f| > 2 || (|f| == 2 && f[1] != "tcp") then None else Atoi(f[0])
  }

  // A binding without a host port is kept under the negated container port.
  function HostKey(src: string, port: int): Option<int> {
    if src == "" || src == "0" then Some(-port) else Atoi(src)
  }

  // Which texts denote a port: digits, with a sign or none, alone or with /tcp.
  lemma AtoiIs(d: string)
    requires AllDigits(d) && Digits(d) <= 9223372036854775807
    ensures Atoi(d) == Some(Digits(d)) && Atoi("+" + d) == Some(Digits(d)) && Atoi("-" + d) == Some(0 - Digits(d))
    ensures Atoi("") == None && Atoi("-") == None
  {
    assert IsDigit(d[0]);
    assert ("+" + d)[1..] == d && ("-" + d)[1..] == d;
    hide Digits;
  }

  lemma AtoiRejects(s: string, i: nat)
    requires i < |s| && !IsDigit(s[i]) && (i > 0 || (s[0] != '-' && s[0] != '+'))
    ensures Atoi(s) == None
  {
    hide Digits;
    assert !IsDigit(Unsigned(s)[if Signed(s) then i - 1 else i]);
  }

  lemma TCPPortIff(p: string, n: int)
    ensures TCPPort(p) == Some(n) <==>
              exists d :: '/' !in d && Atoi(d) == Some(n) && (p == d || p == d + "/tcp")
  {
    hide Atoi;
    if TCPPort(p) == Some(n) {
      PortParts(p);
      var d := Split(p, '/')[0];
      assert '/' !in d && Atoi(d) == Some(n) && (p == d || p == d + "/tcp");
    }
    if d :| '/' !in d && Atoi(d) == Some(n) && (p == d || p == d + "/tcp") {
      PartsOf(d);
    }
  }

  lemma PartsOf(d: string)
    requires '/' !in d
    ensures Split(d, '/') == [d] && Split(d + "/tcp", '/') == [d, "tcp"]
  {
    SplitNone(d, '/');
    SplitTwo(d, "tcp", '/');
    assert d + ['/'] + "tcp" == d + "/tcp";
  }

  lemma PortParts(p: string)
    requires |Split(p, '/')| == 1 || (|Split(p, '/')| == 2 && Split(p, '/')[1] == "tcp")
    ensures var f := Split(p, '/'); '/' !in f[0] && (p == f[0] || p == f[0] + "/tcp")
  {
    var f := Split(p, '/');
    SplitJoin(p, '/');
    hide Split;
    if |f| == 2 {
      assert Join(f[1..], '/') == "tcp";
      assert f[0] + ['/'] + "tcp" == f[0] + "/tcp";
    }
  }

  lemma HostKeyIs(src: string, port: int)
    ensures HostKey("", port) == Some(-port) && HostKey("0", port) == Some(-port)
    ensures src != "" && src != "0" ==> HostKey(src, port) == Atoi(src)
  {
  }

  ghost function TCPPorts(ports: set<string>): set<int> {
    set p | p in ports && TCPPort(p).Some? :: TCPPort(p).value
  }

  // ---------- Host ports ----------

  // The operating system hands out ports nobody holds, and none that is mapped.
  class Network {
    var held: set<int>

    method Listen(mapped: set<int>) returns (port: Option<int>)
      modifies this
      ensures port.None? ==> held == old(held)
      ensures port.Some? ==>
                0 < port.value < 65536 && port.value !in old(held) + mapped && held == old(held) + {port.value}
    {
      var p: int := *;
      if 0 < p < 65536 && p !in held && p !in mapped {
        held := held + {p};
        return Some(p);
      }
      return None;
    }

    method Close(ports: set<int>)
      modifies this
      ensures held == old(held) - ports
    {
      held := held - ports;
    }
  }

  type PortMap = map<int, int>

  // Bound to a positive host port, or mapped already.
  predicate Served(host: PortMap, mapped: PortMap, port: int) {
    (exists src :: src in host && src > 0 && host[src] == port)
    || (exists src :: src in mapped && mapped[src] == port)
  }

  // `after` is `before` plus one fresh mapping for each port of `want` that was
  // not served, and nothing else.
  ghost predicate MapsMissing(host: PortMap, before: PortMap, after: PortMap, want: set<int>) {
    && (forall src :: src in before ==> src in after && after[src] == before[src])
    && (forall src :: src in after && src !in before ==>
          src > 0 && after[src] in want && !Served(host, before, after[src]))
    && (forall a, b :: a in after && b in after && a !in before && b !in before && after[a] == after[b] ==> a == b)
    && (forall port :: port in want ==> Served(host, after, port))
  }

  // Stopped half way: some of the missing mappings have been made.
  ghost predicate MapsSome(host: PortMap, before: PortMap, after: PortMap, want: set<int>) {
    exists part :: part <= want && MapsMissing(host, before, after, part)
  }

  class Container {
    var exposed: set<string>
    var hostPorts: PortMap
    var mappedPorts: PortMap

    constructor (exposed: set<string>)
      ensures this.exposed == exposed && hostPorts == map[] && mappedPorts == map[]
    {
      this.exposed, hostPorts, mappedPorts := exposed, map[], map[];
    }

    method AddHostPort(src: string, dst: string) returns (ok: bool)
      modifies this`hostPorts
      ensures ok <==> TCPPort(dst).Some? && HostKey(src, TCPPort(dst).value).Some?
      ensures !ok ==> hostPorts == old(hostPorts)
      ensures ok ==> hostPorts == old(hostPorts)[HostKey(src, TCPPort(dst).value).value := TCPPort(dst).value]
    {
      var dp := TCPPort(dst);
      if dp.None? { return false; }
      var sp := -dp.value;
      if src != "" && src != "0" {
        var n := Atoi(src);
        if n.None? { return false; }
        sp := n.value;
      }
      hostPorts := hostPorts[sp := dp.value];
      return true;
    }

    // In any order, and with repeats when "80" and "80/tcp" are both exposed.
    method GetContainerTCPPorts() returns (ports: seq<int>)
      ensures forall n :: n in ports <==> n in TCPPorts(exposed)
    {
      ports := [];
      var todo := exposed;
      ghost var done: set<string> := {};
      while todo != {}
        invariant todo + done == exposed && todo !! done
        invariant forall n :: n in ports <==> n in TCPPorts(done)
        decreases todo
      {
        hide TCPPort;
        var p :| p in todo;
        todo := todo - {p};
        assert TCPPorts(done + {p}) == TCPPorts(done) + (if TCPPort(p).Some? then {TCPPort(p).value} else {});
        done := done + {p};
        var n := TCPPort(p);
        if n.None? { continue; }
        ports := ports + [n.value];
      }
      assert done == exposed;
    }

    // Maps every exposed port that is not served yet. The listeners stay open until
    // the end, so no port is handed out twice.
    method MapContainerTCPPorts(os: Network) returns (ok: bool)
      modifies this`mappedPorts, os
      ensures os.held == old(os.held)
      ensures ok ==> MapsMissing(hostPorts, old(mappedPorts), mappedPorts, TCPPorts(exposed))
      ensures MapsSome(hostPorts, old(mappedPorts), mappedPorts, TCPPorts(exposed))
      ensures (forall port :: port in TCPPorts(exposed) ==> Served(hostPorts, old(mappedPorts), port)) ==>
                ok && mappedPorts == old(mappedPorts)
    {
      var ports := GetContainerTCPPorts();
      var listeners: set<int> := {};
      ghost var done: set<int> := {};
      ok := true;
      for i := 0 to |ports|
        invariant ok && done <= TCPPorts(exposed) && forall n :: n in done <==> n in ports[..i]
        invariant os.held == old(os.held) + listeners && listeners !! old(os.held)
        invariant mappedPorts.Keys == old(mappedPorts).Keys + listeners
        invariant MapsMissing(hostPorts, old(mappedPorts), mappedPorts, done)
        invariant (forall port :: port in done ==> Served(hostPorts, old(mappedPorts), port)) ==>
                    mappedPorts == old(mappedPorts)
      {
        var pp := ports[i];
        assert pp in ports && ports[..i + 1] == ports[..i] + [pp];
        if Served(hostPorts, mappedPorts, pp) {
          done := done + {pp};
          continue;
        }
        var l := os.Listen(mappedPorts.Keys);
        if l.None? {
          ok := false;
          break;
        }
        AddMapping(hostPorts, old(mappedPorts), mappedPorts, done, pp, l.value);
        mappedPorts := mappedPorts[l.value := pp];
        listeners := listeners + {l.value};
        done := done + {pp};
      }
      os.Close(listeners);
      if ok {
        assert ports[..|ports|] == ports;
        assert done == TCPPorts(exposed);
      }
    }
  }

  // Mapping is idempotent, and a call that failed half way can be repeated: the
  // second then adds just what the first left out.
  method MapTwice(c: Container, os: Network) returns (first: bool, second: bool, ghost between: PortMap)
    modifies c`mappedPorts, os
    ensures MapsSome(c.hostPorts, old(c.mappedPorts), between, TCPPorts(c.exposed))
    ensures first ==> second && c.mappedPorts == between
    ensures second ==> MapsMissing(c.hostPorts, old(c.mappedPorts), c.mappedPorts, TCPPorts(c.exposed))
  {
    first := c.MapContainerTCPPorts(os);
    between := c.mappedPorts;
    second := c.MapContainerTCPPorts(os);
    if second { MapsCompose(c.hostPorts, old(c.mappedPorts), between, c.mappedPorts, TCPPorts(c.exposed)); }
  }

  lemma MapsCompose(host: PortMap, before: PortMap, between: PortMap, after: PortMap, want: set<int>)
    requires MapsSome(host, before, between, want) && MapsMissing(host, between, after, want)
    ensures MapsMissing(host, before, after, want)
  {
    forall src | src in between ensures Served(host, between, between[src]) {}
    forall port | Served(host, before, port) ensures Served(host, between, port) {
      if src :| src in before && before[src] == port { assert between[src] == port; }
    }
  }

  lemma AddMapping(host: PortMap, before: PortMap, now: PortMap, done: set<int>, port: int, l: int)
    requires MapsMissing(host, before, now, done) && !Served(host, now, port) && l !in now && l > 0
    ensures MapsMissing(host, before, now[l := port], done + {port})
    ensures !Served(host, before, port)
  {
    var after := now[l := port];
    assert after[l] == port;
    forall p | p in done ensures Served(host, after, p) {
      assert Served(host, now, p);
      if src :| src in now && now[src] == p { assert after[src] == p; }
    }
  }

  // ---------- Reporting ----------

  // The host ports that lead to dst.
  ghost function Sources(host: PortMap, mapped: PortMap, dst: int): set<int> {
    (set src | src in host && src >= 0 && host[src] == dst)
    + (set src | src in mapped && src >= 0 && mapped[src] == dst)
  }

  ghost predicate NoRepeats<T>(s: seq<T>) {
    forall i, j :: 0 <= i < j < |s| ==> s[i] != s[j]
  }

  // Per container port, its host ports, each once.
  ghost predicate Reports(host: PortMap, mapped: PortMap, r: map<int, seq<int>>) {
    && (forall dst :: dst in r <==> Sources(host, mapped, dst) != {})
    && (forall dst :: dst in r ==>
          NoRepeats(r[dst]) && forall src :: src in r[dst] <==> src in Sources(host, mapped, dst))
  }

  type PortLists = map<int, seq<int>>

  predicate Has(ports: PortLists, dst: int, src: int) { dst in ports && src in ports[dst] }

  ghost predicate NoneEmpty(ports: PortLists) { forall dst :: dst in ports ==> ports[dst] != [] }

  lemma NoMembers(s: set<int>)
    requires forall n :: n !in s
    ensures s == {}
  {
    assert forall n :: n in s <==> n in {};
  }

  lemma SomeMember(s: set<int>)
    requires s != {}
    ensures exists n :: n in s
  {
    if forall n :: n !in s { NoMembers(s); }
  }

  function Filed(ports: PortLists, dst: int, src: int): PortLists {
    ports[dst := (if dst in ports then ports[dst] else []) + [src]]
  }

  lemma FiledHas(ports: PortLists, dst: int, src: int)
    ensures forall d, n :: Has(Filed(ports, dst, src), d, n) <==> Has(ports, d, n) || (d == dst && n == src)
  {
    var list := (if dst in ports then ports[dst] else []);
    forall d, n ensures Has(Filed(ports, dst, src), d, n) <==> Has(ports, d, n) || (d == dst && n == src) {
      assert n in list + [src] <==> n in list || n == src;
    }
  }

  // Files every non-negative source of prts under its destination, in any order.
  method AddPorts(before: PortLists, prts: PortMap) returns (ports: PortLists)
    requires NoneEmpty(before)
    ensures NoneEmpty(ports)
    ensures forall dst, src :: Has(ports, dst, src) <==>
              Has(before, dst, src) || (src in prts && src >= 0 && prts[src] == dst)
  {
    ports := before;
    var todo := prts.Keys;
    while todo != {}
      invariant todo <= prts.Keys && NoneEmpty(ports)
      invariant forall dst, src :: Has(ports, dst, src) <==>
                  Has(before, dst, src) || (src in prts && src !in todo && src >= 0 && prts[src] == dst)
      decreases todo
    {
      SomeMember(todo);
      var src :| src in todo;
      todo := todo - {src};
      if src < 0 { continue; }
      var dst := prts[src];
      FiledHas(ports, dst, src);
      ports := Filed(ports, dst, src);
    }
  }

  // Drops repeats, keeping first occurrences.
  method Distinct(list: seq<int>) returns (r: seq<int>)
    ensures NoRepeats(r)
    ensures forall n :: n in r <==> n in list
  {
    r := [];
    for i := 0 to |list|
      invariant NoRepeats(r)
      invariant forall n :: n in r <==> n in list[..i]
    {
      assert list[..i + 1] == list[..i] + [list[i]];
      if list[i] in r { continue; }
      r := r + [list[i]];
    }
    assert list[..|list|] == list;
  }

  // getNetworkSettingsPorts when port forwarding or reverse proxying.
  method NetworkSettingsPorts(hostIP: string, host: PortMap, mapped: PortMap) returns (r: PortLists)
    ensures hostIP == "" ==> r == map[]
    ensures hostIP != "" ==> Reports(host, mapped, r)
  {
    var ports := AddPorts(map[], host);
    ports := AddPorts(ports, mapped);
    r := map[];
    if hostIP == "" { return; }
    var todo := ports.Keys;
    while todo != {}
      invariant todo <= ports.Keys && r.Keys == ports.Keys - todo
      invariant forall dst :: dst in r ==> NoRepeats(r[dst]) && forall src :: src in r[dst] <==> src in ports[dst]
      decreases todo
    {
      SomeMember(todo);
      var dst :| dst in todo;
      todo := todo - {dst};
      var list := Distinct(ports[dst]);
      r := r[dst := list];
    }
    assert r.Keys == ports.Keys;
    forall dst ensures (dst in r <==> Sources(host, mapped, dst) != {})
      && (dst in r ==> forall src :: src in r[dst] <==> src in Sources(host, mapped, dst))
    {
      Listed(host, mapped, ports, dst);
    }
  }

  lemma Listed(host: PortMap, mapped: PortMap, ports: PortLists, dst: int)
    requires NoneEmpty(ports)
    requires forall d, src :: Has(ports, d, src) <==>
               (src in host && src >= 0 && host[src] == d) || (src in mapped && src >= 0 && mapped[src] == d)
    ensures forall src :: Has(ports, dst, src) <==> src in Sources(host, mapped, dst)
    ensures dst in ports <==> Sources(host, mapped, dst) != {}
  {
    if dst in ports {
      assert Has(ports, dst, ports[dst][0]);
    }
    if src :| src in Sources(host, mapped, dst) {
      assert Has(ports, dst, src);
    }
  }

  // Any two reports, from either copy of the code and for any iteration orders, list
  // the same host ports for the same container ports.
  lemma ReportsAgree(host: PortMap, mapped: PortMap, a: PortLists, b: PortLists)
    requires Reports(host, mapped, a) && Reports(host, mapped, b)
    ensures a.Keys == b.Keys
    ensures forall dst :: dst in a ==> multiset(a[dst]) == multiset(b[dst])
  {
    assert forall dst :: dst in a <==> dst in b;
    forall dst | dst in a ensures multiset(a[dst]) == multiset(b[dst]) {
      SameSetSameList(a[dst], b[dst]);
    }
  }

  lemma {:induction false} CountOnce(s: seq<int>, n: int)
    requires NoRepeats(s)
    ensures multiset(s)[n] == if n in s then 1 else 0
  {
    if s != [] {
      var k := |s| - 1;
      CountOnce(s[..k], n);
      assert s == s[..k] + [s[k]];
      assert s[k] !in s[..k];
    }
  }

  lemma SameSetSameList(a: seq<int>, b: seq<int>)
    requires NoRepeats(a) && NoRepeats(b) && forall n :: n in a <==> n in b
    ensures multiset(a) == multiset(b)
  {
    forall n ensures multiset(a)[n] == multiset(b)[n] {
      CountOnce(a, n);
      CountOnce(b, n);
    }
  }

  // After mapping, inspect reports a positive host port for every exposed port.
  lemma EveryPortReported(host: PortMap, before: PortMap, after: PortMap, want: set<int>, r: PortLists, port: int)
    requires MapsMissing(host, before, after, want) && Reports(host, after, r) && port in want
    requires forall src :: src in before ==> src > 0
    ensures port in r && exists src :: src in r[port] && src > 0
  {
    assert Served(host, after, port);
    var src :| src > 0 && ((src in host && host[src] == port) || (src in after && after[src] == port));
    assert src in Sources(host, after, port);
  }
}
