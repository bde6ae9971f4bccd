/** The Incus wrapper (autohosts/incus.py) over an abstract hypervisor. The
    `incus` subprocess is left out: every command goes to a `Hypervisor`
    object that records it, decides its exit status and applies its effect
    on the fleet. A fatal exit or an uncaught lookup error ends the whole
    process; it travels up as a `Fatal` error, as Python's exceptions do. */
module Incus {
  import opened Wrappers

  /** Container status as `incus list` reports it. A starting container is
      Running after `ticksLeft + 1` more seconds; Stopped stands for every
      other status. */
  datatype Status = Running | Starting(ticksLeft: nat) | Stopped

  /** One entry of `incus list NAME --format json`: its name, status, and the
      addresses of each network interface. */
  datatype Container = Container(name: string, status: Status, network: map<string, seq<string>>)

  /** The `incus` command lines the core issues. */
  datatype Command =
    | List(filter: string)                                    // incus list FILTER --format json
    | Launch(image: string, name: string, instanceType: string) // incus launch IMAGE NAME --type TYPE
    | Exec(name: string, argv: seq<string>)                   // incus exec NAME -- ARGV...
    | FilePush(name: string, path: string, data: seq<bv8>)    // incus file push TMP NAME/TMP (TMP holds data)
    | FileDelete(name: string, path: string)                  // incus file delete NAME/TMP
    | Remove(name: string)                                    // incus rm --force NAME

  datatype LookupError = KeyError(key: string) | IndexError

  /** What ends the process: `sys.exit(code)`, or a lookup error nobody catches. */
  datatype Fatal = SystemExit(code: int) | Lookup(error: LookupError)

  function NamesOf(cs: seq<Container>): (names: seq<string>)
  {
    seq(|cs|, i requires 0 <= i < |cs| => cs[i].name)
  }

  predicate Present(cs: seq<Container>, name: string)
  {
    name in NamesOf(cs)
  }

  /** The name of the entry at `i`. */
  ghost function NameAt(cs: seq<Container>, i: int): string
    requires 0 <= i < |cs|
  {
    cs[i].name
  }

  /** No two entries of the fleet share a name. */
  ghost predicate UniqueNames(cs: seq<Container>)
  {
    forall i, j :: 0 <= i < j < |cs| ==> NameAt(cs, i) != NameAt(cs, j)
  }

  /** The first entry named `name`, if any. */
  function FirstNamed(cs: seq<Container>, name: string): (r: Option<Container>)
    ensures r.None? <==> !Present(cs, name)
    ensures r.Some? ==> r.value.name == name
  {
    if cs == [] then None
    else if cs[0].name == name then assert NamesOf(cs)[0] == name; Some(cs[0])
    else
      assert NamesOf(cs) == [cs[0].name] + NamesOf(cs[1..]);
      FirstNamed(cs[1..], name)
  }

  /** Where the first entry named `name` sits. */
  lemma {:induction false} FirstNamedIndex(cs: seq<Container>, name: string) returns (k: nat)
    requires Present(cs, name)
    ensures k < |cs| && cs[k].name == name && FirstNamed(cs, name) == Some(cs[k])
    ensures forall j :: 0 <= j < k ==> cs[j].name != name
  {
    if cs[0].name == name {
      k := 0;
    } else {
      assert NamesOf(cs) == [cs[0].name] + NamesOf(cs[1..]);
      var k' := FirstNamedIndex(cs[1..], name);
      k := k' + 1;
    }
  }

  /** The entry at `k` is the first one named `name`. */
  lemma {:induction false} FirstNamedAt(cs: seq<Container>, name: string, k: nat)
    requires k < |cs| && cs[k].name == name
    requires forall j :: 0 <= j < k ==> cs[j].name != name
    ensures FirstNamed(cs, name) == Some(cs[k])
  {
    if k > 0 {
      FirstNamedAt(cs[1..], name, k - 1);
    }
  }

  /** The first entry named `name` is Running. */
  predicate IsRunning(cs: seq<Container>, name: string)
  {
    FirstNamed(cs, name).Some? && FirstNamed(cs, name).value.status == Running
  }

  /** A container appended at the end does not hide a Running one. */
  lemma LaunchKeepsRunning(cs: seq<Container>, c: Container, name: string)
    requires IsRunning(cs, name)
    ensures IsRunning(cs + [c], name)
  {
    var k := FirstNamedIndex(cs, name);
    forall j | 0 <= j < k ensures (cs + [c])[j].name != name {
      assert (cs + [c])[j] == cs[j];
    }
    FirstNamedAt(cs + [c], name, k);
  }

  /** The output of `incus list FILTER`: the entries whose name starts with
      the filter, in fleet order. */
  function Listing(cs: seq<Container>, filter: string): seq<Container>
  {
    if cs == [] then []
    else (if filter <= cs[0].name then [cs[0]] else []) + Listing(cs[1..], filter)
  }

  /** Searching the filtered listing for an exact name finds what searching
      the whole fleet finds. */
  lemma {:induction false} ListingKeepsFirst(cs: seq<Container>, name: string)
    ensures FirstNamed(Listing(cs, name), name) == FirstNamed(cs, name)
  {
    if cs != [] {
      ListingKeepsFirst(cs[1..], name);
      var rest := Listing(cs[1..], name);
      if name <= cs[0].name {
        assert ([cs[0]] + rest)[1..] == rest;
        if cs[0].name != name {
          assert NamesOf([cs[0]] + rest) == [cs[0].name] + NamesOf(rest);
        }
      } else {
        assert [] + rest == rest;
      }
    }
  }

  lemma PresentCons(c: Container, cs: seq<Container>, n: string)
    ensures Present([c] + cs, n) <==> n == c.name || Present(cs, n)
  {
    assert NamesOf([c] + cs) == [c.name] + NamesOf(cs) by {
      assert ([c] + cs)[1..] == cs;
    }
  }

  /** `cs` without the entries named `name` (`incus rm --force NAME`). */
  function RemoveNamed(cs: seq<Container>, name: string): seq<Container>
  {
    if cs == [] then []
    else if cs[0].name == name then RemoveNamed(cs[1..], name)
    else [cs[0]] + RemoveNamed(cs[1..], name)
  }

  /** Removing a name takes exactly that name out of the fleet, and keeps
      names unique. */
  lemma {:induction false} RemoveNamedSpec(cs: seq<Container>, name: string)
    ensures forall n :: Present(RemoveNamed(cs, name), n) <==> Present(cs, n) && n != name
    ensures UniqueNames(cs) ==> UniqueNames(RemoveNamed(cs, name))
  {
    if cs != [] {
      RemoveNamedSpec(cs[1..], name);
      var rest := RemoveNamed(cs[1..], name);
      assert forall n :: Present(cs, n) <==> n == cs[0].name || Present(cs[1..], n) by {
        assert cs == [cs[0]] + cs[1..];
        forall n { PresentCons(cs[0], cs[1..], n); }
      }
      if UniqueNames(cs) {
        forall i, j | 0 <= i < j < |cs| - 1 ensures NameAt(cs[1..], i) != NameAt(cs[1..], j) {
          assert NameAt(cs, i + 1) != NameAt(cs, j + 1);
        }
      }
      if cs[0].name != name {
        var r := [cs[0]] + rest;
        forall n ensures Present(r, n) <==> Present(cs, n) && n != name {
          PresentCons(cs[0], rest, n);
        }
        if UniqueNames(cs) {
          assert !Present(cs[1..], cs[0].name) by {
            forall i | 0 <= i < |cs| - 1 ensures NamesOf(cs[1..])[i] != cs[0].name {
              assert NameAt(cs, 0) != NameAt(cs, i + 1);
            }
          }
          assert !Present(rest, cs[0].name);
          forall i, j | 0 <= i < j < |r| ensures NameAt(r, i) != NameAt(r, j) {
            if i == 0 {
              assert NamesOf(rest)[j - 1] == r[j].name;
            } else {
              assert NameAt(rest, i - 1) != NameAt(rest, j - 1);
            }
          }
        }
      }
    }
  }

  /** Removing one name leaves the first entry of every other name as it was. */
  lemma {:induction false} RemoveNamedKeeps(cs: seq<Container>, name: string, other: string)
    requires other != name
    ensures FirstNamed(RemoveNamed(cs, name), other) == FirstNamed(cs, other)
  {
    if cs != [] {
      RemoveNamedKeeps(cs[1..], name, other);
      if cs[0].name != name {
        assert ([cs[0]] + RemoveNamed(cs[1..], name))[1..] == RemoveNamed(cs[1..], name);
      }
    }
  }

  /** One second of hypervisor time for one container. */
  function TickStatus(s: Status): Status
  {
    match s
    case Starting(k) => if k == 0 then Running else Starting(k - 1)
    case _ => s
  }

  /** One second of hypervisor time for the whole fleet: names, order and
      networks stay, starting containers come closer to Running. */
  function Tick(cs: seq<Container>): (r: seq<Container>)
    ensures NamesOf(r) == NamesOf(cs) && |r| == |cs|
  {
    if cs == [] then []
    else
      var r := [cs[0].(status := TickStatus(cs[0].status))] + Tick(cs[1..]);
      assert NamesOf(r) == [cs[0].name] + NamesOf(Tick(cs[1..]));
      assert NamesOf(cs) == [cs[0].name] + NamesOf(cs[1..]);
      r
  }

  lemma {:induction false} TickAt(cs: seq<Container>, i: nat)
    requires i < |cs|
    ensures Tick(cs)[i] == cs[i].(status := TickStatus(cs[i].status))
  {
    if i > 0 {
      TickAt(cs[1..], i - 1);
    }
  }

  /** A Running container stays Running while time passes. */
  lemma TickKeepsRunning(cs: seq<Container>, name: string)
    requires IsRunning(cs, name)
    ensures IsRunning(Tick(cs), name)
  {
    var k := FirstNamedIndex(cs, name);
    forall j | 0 <= j < k ensures Tick(cs)[j].name != name {
      TickAt(cs, j);
    }
    TickAt(cs, k);
    FirstNamedAt(Tick(cs), name, k);
  }

  lemma UniqueNamesByNames(cs: seq<Container>, ds: seq<Container>)
    requires NamesOf(cs) == NamesOf(ds) && UniqueNames(cs)
    ensures UniqueNames(ds)
  {
    forall i, j | 0 <= i < j < |ds| ensures NameAt(ds, i) != NameAt(ds, j) {
      assert NameAt(cs, i) != NameAt(cs, j);
      assert NamesOf(cs)[i] == NamesOf(ds)[i] && NamesOf(cs)[j] == NamesOf(ds)[j];
    }
  }

  /** Seconds a container in status `s` still needs before it is Running. */
  function BootLeft(s: Status): nat
  {
    match s
    case Starting(k) => k + 1
    case _ => 0
  }

  /** The commands `cmds` as they run in order until the first failure,
      which is included. */
  function UntilFailure(cmds: seq<Command>, failing: iset<Command>): seq<Command>
  {
    if cmds == [] then []
    else if cmds[0] in failing then [cmds[0]]
    else [cmds[0]] + UntilFailure(cmds[1..], failing)
  }

  predicate AnyFails(cmds: seq<Command>, failing: iset<Command>)
  {
    exists i :: 0 <= i < |cmds| && cmds[i] in failing
  }

  /** The names listed by the `incus list` commands among `cmds`, in order. */
  function Probes(cmds: seq<Command>): seq<string>
  {
    if cmds == [] then []
    else (if cmds[0].List? then [cmds[0].filter] else []) + Probes(cmds[1..])
  }

  lemma {:induction false} ProbesAppend(a: seq<Command>, b: seq<Command>)
    ensures Probes(a + b) == Probes(a) + Probes(b)
  {
    if a != [] {
      ProbesAppend(a[1..], b);
      assert (a + b)[1..] == a[1..] + b;
    } else {
      assert a + b == b;
    }
  }

  lemma AppendAssoc<T>(a: seq<T>, b: seq<T>, c: seq<T>)
    ensures (a + b) + c == a + (b + c)
  {
  }

  /** `cmds` runs in order and stops at the first failure: what runs is a
      prefix of `cmds` in which only the last command may fail; it is all of
      `cmds` exactly when none fails, and otherwise ends at the failure. */
  lemma {:induction false} UntilFailureSpec(cmds: seq<Command>, failing: iset<Command>)
    ensures var ran := UntilFailure(cmds, failing);
            && |ran| <= |cmds| && ran == cmds[..|ran|]
            && (forall k :: 0 <= k < |ran| - 1 ==> ran[k] !in failing)
            && (AnyFails(cmds, failing) <==> ran != [] && ran[|ran| - 1] in failing)
            && (!AnyFails(cmds, failing) ==> ran == cmds)
  {
    if cmds != [] {
      UntilFailureSpec(cmds[1..], failing);
      var rest := UntilFailure(cmds[1..], failing);
      if cmds[0] !in failing {
        var ran := [cmds[0]] + rest;
        assert ran == cmds[..|ran|] by {
          assert cmds == [cmds[0]] + cmds[1..];
        }
        if AnyFails(cmds, failing) {
          var i :| 0 <= i < |cmds| && cmds[i] in failing;
          assert cmds[1..][i - 1] in failing;
        }
        if AnyFails(cmds[1..], failing) {
          var i :| 0 <= i < |cmds| - 1 && cmds[1..][i] in failing;
          assert cmds[i + 1] in failing;
        }
      }
    }
  }

  /** The hypervisor as this process sees it: the fleet, the trace of every
      command issued, and the outside facts the model takes as given: which
      commands fail, how long a new container takes to boot, and which
      addresses it gets. */
  class Hypervisor {
    var containers: seq<Container>
    var trace: seq<Command>
    const failing: iset<Command>
    const bootTicks: string -> nat
    const networkOf: string -> map<string, seq<string>>

    ghost predicate Valid()
      reads this
    {
      UniqueNames(containers)
    }

    constructor (containers: seq<Container>, failing: iset<Command>, bootTicks: string -> nat,
                 networkOf: string -> map<string, seq<string>>)
      requires UniqueNames(containers)
      ensures Valid() && this.containers == containers && trace == []
      ensures this.failing == failing && this.bootTicks == bootTicks && this.networkOf == networkOf
    {
      this.containers, this.failing, this.bootTicks, this.networkOf := containers, failing, bootTicks, networkOf;
      trace := [];
    }

    /** Exit status 0: the command did not fail, and a launch does not reuse
        an existing name. */
    predicate Succeeds(cmd: Command)
      reads this
    {
      cmd !in failing && !(cmd.Launch? && Present(containers, cmd.name))
    }

    /** The fleet after `cmd` succeeded. */
    function Effect(cmd: Command): seq<Container>
      reads this
    {
      match cmd
      case Launch(_, name, _) => containers + [Container(name, Starting(bootTicks(name)), networkOf(name))]
      case Remove(name) => RemoveNamed(containers, name)
      case _ => containers
    }

    method Execute(cmd: Command) returns (ok: bool)
      requires Valid()
      modifies this
      ensures Valid()
      ensures ok == old(Succeeds(cmd)) && trace == old(trace) + [cmd]
      ensures containers == if ok then old(Effect(cmd)) else old(containers)
    {
      ok := Succeeds(cmd);
      trace := trace + [cmd];
      if ok {
        if cmd.Remove? {
          RemoveNamedSpec(containers, cmd.name);
        }
        if cmd.Launch? {
          ghost var next := Effect(cmd);
          forall i, j | 0 <= i < j < |next| ensures NameAt(next, i) != NameAt(next, j) {
            if j < |containers| {
              assert NameAt(containers, i) != NameAt(containers, j);
            } else {
              assert NamesOf(containers)[i] == containers[i].name;
            }
          }
        }
        containers := Effect(cmd);
      }
    }

    /** `time.sleep(1)`: one second passes on the hypervisor. */
    method Sleep()
      requires Valid()
      modifies this
      ensures Valid() && containers == Tick(old(containers)) && trace == old(trace)
    {
      UniqueNamesByNames(containers, Tick(containers));
      containers := Tick(containers);
    }
  }

  /** `run_command`: runs `cmd`; a non-zero exit status ends the process
      with `sys.exit(1)`. */
  method RunCommand(hv: Hypervisor, cmd: Command) returns (r: Result<(), Fatal>)
    requires hv.Valid()
    modifies hv
    ensures hv.Valid() && hv.trace == old(hv.trace) + [cmd]
    ensures r.Ok? <==> old(hv.Succeeds(cmd))
    ensures r.Err? ==> r.error == SystemExit(1)
    ensures hv.containers == if r.Ok? then old(hv.Effect(cmd)) else old(hv.containers)
  {
    var ok := hv.Execute(cmd);
    if !ok {
      return Err(SystemExit(1));
    }
    r := Ok(());
  }

  /** A command run inside an existing container: it leaves the fleet
      as it is. */
  predicate Inside(cmd: Command)
  {
    cmd.Exec? || cmd.FilePush? || cmd.FileDelete?
  }

  /** Successive `run_command` calls: `cmds` run in order, and the process
      ends at the first one that fails. */
  method RunInOrder(hv: Hypervisor, cmds: seq<Command>) returns (r: Result<(), Fatal>)
    requires hv.Valid()
    requires forall i :: 0 <= i < |cmds| ==> Inside(cmds[i])
    modifies hv
    ensures hv.Valid() && hv.containers == old(hv.containers)
    ensures hv.trace == old(hv.trace) + UntilFailure(cmds, hv.failing)
    ensures r.Err? <==> AnyFails(cmds, hv.failing)
    ensures r.Err? ==> r.error == SystemExit(1)
    decreases |cmds|
  {
    if cmds == [] {
      return Ok(());
    }
    assert Inside(cmds[0]);
    var _ :- RunCommand(hv, cmds[0]);
    ghost var t1 := hv.trace;
    r := RunInOrder(hv, cmds[1..]);
    assert UntilFailure(cmds, hv.failing) == [cmds[0]] + UntilFailure(cmds[1..], hv.failing);
    assert hv.trace == old(hv.trace) + ([cmds[0]] + UntilFailure(cmds[1..], hv.failing));
    if AnyFails(cmds[1..], hv.failing) {
      var i :| 0 <= i < |cmds| - 1 && cmds[1..][i] in hv.failing;
      assert cmds[i + 1] in hv.failing;
    }
    if AnyFails(cmds, hv.failing) {
      var i :| 0 <= i < |cmds| && cmds[i] in hv.failing;
      assert i > 0 && cmds[1..][i - 1] in hv.failing;
    }
  }

  /** `container_info`: lists the containers matching `name` and returns
      the first entry with exactly that name, or nothing (`{}`). A failing
      listing ends the process instead, so the source's
      `except CalledProcessError` branch is never taken. */
  method ContainerInfo(hv: Hypervisor, name: string) returns (r: Result<Option<Container>, Fatal>)
    requires hv.Valid()
    modifies hv
    ensures hv.Valid() && hv.containers == old(hv.containers)
    ensures hv.trace == old(hv.trace) + [List(name)]
    ensures r.Err? <==> List(name) in hv.failing
    ensures r.Err? ==> r.error == SystemExit(1)
    ensures r.Ok? ==> r.value == FirstNamed(hv.containers, name)
  {
    var _ :- RunCommand(hv, List(name));
    var listed := Listing(hv.containers, name);  // the decoded JSON output
    ListingKeepsFirst(hv.containers, name);
    var found := FindNamed(listed, name);
    r := Ok(found);
  }

  /** The `for container in containers` loop of `container_info`: the first
      entry of the listing with exactly that name, or nothing. */
  method FindNamed(listed: seq<Container>, name: string) returns (found: Option<Container>)
    ensures found == FirstNamed(listed, name)
  {
    var i := 0;
    while i < |listed|
      invariant 0 <= i <= |listed|
      invariant forall j :: 0 <= j < i ==> listed[j].name != name
    {
      if listed[i].name == name {
        FirstNamedAt(listed, name, i);
        return Some(listed[i]);
      }
      i := i + 1;
    }
    assert !Present(listed, name);
    found := None;
  }

  /** `container_exists`: true exactly when the fleet has a container of
      that name. */
  method ContainerExists(hv: Hypervisor, name: string) returns (r: Result<bool, Fatal>)
    requires hv.Valid()
    modifies hv
    ensures hv.Valid() && hv.containers == old(hv.containers)
    ensures hv.trace == old(hv.trace) + [List(name)]
    ensures r.Err? <==> List(name) in hv.failing
    ensures r.Err? ==> r.error == SystemExit(1)
    ensures r.Ok? ==> (r.value <==> Present(hv.containers, name))
  {
    var info :- ContainerInfo(hv, name);
    r := Ok(info.Some?);
  }

  /** `info['state']['network']['eth0']['addresses'][0]['address']` on the
      result of `container_info`: the first eth0 address, or the lookup
      error Python raises. */
  function Ipv4Of(info: Option<Container>): (r: Result<string, LookupError>)
    ensures r.Ok? <==> info.Some? && "eth0" in info.value.network && info.value.network["eth0"] != []
    ensures r.Ok? ==> r.value == info.value.network["eth0"][0]
    ensures info.None? ==> r == Err(KeyError("state"))
  {
    match info
    case None => Err(KeyError("state"))
    case Some(c) =>
      if "eth0" !in c.network then Err(KeyError("eth0"))
      else if c.network["eth0"] == [] then Err(IndexError)
      else Ok(c.network["eth0"][0])
  }

  /** `container_ipv4`: the first eth0 address of the named container; a
      missing container, interface or address raises a lookup error. */
  method ContainerIpv4(hv: Hypervisor, name: string) returns (r: Result<string, Fatal>)
    requires hv.Valid()
    modifies hv
    ensures hv.Valid() && hv.containers == old(hv.containers)
    ensures hv.trace == old(hv.trace) + [List(name)]
    ensures r.Err? ==> r.error == SystemExit(1) || r.error.Lookup?
    ensures r.Err? && r.error == SystemExit(1) <==> List(name) in hv.failing
    ensures List(name) !in hv.failing ==>
              match Ipv4Of(FirstNamed(hv.containers, name))
              case Ok(ip) => r == Ok(ip)
              case Err(e) => r == Err(Lookup(e))
  {
    var info :- ContainerInfo(hv, name);
    match Ipv4Of(info)
    case Ok(ip) => r := Ok(ip);
    case Err(e) => r := Err(Lookup(e));
  }

  /** `container_create`: launches the container, then waits until it is
      Running; a launch of a name already in use fails and ends the
      process. */
  method ContainerCreate(hv: Hypervisor, name: string, image: string, instanceType: string)
    returns (r: Result<(), Fatal>)
    requires hv.Valid()
    modifies hv
    ensures hv.Valid()
    ensures r.Err? ==> r.error == SystemExit(1)
    ensures |hv.trace| > |old(hv.trace)| && hv.trace[..|old(hv.trace)|] == old(hv.trace)
    ensures hv.trace[|old(hv.trace)|] == Launch(image, name, instanceType)
    ensures forall k :: |old(hv.trace)| < k < |hv.trace| ==> hv.trace[k] == List(name)
    ensures NamesOf(hv.containers) == NamesOf(old(hv.containers)) ||
            (!Present(old(hv.containers), name) && NamesOf(hv.containers) == NamesOf(old(hv.containers)) + [name])
    ensures r.Ok? ==> !Present(old(hv.containers), name)
    ensures r.Ok? ==> NamesOf(hv.containers) == NamesOf(old(hv.containers)) + [name]
    ensures r.Ok? ==> FirstNamed(hv.containers, name).Some? &&
                      FirstNamed(hv.containers, name).value.status == Running
    ensures forall n :: IsRunning(old(hv.containers), n) ==> IsRunning(hv.containers, n)
  {
    ghost var t0, c0 := hv.trace, hv.containers;
    var _ :- RunCommand(hv, Launch(image, name, instanceType));
    ghost var t1 := hv.trace;
    var cs := hv.containers;
    forall n | IsRunning(c0, n) ensures IsRunning(cs, n) {
      LaunchKeepsRunning(c0, cs[|cs| - 1], n);
    }
    forall j | 0 <= j < |cs| - 1 ensures cs[j].name != name {
      assert NameAt(cs, j) != NameAt(cs, |cs| - 1);
    }
    FirstNamedAt(cs, name, |cs| - 1);
    r := AwaitRunning(hv, name);
    assert hv.trace[..|t0|] == t1[..|t0|] == t0 by {
      assert hv.trace[..|t1|] == t1;
    }
    assert hv.trace[|t0|] == t1[|t0|];
  }

  /** The `while True` loop of `container_create`: reads the container's
      status once per second until it is Running. The model's hypervisor
      boots every container in finite time, so the wait ends. */
  method AwaitRunning(hv: Hypervisor, name: string) returns (r: Result<(), Fatal>)
    requires hv.Valid()
    requires FirstNamed(hv.containers, name).Some?
    requires !FirstNamed(hv.containers, name).value.status.Stopped?
    modifies hv
    ensures hv.Valid() && NamesOf(hv.containers) == NamesOf(old(hv.containers))
    ensures r.Err? ==> r.error == SystemExit(1)
    ensures |hv.trace| >= |old(hv.trace)| && hv.trace[..|old(hv.trace)|] == old(hv.trace)
    ensures forall k :: |old(hv.trace)| <= k < |hv.trace| ==> hv.trace[k] == List(name)
    ensures r.Ok? ==> FirstNamed(hv.containers, name).Some? &&
                      FirstNamed(hv.containers, name).value.status == Running
    ensures forall n :: IsRunning(old(hv.containers), n) ==> IsRunning(hv.containers, n)
  {
    ghost var names0 := NamesOf(hv.containers);
    ghost var t0, c0 := hv.trace, hv.containers;
    // names are unique, so the entry stays at one position while time passes
    ghost var k := FirstNamedIndex(hv.containers, name);
    while true
      invariant hv.Valid()
      invariant NamesOf(hv.containers) == names0
      invariant k < |hv.containers| && hv.containers[k].name == name
      invariant !hv.containers[k].status.Stopped?
      invariant |hv.trace| >= |t0| && hv.trace[..|t0|] == t0
      invariant forall j :: |t0| <= j < |hv.trace| ==> hv.trace[j] == List(name)
      invariant forall n :: IsRunning(c0, n) ==> IsRunning(hv.containers, n)
      decreases BootLeft(hv.containers[k].status)
    {
      ghost var t1 := hv.trace;
      var info :- ContainerInfo(hv, name);
      assert hv.trace[..|t0|] == t1[..|t0|];
      forall j | 0 <= j < k ensures hv.containers[j].name != name {
        assert NameAt(hv.containers, j) != NameAt(hv.containers, k);
      }
      FirstNamedAt(hv.containers, name, k);
      if info.value.status == Running {
        break;
      }
      ghost var before := hv.containers;
      hv.Sleep();
      TickAt(before, k);
      forall n | IsRunning(c0, n) ensures IsRunning(hv.containers, n) {
        TickKeepsRunning(before, n);
      }
    }
    r := Ok(());
  }

  /** The commands of `container_setup_ssh`, in order. */
  function SshCommands(name: string, publicKey: string): seq<Command>
  {
    [ Exec(name, ["mkdir", "-p", "/root/.ssh"]),
      Exec(name, ["sh", "-c", "echo \"" + publicKey + "\" >> /root/.ssh/authorized_keys"]),
      Exec(name, ["chmod", "700", "/root/.ssh"]),
      Exec(name, ["chmod", "600", "/root/.ssh/authorized_keys"]),
      Exec(name, ["apt-get", "update"]),
      Exec(name, ["apt-get", "install", "-qy", "openssh-server"]) ]
  }

  /** `container_setup_ssh`: the six commands in order, the process ending
      at the first one that fails. */
  method ContainerSetupSsh(hv: Hypervisor, name: string, publicKey: string) returns (r: Result<(), Fatal>)
    requires hv.Valid()
    modifies hv
    ensures hv.Valid() && hv.containers == old(hv.containers)
    ensures hv.trace == old(hv.trace) + UntilFailure(SshCommands(name, publicKey), hv.failing)
    ensures r.Err? <==> AnyFails(SshCommands(name, publicKey), hv.failing)
    ensures r.Err? ==> r.error == SystemExit(1)
  {
    r := RunInOrder(hv, SshCommands(name, publicKey));
  }

  /** `container_remove`: `incus rm --force`. */
  method ContainerRemove(hv: Hypervisor, name: string) returns (r: Result<(), Fatal>)
    requires hv.Valid()
    modifies hv
    ensures hv.Valid() && hv.trace == old(hv.trace) + [Remove(name)]
    ensures r.Err? <==> Remove(name) in hv.failing
    ensures r.Err? ==> r.error == SystemExit(1)
    ensures hv.containers == if r.Ok? then RemoveNamed(old(hv.containers), name) else old(hv.containers)
  {
    r := RunCommand(hv, Remove(name));
  }

  /** The commands of `container_execute_script` for a temporary file at
      `tmp` holding `script`: push, run with bash, delete. */
  function ScriptCommands(name: string, script: seq<bv8>, tmp: string): seq<Command>
  {
    [FilePush(name, tmp, script), Exec(name, ["bash", tmp]), FileDelete(name, tmp)]
  }

  /** The script's commands stop at the first failure: a failed push runs
      nothing else, and a failed exec leaves the temporary file in place. */
  lemma ScriptStopsAtFailure(name: string, script: seq<bv8>, tmp: string, failing: iset<Command>)
    ensures var push, exec := FilePush(name, tmp, script), Exec(name, ["bash", tmp]);
            UntilFailure(ScriptCommands(name, script, tmp), failing) ==
              if push in failing then [push]
              else if exec in failing then [push, exec]
              else ScriptCommands(name, script, tmp)
  {
    var cmds := ScriptCommands(name, script, tmp);
    assert cmds[1..][1..] == [FileDelete(name, tmp)];
    assert UntilFailure([FileDelete(name, tmp)], failing) == [FileDelete(name, tmp)];
  }

  /** The script ends the process exactly when its push, its exec or its
      delete fails. */
  lemma ScriptFails(name: string, script: seq<bv8>, tmp: string, failing: iset<Command>)
    ensures AnyFails(ScriptCommands(name, script, tmp), failing) <==>
              FilePush(name, tmp, script) in failing || Exec(name, ["bash", tmp]) in failing ||
              FileDelete(name, tmp) in failing
  {
    var cmds := ScriptCommands(name, script, tmp);
    if FilePush(name, tmp, script) in failing {
      assert cmds[0] in failing;
    } else if Exec(name, ["bash", tmp]) in failing {
      assert cmds[1] in failing;
    } else if FileDelete(name, tmp) in failing {
      assert cmds[2] in failing;
    }
  }

  /** How many times `name` runs the script at `tmp` among `cmds`. */
  function Runs(cmds: seq<Command>, name: string, tmp: string): nat
  {
    multiset(cmds)[Exec(name, ["bash", tmp])]
  }

  /** Runs add up over a concatenation. */
  lemma RunsAppend(a: seq<Command>, b: seq<Command>, n: string, tmp: string)
    ensures Runs(a + b, n, tmp) == Runs(a, n, tmp) + Runs(b, n, tmp)
  {
    assert multiset(a + b) == multiset(a) + multiset(b);
  }

  /** A completed `container_execute_script` runs the script once in its
      own container, and a failed one at most once. */
  lemma ScriptRunsOnce(name: string, script: seq<bv8>, tmp: string, failing: iset<Command>, n: string)
    ensures var ran := UntilFailure(ScriptCommands(name, script, tmp), failing);
            && Runs(ran, n, tmp) <= (if n == name then 1 else 0)
            && (!AnyFails(ScriptCommands(name, script, tmp), failing) ==> Runs(ran, n, tmp) == if n == name then 1 else 0)
  {
    var push, exec, delete := FilePush(name, tmp, script), Exec(name, ["bash", tmp]), FileDelete(name, tmp);
    ScriptStopsAtFailure(name, script, tmp, failing);
    ScriptFails(name, script, tmp, failing);
    assert Runs([push], n, tmp) == 0;
    if push !in failing {
      RunsAppend([push], [exec], n, tmp);
      if exec !in failing {
        assert ScriptCommands(name, script, tmp) == [push, exec] + [delete];
        RunsAppend([push, exec], [delete], n, tmp);
      }
    }
  }

  /** `container_execute_script`: push, exec and delete, in that order; if
      the exec fails, the process ends and the delete is never issued. */
  method ContainerExecuteScript(hv: Hypervisor, name: string, script: seq<bv8>, tmp: string)
    returns (r: Result<(), Fatal>)
    requires hv.Valid()
    modifies hv
    ensures hv.Valid() && hv.containers == old(hv.containers)
    ensures hv.trace == old(hv.trace) + UntilFailure(ScriptCommands(name, script, tmp), hv.failing)
    ensures r.Err? <==> AnyFails(ScriptCommands(name, script, tmp), hv.failing)
    ensures r.Err? ==> r.error == SystemExit(1)
  {
    r := RunInOrder(hv, ScriptCommands(name, script, tmp));
  }
}
