/** `create_containers.py`: reads an SSH public key, then for every number in
    `range(start, start + count)` creates the container
    `generate_name(prefix, i)`, installs SSH access with that key and reads
    its first eth0 address. With `--ignore-existing`, a container that
    already exists is skipped. */
module CreateContainers {
  import opened Wrappers
  import opened Text
  import opened Naming
  import opened Incus

  /** The names of the containers `cmds` launch, in order. */
  function Launched(cmds: seq<Command>): seq<string>
  {
    if cmds == [] then []
    else (if cmds[0].Launch? then [cmds[0].name] else []) + Launched(cmds[1..])
  }

  lemma {:induction false} LaunchedAppend(a: seq<Command>, b: seq<Command>)
    ensures Launched(a + b) == Launched(a) + Launched(b)
  {
    if a != [] {
      LaunchedAppend(a[1..], b);
      assert (a + b)[1..] == a[1..] + b;
    } else {
      assert a + b == b;
    }
  }

  /** Commands without a launch launch nothing. */
  lemma {:induction false} LaunchedNone(cmds: seq<Command>)
    requires forall k :: 0 <= k < |cmds| ==> !cmds[k].Launch?
    ensures Launched(cmds) == []
  {
    if cmds != [] {
      LaunchedNone(cmds[1..]);
    }
  }

  /** A sequence of commands that launches nothing has no launch in it. */
  lemma {:induction false} LaunchedEmpty(cmds: seq<Command>)
    requires Launched(cmds) == []
    ensures forall k :: 0 <= k < |cmds| ==> !cmds[k].Launch?
  {
    if cmds != [] {
      LaunchedEmpty(cmds[1..]);
      forall k | 1 <= k < |cmds| ensures !cmds[k].Launch? {
        assert cmds[k] == cmds[1..][k - 1];
      }
    }
  }

  /** Every launch from position `from` of `trace` on uses the image
      `image` and the instance type `instanceType`. */
  ghost predicate LaunchesFrom(trace: seq<Command>, from: nat, image: string, instanceType: string)
  {
    forall k :: from <= k < |trace| && trace[k].Launch? ==>
                  trace[k].image == image && trace[k].instanceType == instanceType
  }

  /** Extending a trace whose launches from `from` on use `image` and
      `instanceType` by commands whose launches do too keeps the property. */
  lemma LaunchesJoin(a: seq<Command>, u: seq<Command>, from: nat, image: string, instanceType: string)
    requires from <= |a| <= |u| && u[..|a|] == a
    requires LaunchesFrom(a, from, image, instanceType) && LaunchesFrom(u, |a|, image, instanceType)
    ensures LaunchesFrom(u, from, image, instanceType)
  {
    forall k | from <= k < |a| ensures u[k] == a[k] {
      assert u[k] == u[..|a|][k];
    }
  }

  /** The names the first `i` iterations are to create: every visited name,
      or with `ignore` (`--ignore-existing`) only those absent from the
      fleet `cs` the run started with. */
  function Targets(cs: seq<Container>, names: seq<string>, i: nat, ignore: bool): seq<string>
    requires i <= |names|
  {
    if i == 0 then []
    else
      var rest := Targets(cs, names, i - 1, ignore);
      if ignore && Present(cs, names[i - 1]) then rest else rest + [names[i - 1]]
  }

  /** The targets are the visited names, less the existing ones with
      `ignore`; without it they are all the visited names, in order. */
  lemma {:induction false} TargetsSpec(cs: seq<Container>, names: seq<string>, i: nat, ignore: bool)
    requires i <= |names|
    ensures forall n :: n in Targets(cs, names, i, ignore) <==> n in names[..i] && !(ignore && Present(cs, n))
    ensures !ignore ==> Targets(cs, names, i, ignore) == names[..i]
  {
    if i > 0 {
      TargetsSpec(cs, names, i - 1, ignore);
      assert names[..i] == names[..i - 1] + [names[i - 1]];
    }
  }

  /** The targets of a shorter run are a prefix of those of a longer one. */
  lemma {:induction false} TargetsPrefix(cs: seq<Container>, names: seq<string>, i: nat, j: nat, ignore: bool)
    requires i <= j <= |names|
    ensures var short := Targets(cs, names, i, ignore);
            |short| <= |Targets(cs, names, j, ignore)| && short == Targets(cs, names, j, ignore)[..|short|]
  {
    if i < j {
      TargetsPrefix(cs, names, i, j - 1, ignore);
    }
  }

  /** The fleet `fleet` is the fleet `cs` plus the containers named
      `created`, none of which was in `cs`. */
  ghost predicate Extends(fleet: seq<Container>, cs: seq<Container>, created: seq<string>)
  {
    && NamesOf(fleet) == NamesOf(cs) + created
    && (forall n :: n in created ==> !Present(cs, n))
  }

  /** Every command from position `from` of `trace` on that runs inside a
      container is an SSH setup command with the key `key`, run in one of
      the containers `created`. */
  ghost predicate InsideOnly(trace: seq<Command>, from: nat, key: string, created: seq<string>)
  {
    forall k :: from <= k < |trace| && trace[k].Exec? ==>
                  trace[k].name in created && trace[k] in SshCommands(trace[k].name, key)
  }

  /** Every command from position `from` of `trace` on that runs inside a
      container comes after a launch of that container, itself at or after
      `from`. */
  ghost predicate LaunchedFirst(trace: seq<Command>, from: nat)
  {
    forall k :: from <= k < |trace| && trace[k].Exec? ==> trace[k].name in Launched(trace[from..k])
  }

  /** The state after creating `created`, starting from the fleet `cs` and
      the trace `t0`: the fleet grew by exactly those containers, each
      launched since `t0`, the trace only grew, and only SSH setup commands
      with `key` ran inside containers, each in a container this run
      created and launched earlier. */
  ghost predicate Grown(fleet: seq<Container>, trace: seq<Command>, cs: seq<Container>, t0: seq<Command>,
                        key: string, created: seq<string>)
  {
    && Extends(fleet, cs, created)
    && |trace| >= |t0| && trace[..|t0|] == t0
    && InsideOnly(trace, |t0|, key, created)
    && LaunchedFirst(trace, |t0|)
    && (forall n :: n in created ==> n in Launched(trace[|t0|..]))
  }

  /** What `container_setup_ssh` and the address lookup of `main` issue
      for `n` when nothing fails: the six SSH setup commands, then one
      listing of `n`. */
  function SetupTrace(n: string, key: string): seq<Command>
  {
    SshCommands(n, key) + [List(n)]
  }

  /** `trace` holds the whole setup of `n` at position `j`. */
  ghost predicate SetUpAt(trace: seq<Command>, j: nat, key: string, n: string)
  {
    j + |SetupTrace(n, key)| <= |trace| && trace[j..j + |SetupTrace(n, key)|] == SetupTrace(n, key)
  }

  /** Each of `names` had its whole setup, in one piece, from position
      `from` of `trace` on. */
  ghost predicate SetUp(trace: seq<Command>, from: nat, key: string, names: seq<string>)
  {
    forall n :: n in names ==> exists j: nat :: from <= j && SetUpAt(trace, j, key, n)
  }

  /** A setup stays in the trace as the trace grows. */
  lemma SetUpExtends(t: seq<Command>, u: seq<Command>, from: nat, key: string, names: seq<string>)
    requires SetUp(t, from, key, names)
    requires |t| <= |u| && u[..|t|] == t
    ensures SetUp(u, from, key, names)
  {
    forall n | n in names ensures exists j: nat :: from <= j && SetUpAt(u, j, key, n) {
      var j: nat :| from <= j && SetUpAt(t, j, key, n);
      var m := |SetupTrace(n, key)|;
      assert u[j..j + m] == u[..|t|][j..j + m];
      assert SetUpAt(u, j, key, n);
    }
  }

  /** A setup of `n` found in the trace joins the set-up names. */
  lemma SetUpAdd(t: seq<Command>, from: nat, key: string, names: seq<string>, n: string, j: nat)
    requires SetUp(t, from, key, names)
    requires from <= j && SetUpAt(t, j, key, n)
    ensures SetUp(t, from, key, names + [n])
  {
  }

  /** Each of `names` is Running in `fleet`. */
  ghost predicate AllRunning(fleet: seq<Container>, names: seq<string>)
  {
    forall n :: n in names ==> IsRunning(fleet, n)
  }

  /** Appending commands that run inside containers only as allowed keeps
      the state grown. */
  lemma GrownAppend(fleet: seq<Container>, t: seq<Command>, cs: seq<Container>, t0: seq<Command>, key: string,
                    created: seq<string>, seg: seq<Command>)
    requires Grown(fleet, t, cs, t0, key, created)
    requires InsideOnly(seg, 0, key, created)
    ensures Grown(fleet, t + seg, cs, t0, key, created)
    ensures Launched((t + seg)[|t0|..]) == Launched(t[|t0|..]) + Launched(seg)
  {
    var u := t + seg;
    assert u[..|t0|] == t[..|t0|];
    assert u[|t0|..] == t[|t0|..] + seg;
    LaunchedAppend(t[|t0|..], seg);
    forall k | |t0| <= k < |u| && u[k].Exec?
      ensures u[k].name in created && u[k] in SshCommands(u[k].name, key)
      ensures u[k].name in Launched(u[|t0|..k])
    {
      if k < |t| {
        assert u[k] == t[k];
        assert u[|t0|..k] == t[|t0|..k];
      } else {
        assert u[k] == seg[k - |t|];
        assert u[|t0|..k] == t[|t0|..] + seg[..k - |t|];
        LaunchedAppend(t[|t0|..], seg[..k - |t|]);
      }
    }
  }

  /** A new container that was not there joins the created ones. */
  lemma GrownAdd(fleet: seq<Container>, fleet2: seq<Container>, t: seq<Command>, cs: seq<Container>,
                 t0: seq<Command>, key: string, created: seq<string>, name: string)
    requires Grown(fleet, t, cs, t0, key, created)
    requires NamesOf(fleet2) == NamesOf(fleet) + [name] && !Present(fleet, name)
    requires name in Launched(t[|t0|..])
    ensures Grown(fleet2, t, cs, t0, key, created + [name])
  {
  }

  /** `container_setup_ssh` runs only its own commands, in `name`. */
  lemma SshIssued(name: string, key: string, failing: iset<Command>, created: seq<string>)
    requires name in created
    ensures var ran := UntilFailure(SshCommands(name, key), failing);
            InsideOnly(ran, 0, key, created) && Launched(ran) == []
  {
    var cmds := SshCommands(name, key);
    var ran := UntilFailure(cmds, failing);
    UntilFailureSpec(cmds, failing);
    forall k | 0 <= k < |ran| ensures ran[k].Exec? && ran[k].name == name && ran[k] in cmds {
      assert ran[k] == cmds[k];
    }
    LaunchedNone(ran);
  }

  /** What `container_create` adds to the trace, a launch followed by
      listings, launches exactly that container and runs nothing inside
      one. */
  lemma CreateIssued(t: seq<Command>, t2: seq<Command>, name: string, image: string, instanceType: string,
                     key: string, created: seq<string>)
    requires |t2| > |t| && t2[..|t|] == t && t2[|t|] == Launch(image, name, instanceType)
    requires forall k :: |t| < k < |t2| ==> t2[k] == List(name)
    ensures t2 == t + t2[|t|..] && InsideOnly(t2[|t|..], 0, key, created)
    ensures Launched(t2) == Launched(t) + [name] && Launched(t2[|t|..]) == [name]
  {
    var seg := t2[|t|..];
    assert t2 == t + seg;
    forall k | 0 <= k < |seg| ensures !seg[k].Exec? && (k > 0 ==> !seg[k].Launch?) {
      assert seg[k] == t2[|t| + k];
    }
    var tail := seg[1..];
    assert seg == [seg[0]] + tail;
    LaunchedNone(tail);
    LaunchedAppend([seg[0]], tail);
    LaunchedAppend(t, seg);
  }

  /** The SSH setup of a created container keeps the run's state grown
      and launches nothing. */
  lemma SshKeepsGrown(fleet: seq<Container>, t: seq<Command>, cs: seq<Container>, t0: seq<Command>, key: string,
                      created: seq<string>, name: string, failing: iset<Command>)
    requires Grown(fleet, t, cs, t0, key, created) && name in created
    ensures var ran := UntilFailure(SshCommands(name, key), failing);
            Grown(fleet, t + ran, cs, t0, key, created) && Launched(t + ran) == Launched(t)
  {
    var ran := UntilFailure(SshCommands(name, key), failing);
    SshIssued(name, key, failing, created);
    GrownAppend(fleet, t, cs, t0, key, created, ran);
    LaunchedAppend(t, ran);
  }

  /** When no SSH setup command failed, the setup and the listing of the
      address lookup keep the run's state grown, launch nothing, and are
      the whole setup of `name`. */
  lemma ListKeepsGrown(fleet: seq<Container>, t: seq<Command>, cs: seq<Container>, t0: seq<Command>, key: string,
                       created: seq<string>, name: string, failing: iset<Command>)
    requires Grown(fleet, t, cs, t0, key, created) && name in created
    requires !AnyFails(SshCommands(name, key), failing)
    ensures var ran := UntilFailure(SshCommands(name, key), failing);
            && ran + [List(name)] == SetupTrace(name, key)
            && t + ran + [List(name)] == t + SetupTrace(name, key)
            && Grown(fleet, t + SetupTrace(name, key), cs, t0, key, created)
            && Launched(t + SetupTrace(name, key)) == Launched(t)
  {
    var ran := UntilFailure(SshCommands(name, key), failing);
    UntilFailureSpec(SshCommands(name, key), failing);
    SshKeepsGrown(fleet, t, cs, t0, key, created, name, failing);
    assert InsideOnly([List(name)], 0, key, created);
    GrownAppend(fleet, t + ran, cs, t0, key, created, [List(name)]);
    LaunchedAppend(t + ran, [List(name)]);
    assert t + ran + [List(name)] == t + SetupTrace(name, key);
  }

  /** `container_create` for `name`, after `created` were created: the
      fleet grows by `name` unless the launch failed before it. */
  method Boot(hv: Hypervisor, name: string, image: string, instanceType: string, key: string,
              ghost cs: seq<Container>, ghost t0: seq<Command>, ghost created: seq<string>)
    returns (r: Result<(), Fatal>)
    requires hv.Valid() && Grown(hv.containers, hv.trace, cs, t0, key, created)
    modifies hv
    ensures hv.Valid()
    ensures r.Ok? ==> Grown(hv.containers, hv.trace, cs, t0, key, created + [name]) &&
                      Launched(hv.trace) == Launched(old(hv.trace)) + [name]
    ensures r.Ok? ==> IsRunning(hv.containers, name)
    ensures forall n :: IsRunning(old(hv.containers), n) ==> IsRunning(hv.containers, n)
    ensures |hv.trace| > |old(hv.trace)| && hv.trace[..|old(hv.trace)|] == old(hv.trace)
    ensures hv.trace[|old(hv.trace)|] == Launch(image, name, instanceType)
    ensures forall k :: |old(hv.trace)| < k < |hv.trace| ==> hv.trace[k] == List(name)
    ensures r.Err? ==> r.error == SystemExit(1) &&
                       (Grown(hv.containers, hv.trace, cs, t0, key, created) ||
                        Grown(hv.containers, hv.trace, cs, t0, key, created + [name]))
  {
    ghost var f1, t1 := hv.containers, hv.trace;
    r := ContainerCreate(hv, name, image, instanceType);
    CreateIssued(t1, hv.trace, name, image, instanceType, key, created);
    GrownAppend(f1, t1, cs, t0, key, created, hv.trace[|t1|..]);
    if NamesOf(hv.containers) != NamesOf(f1) {
      GrownAdd(f1, hv.containers, hv.trace, cs, t0, key, created, name);
    }
  }

  /** `container_setup_ssh` and the address lookup for `name`, once it is
      among the containers `next` created and is Running: the SSH setup
      commands run until the first failure, and only when none failed
      comes the listing of the address lookup; the fleet stays as it is. */
  method Configure(hv: Hypervisor, name: string, key: string,
                   ghost cs: seq<Container>, ghost t0: seq<Command>, ghost next: seq<string>)
    returns (r: Result<(), Fatal>)
    requires hv.Valid() && Grown(hv.containers, hv.trace, cs, t0, key, next) && name in next
    requires IsRunning(hv.containers, name)
    modifies hv
    ensures hv.Valid() && hv.containers == old(hv.containers)
    ensures hv.trace == old(hv.trace) + UntilFailure(SshCommands(name, key), hv.failing) +
                        (if AnyFails(SshCommands(name, key), hv.failing) then [] else [List(name)])
    ensures r.Ok? ==> hv.trace == old(hv.trace) + SetupTrace(name, key)
    ensures Grown(hv.containers, hv.trace, cs, t0, key, next) && Launched(hv.trace) == Launched(old(hv.trace))
    ensures r.Err? ==> r.error == SystemExit(1) || r.error.Lookup?
  {
    ghost var t2 := hv.trace;
    r := ContainerSetupSsh(hv, name, key);
    SshKeepsGrown(hv.containers, t2, cs, t0, key, next, name, hv.failing);
    if r.Err? {
      return;
    }
    ghost var t3 := hv.trace;
    var info := ContainerInfo(hv, name);
    ListKeepsGrown(hv.containers, t2, cs, t0, key, next, name, hv.failing);
    if info.Err? {
      return Err(info.error);
    }
    match Ipv4Of(info.value)
    case Err(e) => r := Err(Lookup(e));
    case Ok(_) => r := Ok(());
  }

  /** `container_create`, `container_setup_ssh` and the address lookup for
      `name`, after `created` were created. On success the trace grew by
      the launch, the status polls, and the whole setup of `name`, in that
      order. */
  method Provision(hv: Hypervisor, name: string, image: string, instanceType: string, key: string,
                   ghost cs: seq<Container>, ghost t0: seq<Command>, ghost created: seq<string>)
    returns (r: Result<(), Fatal>)
    requires hv.Valid() && Grown(hv.containers, hv.trace, cs, t0, key, created)
    requires AllRunning(hv.containers, created)
    modifies hv
    ensures hv.Valid()
    ensures r.Ok? ==> Grown(hv.containers, hv.trace, cs, t0, key, created + [name]) &&
                      Launched(hv.trace) == Launched(old(hv.trace)) + [name]
    ensures r.Ok? ==> AllRunning(hv.containers, created + [name])
    ensures Provisioned(old(hv.trace), hv.trace, name, image, instanceType, key, r.Ok?)
    ensures LaunchesFrom(hv.trace, |old(hv.trace)|, image, instanceType)
    ensures r.Err? ==> Grown(hv.containers, hv.trace, cs, t0, key, created) ||
                       Grown(hv.containers, hv.trace, cs, t0, key, created + [name])
    ensures r.Err? ==> r.error == SystemExit(1) || r.error.Lookup?
  {
    r := Boot(hv, name, image, instanceType, key, cs, t0, created);
    ghost var t1 := hv.trace;
    if r.Err? {
      ProvisionLaunches(old(hv.trace), t1, t1, name, image, instanceType);
      return;
    }
    r := Configure(hv, name, key, cs, t0, created + [name]);
    BootThenSetup(old(hv.trace), t1, hv.trace, name, image, instanceType, key, r.Ok?);
    ProvisionLaunches(old(hv.trace), t1, hv.trace, name, image, instanceType);
  }

  /** A launch of `name` with `image` and `instanceType` followed by its
      status listings (`tb` to `t1`), then commands that launch nothing,
      launch with that image and type only. */
  lemma ProvisionLaunches(tb: seq<Command>, t1: seq<Command>, u: seq<Command>, name: string, image: string,
                          instanceType: string)
    requires |t1| > |tb| && t1[|tb|] == Launch(image, name, instanceType)
    requires forall k :: |tb| < k < |t1| ==> t1[k] == List(name)
    requires |t1| <= |u| && u[..|t1|] == t1 && Launched(u) == Launched(t1)
    ensures LaunchesFrom(u, |tb|, image, instanceType)
  {
    assert u == t1 + u[|t1|..];
    LaunchedAppend(t1, u[|t1|..]);
    LaunchedEmpty(u[|t1|..]);
    forall k | |tb| <= k < |t1| ensures u[k] == t1[k] {
      assert u[k] == u[..|t1|][k];
    }
    forall k | |t1| <= k < |u| ensures !u[k].Launch? {
      assert u[k] == u[|t1|..][k - |t1|];
    }
  }

  /** The trace `u` after provisioning `name` from `tb`: it extends `tb`
      and starts with the launch; when the provisioning succeeded (`ok`) the
      launch is followed by status polls only, then by the whole setup of
      `name`, which ends the trace. */
  ghost predicate Provisioned(tb: seq<Command>, u: seq<Command>, name: string, image: string,
                              instanceType: string, key: string, ok: bool)
  {
    && |u| > |tb| && u[..|tb|] == tb && u[|tb|] == Launch(image, name, instanceType)
    && (ok ==> var m := |u| - |SetupTrace(name, key)|;
               && |tb| < m && u[m..] == SetupTrace(name, key)
               && forall k :: |tb| < k < m ==> u[k] == List(name))
  }

  /** The trace `u` after booting `name` from `tb` to `t1` and then setting
      it up: the launch, then the status polls, then (when `ok`) the whole
      setup. */
  lemma BootThenSetup(tb: seq<Command>, t1: seq<Command>, u: seq<Command>, name: string, image: string,
                      instanceType: string, key: string, ok: bool)
    requires |t1| > |tb| && t1[..|tb|] == tb && t1[|tb|] == Launch(image, name, instanceType)
    requires forall k :: |tb| < k < |t1| ==> t1[k] == List(name)
    requires |u| >= |t1| && u[..|t1|] == t1
    requires ok ==> u == t1 + SetupTrace(name, key)
    ensures Provisioned(tb, u, name, image, instanceType, key, ok)
  {
    assert u[..|tb|] == t1[..|tb|];
    assert u[|tb|] == t1[|tb|];
    if ok {
      assert |u| - |SetupTrace(name, key)| == |t1|;
      forall k | |tb| < k < |t1| ensures u[k] == List(name) {
        assert u[k] == t1[k];
      }
    }
  }

  /** The trace `u` after provisioning `name` from `tp`, which extends
      `tb` by at most one command: earlier setups stay, and a successful
      provisioning, which ends with the whole setup of `name`, adds it. */
  lemma ProvisionSetUp(tb: seq<Command>, tp: seq<Command>, u: seq<Command>, from: nat, key: string,
                       created: seq<string>, name: string, image: string, instanceType: string, ok: bool)
    requires SetUp(tb, from, key, created) && from <= |tb|
    requires |tb| <= |tp| <= |tb| + 1 && tp[..|tb|] == tb
    requires Provisioned(tp, u, name, image, instanceType, key, ok)
    ensures u[|tp|] == Launch(image, name, instanceType)
    ensures u[..|tb|] == tb && (|tp| > |tb| ==> u[|tb|] == tp[|tb|])
    ensures SetUp(u, from, key, created)
    ensures ok ==> SetUp(u, from, key, created + [name])
  {
    assert u[..|tb|] == tb by {
      assert tp[..|tb|] == tb;
    }
    if |tp| > |tb| {
      assert u[|tb|] == u[..|tp|][|tb|];
    }
    SetUpExtends(tb, u, from, key, created);
    if ok {
      var m := |u| - |SetupTrace(name, key)|;
      assert u[m..m + |SetupTrace(name, key)|] == u[m..];
      SetUpAdd(u, from, key, created, name, m);
    }
  }

  /** `container_exists(name)` under `--ignore-existing`, after `created`
      were created: one listing, true exactly when the run started with
      that container. */
  method Existing(hv: Hypervisor, name: string, key: string,
                  ghost cs: seq<Container>, ghost t0: seq<Command>, ghost created: seq<string>)
    returns (r: Result<bool, Fatal>)
    requires hv.Valid() && Grown(hv.containers, hv.trace, cs, t0, key, created) && name !in created
    requires SetUp(hv.trace, |t0|, key, created)
    modifies hv
    ensures hv.Valid() && hv.containers == old(hv.containers)
    ensures hv.trace == old(hv.trace) + [List(name)]
    ensures Grown(hv.containers, hv.trace, cs, t0, key, created) && Launched(hv.trace) == Launched(old(hv.trace))
    ensures SetUp(hv.trace, |t0|, key, created)
    ensures r.Ok? ==> (r.value <==> Present(cs, name))
    ensures r.Err? ==> r.error == SystemExit(1)
  {
    ghost var f1, t1 := hv.containers, hv.trace;
    r := ContainerExists(hv, name);
    assert InsideOnly([List(name)], 0, key, created);
    GrownAppend(f1, t1, cs, t0, key, created, [List(name)]);
    LaunchedAppend(t1, [List(name)]);
    assert hv.trace[..|t1|] == t1;
    SetUpExtends(t1, hv.trace, |t0|, key, created);
    if r.Ok? {
      if Present(cs, name) {
        ghost var k :| 0 <= k < |NamesOf(cs)| && NamesOf(cs)[k] == name;
        assert NamesOf(f1)[k] == name;
      }
      if r.value {
        ghost var k :| 0 <= k < |NamesOf(f1)| && NamesOf(f1)[k] == name;
        assert k < |NamesOf(cs)|;
        assert NamesOf(cs)[k] == name;
      }
    }
  }

  /** The body of the loop of `main` for `name`, after `created` were
      created: with `ignore`, an existing container is skipped; otherwise it
      is provisioned. */
  method CreateOne(hv: Hypervisor, name: string, image: string, instanceType: string, key: string, ignore: bool,
                   ghost cs: seq<Container>, ghost t0: seq<Command>, ghost created: seq<string>)
    returns (r: Result<(), Fatal>)
    requires hv.Valid() && Grown(hv.containers, hv.trace, cs, t0, key, created) && name !in created
    requires Launched(hv.trace) == Launched(t0) + created && AllRunning(hv.containers, created)
    requires SetUp(hv.trace, |t0|, key, created)
    modifies hv
    ensures hv.Valid()
    ensures var next := if ignore && Present(cs, name) then created else created + [name];
            && (r.Ok? ==> Grown(hv.containers, hv.trace, cs, t0, key, next) &&
                          Launched(hv.trace) == Launched(t0) + next && AllRunning(hv.containers, next) &&
                          SetUp(hv.trace, |t0|, key, next))
            && (r.Err? ==> Grown(hv.containers, hv.trace, cs, t0, key, created) ||
                           Grown(hv.containers, hv.trace, cs, t0, key, next))
            && SetUp(hv.trace, |t0|, key, created)
    ensures |hv.trace| > |old(hv.trace)| &&
            hv.trace[|old(hv.trace)|] == if ignore then List(name) else Launch(image, name, instanceType)
    ensures hv.trace[..|old(hv.trace)|] == old(hv.trace) && LaunchesFrom(hv.trace, |old(hv.trace)|, image, instanceType)
    ensures r.Err? ==> r.error == SystemExit(1) || r.error.Lookup?
  {
    ghost var tb := hv.trace;
    if ignore {
      var found :- Existing(hv, name, key, cs, t0, created);
      if found {
        return Ok(());
      }
    }
    ghost var tp := hv.trace;
    r := Provision(hv, name, image, instanceType, key, cs, t0, created);
    AppendAssoc(Launched(t0), created, [name]);
    ProvisionSetUp(tb, tp, hv.trace, |t0|, key, created, name, image, instanceType, r.Ok?);
    LaunchesJoin(tp, hv.trace, |tb|, image, instanceType);
  }

  /** The next name of the loop of `main` has not been created yet, and it
      is created next unless `ignore` skips it. */
  lemma NextTarget(cs: seq<Container>, names: seq<string>, i: nat, ignore: bool)
    requires i < |names| && Distinct(names)
    ensures names[i] !in Targets(cs, names, i, ignore)
    ensures Targets(cs, names, i + 1, ignore) ==
              if ignore && Present(cs, names[i]) then Targets(cs, names, i, ignore)
              else Targets(cs, names, i, ignore) + [names[i]]
  {
    TargetsSpec(cs, names, i, ignore);
  }

  /** The state a run of the loop of `main` leaves behind, for the names
      `targets` it is to create: all of them when it completed (`ok`),
      launched in order, each set up and all Running; otherwise a prefix of
      them, each set up except perhaps the last. */
  ghost predicate Outcome(fleet: seq<Container>, trace: seq<Command>, cs: seq<Container>, t0: seq<Command>,
                          key: string, targets: seq<string>, ok: bool)
  {
    if ok then Grown(fleet, trace, cs, t0, key, targets) && Launched(trace) == Launched(t0) + targets &&
               AllRunning(fleet, targets) && SetUp(trace, |t0|, key, targets)
    else exists j, k :: 0 <= k <= j <= |targets| && j <= k + 1 &&
                        Grown(fleet, trace, cs, t0, key, targets[..j]) && SetUp(trace, |t0|, key, targets[..k])
  }

  /** A run that stops after `i` names has created a prefix of what the
      whole run is to create. */
  lemma FailedPrefix(fleet: seq<Container>, trace: seq<Command>, cs: seq<Container>, t0: seq<Command>, key: string,
                     names: seq<string>, i: nat, ignore: bool)
    requires i < |names|
    requires Grown(fleet, trace, cs, t0, key, Targets(cs, names, i, ignore)) ||
             Grown(fleet, trace, cs, t0, key, Targets(cs, names, i + 1, ignore))
    requires SetUp(trace, |t0|, key, Targets(cs, names, i, ignore))
    ensures Outcome(fleet, trace, cs, t0, key, Targets(cs, names, |names|, ignore), false)
  {
    var targets := Targets(cs, names, |names|, ignore);
    TargetsPrefix(cs, names, i, |names|, ignore);
    TargetsPrefix(cs, names, i + 1, |names|, ignore);
    var a, b := |Targets(cs, names, i, ignore)|, |Targets(cs, names, i + 1, ignore)|;
    assert Targets(cs, names, i + 1, ignore) == Targets(cs, names, i, ignore) ||
           Targets(cs, names, i + 1, ignore) == Targets(cs, names, i, ignore) + [names[i]];
    assert SetUp(trace, |t0|, key, targets[..a]);
    if Grown(fleet, trace, cs, t0, key, Targets(cs, names, i, ignore)) {
      assert Grown(fleet, trace, cs, t0, key, targets[..a]);
    } else {
      assert Grown(fleet, trace, cs, t0, key, targets[..b]);
    }
  }

  /** One iteration of the loop of `main`, for the number `i`: on success
      the state has grown by the targets up to and including `i`; on a
      failure it has grown by some prefix of all targets. */
  method CreateStep(hv: Hypervisor, prefix: string, start: nat, end: nat, i: nat, image: string,
                    instanceType: string, key: string, ignore: bool,
                    ghost cs: seq<Container>, ghost t0: seq<Command>, ghost names: seq<string>,
                    ghost created: seq<string>)
    returns (r: Result<(), Fatal>)
    requires start <= i < end && names == NameRange(prefix, start, end) && Distinct(names)
    requires created == Targets(cs, names, i - start, ignore)
    requires hv.Valid() && Outcome(hv.containers, hv.trace, cs, t0, key, created, true)
    requires LaunchesFrom(hv.trace, |t0|, image, instanceType)
    modifies hv
    ensures hv.Valid()
    ensures LaunchesFrom(hv.trace, |t0|, image, instanceType)
    ensures r.Ok? ==> Outcome(hv.containers, hv.trace, cs, t0, key, Targets(cs, names, i - start + 1, ignore), true)
    ensures r.Err? ==> Outcome(hv.containers, hv.trace, cs, t0, key, Targets(cs, names, |names|, ignore), false)
    ensures r.Err? ==> r.error == SystemExit(1) || r.error.Lookup?
  {
    var name := RangeName(prefix, start, end, i);
    NextTarget(cs, names, i - start, ignore);
    ghost var tb := hv.trace;
    r := CreateOne(hv, name, image, instanceType, key, ignore, cs, t0, created);
    LaunchesJoin(tb, hv.trace, |t0|, image, instanceType);
    if r.Err? {
      FailedPrefix(hv.containers, hv.trace, cs, t0, key, names, i - start, ignore);
    }
  }

  /** The loop of `main` over `range(start, end)`, from the fleet `cs` and
      the trace `t0`. */
  method CreateLoop(hv: Hypervisor, prefix: string, start: nat, end: nat, image: string,
                    instanceType: string, key: string, ignore: bool,
                    ghost cs: seq<Container>, ghost t0: seq<Command>, ghost names: seq<string>)
    returns (r: Result<(), Fatal>)
    requires start <= end && names == NameRange(prefix, start, end)
    requires hv.Valid() && hv.containers == cs && hv.trace == t0
    modifies hv
    ensures hv.Valid()
    ensures Outcome(hv.containers, hv.trace, cs, t0, key, Targets(cs, names, |names|, ignore), r.Ok?)
    ensures LaunchesFrom(hv.trace, |t0|, image, instanceType)
    ensures r.Err? ==> r.error == SystemExit(1) || r.error.Lookup?
  {
    NameRangeDistinct(prefix, start, end);
    assert Outcome(cs, t0, cs, t0, key, [], true) by {
      assert t0[..|t0|] == t0;
    }
    var i := start;
    while i < end
      invariant start <= i <= end
      invariant hv.Valid()
      invariant Outcome(hv.containers, hv.trace, cs, t0, key, Targets(cs, names, i - start, ignore), true)
      invariant LaunchesFrom(hv.trace, |t0|, image, instanceType)
    {
      r := CreateStep(hv, prefix, start, end, i, image, instanceType, key, ignore,
                      cs, t0, names, Targets(cs, names, i - start, ignore));
      if r.Err? {
        return;
      }
      i := i + 1;
    }
    assert i - start == |names|;
    r := Ok(());
  }

  /** `main` after the key file was read (`None` when reading failed): the
      key is stripped of surrounding whitespace, then the loop over
      `range(start, start + count)` runs. */
  method CreateContainers(hv: Hypervisor, prefix: string, start: nat, count: int, image: string,
                          instanceType: string, keyText: Option<string>, ignore: bool)
    returns (r: Result<(), Fatal>)
    requires hv.Valid()
    modifies hv
    ensures hv.Valid()
    ensures keyText.None? ==>
              r == Err(SystemExit(1)) && hv.trace == old(hv.trace) && hv.containers == old(hv.containers)
    ensures keyText.Some? ==>
              var names := NameRange(prefix, start, RangeEnd(start, count));
              && Outcome(hv.containers, hv.trace, old(hv.containers), old(hv.trace), Strip(keyText.value),
                         Targets(old(hv.containers), names, |names|, ignore), r.Ok?)
              && LaunchesFrom(hv.trace, |old(hv.trace)|, image, instanceType)
    ensures r.Err? ==> r.error == SystemExit(1) || r.error.Lookup?
  {
    if keyText.None? {
      return Err(SystemExit(1));
    }
    var key := Strip(keyText.value);
    r := CreateLoop(hv, prefix, start, RangeEnd(start, count), image, instanceType, key, ignore,
                    hv.containers, hv.trace, NameRange(prefix, start, RangeEnd(start, count)));
  }

  /** A run that creates all its targets leaves every name of the range
      present and adds no other; without `--ignore-existing` none of the
      names was present before. */
  lemma CreateRange(cs: seq<Container>, fleet: seq<Container>, names: seq<string>, ignore: bool)
    requires Extends(fleet, cs, Targets(cs, names, |names|, ignore))
    ensures forall n :: Present(fleet, n) <==> Present(cs, n) || n in names
    ensures !ignore ==> forall n :: n in names ==> !Present(cs, n)
  {
    TargetsSpec(cs, names, |names|, ignore);
    assert names[..|names|] == names;
  }
}
