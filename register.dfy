/** `create_and_register_checkmk.py`: create the monitoring folders, then
    register every existing container of a numbered range as a Checkmk host
    and run the agent install script in it. */
module Register {
  import opened Wrappers
  import opened Text
  import opened FolderPath
  import opened Naming
  import opened Incus
  import opened Checkmk

  /** `FOLDERS`: the folders a host may be filed in. */
  const Folders: seq<string> := [
    "~production~db", "~production~web", "~test~db", "~test~web",
    "~dev~db", "~dev~web", "~staging~db", "~staging~web"
  ]

  /** The first-level folder `create_folder_recursive` goes for, entry by
      entry of `Folders`. */
  const Tops: seq<string> := [
    "~production", "~production", "~test", "~test",
    "~dev", "~dev", "~staging", "~staging"
  ]

  /** The only folders the folder phase can create. */
  const Environments: set<string> := {"~production", "~test", "~dev", "~staging"}

  /** A two-level path `~a~b` goes for its strictly shorter prefix `~a`,
      and the server files the payload of `~a` under that very path. */
  lemma ShortPathTop(a: string, b: string, path: string, top: string)
    requires Sep !in a && Sep !in b
    requires path == [Sep] + a + [Sep] + b && top == [Sep] + a
    ensures FirstLevelFolder(path) == Some(top)
    ensures PathOf(PayloadFor(top)) == top && |top| < |path|
  {
    var parts := ["", a, b];
    assert parts[1..] == [a, b] && [a, b][1..] == [b];
    assert Join([a, b], Sep) == a + [Sep] + b;
    assert Join(parts, Sep) == "" + [Sep] + (a + [Sep] + b);
    assert path == Join(parts, Sep);
    SplitJoin(parts, Sep);
    PayloadOfShortPaths(a, b);
  }

  /** For every entry of `Folders`, the folder created is the entry's
      first segment, one of the four environments; the sub-folders `~db`
      and `~web` are never asked for. */
  lemma FoldersFirstLevel(k: nat)
    requires k < |Folders|
    ensures FirstLevelFolder(Folders[k]) == Some(Tops[k])
    ensures Tops[k] in Environments && |Tops[k]| < |Folders[k]|
    ensures PathOf(PayloadFor(Tops[k])) == Tops[k]
  {
    if k == 0 {
      ShortPathTop("production", "db", Folders[k], Tops[k]);
    } else if k == 1 {
      ShortPathTop("production", "web", Folders[k], Tops[k]);
    } else if k == 2 {
      ShortPathTop("test", "db", Folders[k], Tops[k]);
    } else if k == 3 {
      ShortPathTop("test", "web", Folders[k], Tops[k]);
    } else if k == 4 {
      ShortPathTop("dev", "db", Folders[k], Tops[k]);
    } else if k == 5 {
      ShortPathTop("dev", "web", Folders[k], Tops[k]);
    } else if k == 6 {
      ShortPathTop("staging", "db", Folders[k], Tops[k]);
    } else {
      ShortPathTop("staging", "web", Folders[k], Tops[k]);
    }
  }

  /** The resources of the GET requests in `log`, in order. */
  function Gets(log: seq<Request>): seq<Resource>
  {
    if log == [] then []
    else Gets(log[..|log| - 1]) + (if log[|log| - 1].Get? then [log[|log| - 1].resource] else [])
  }

  lemma {:induction false} GetsAppend(a: seq<Request>, b: seq<Request>)
    ensures Gets(a + b) == Gets(a) + Gets(b)
  {
    if b == [] {
      assert a + b == a;
    } else {
      var init := b[..|b| - 1];
      assert (a + b)[..|a + b| - 1] == a + init;
      assert (a + b)[|a + b| - 1] == b[|b| - 1];
      GetsAppend(a, init);
    }
  }

  /** The host names of the `create_host` requests in `log`, in order. */
  function Filings(log: seq<Request>): seq<string>
  {
    if log == [] then []
    else Filings(log[..|log| - 1]) + Filing(log[|log| - 1])
  }

  /** The host name of `q` when it is a `create_host` request. */
  function Filing(q: Request): seq<string>
  {
    if q.Post? && q.resource == HostCollection && q.body.NewHost? then [q.body.hostName] else []
  }

  lemma {:induction false} FilingsAppend(a: seq<Request>, b: seq<Request>)
    ensures Filings(a + b) == Filings(a) + Filings(b)
  {
    if b == [] {
      assert a + b == a;
    } else {
      var init := b[..|b| - 1];
      assert (a + b)[..|a + b| - 1] == a + init;
      assert (a + b)[|a + b| - 1] == b[|b| - 1];
      FilingsAppend(a, init);
    }
  }

  /** The number of times `activate_changes` was called, read off its GET. */
  function Activations(gets: seq<Resource>): nat
  {
    multiset(gets)[ActivateChangesAction]
  }

  /** The folder probes of the first `k` passes of the folder loop, one
      per entry of `Folders`. */
  function ProbesUpTo(k: nat): (probes: seq<Resource>)
    requires k <= |Tops|
    ensures |probes| == k
    ensures forall j :: 0 <= j < k ==> probes[j] == FolderConfig(Tops[j])
  {
    if k == 0 then [] else ProbesUpTo(k - 1) + [FolderConfig(Tops[k - 1])]
  }

  /** The probes after one more pass of the folder loop. */
  lemma ProbesNext(gets0: seq<Resource>, gets1: seq<Resource>, gets2: seq<Resource>, k: nat)
    requires k < |Tops|
    requires gets1 == gets0 + ProbesUpTo(k) && gets2 == gets1 + [FolderConfig(Tops[k])]
    ensures gets2 == gets0 + ProbesUpTo(k + 1)
  {
    assert ProbesUpTo(k + 1) == ProbesUpTo(k) + [FolderConfig(Tops[k])];
  }

  /** One pass of the folder loop, for a `path` of `Folders` whose first
      level is `top`: the probe of `top`, which is created when it was
      missing and the server accepts it. `created` is the truthiness of
      `create_folder_recursive`'s result; a `CheckmkException` counts as
      false. */
  method FolderStep(api: CheckmkApi, path: string, top: string) returns (created: bool)
    requires FirstLevelFolder(path) == Some(top) && PathOf(PayloadFor(top)) == top
    modifies api.session
    ensures Gets(api.session.log) == Gets(old(api.session.log)) + [FolderConfig(top)]
    ensures Filings(api.session.log) == Filings(old(api.session.log))
    ensures api.session.hosts == old(api.session.hosts)
    ensures api.session.activations == old(api.session.activations)
    ensures created ==> top !in old(api.session.folders) &&
                        api.session.folders == old(api.session.folders) + {top}
    ensures !created ==> api.session.folders == old(api.session.folders)
  {
    ghost var log0 := api.session.log;
    label before:
    var r := api.CreateFolderRecursive(path);
    ghost var c :| api.CreatesFolder@before(top, c) && r == (if c.Ok? then Ok(Some(c.value)) else Err(c.error));
    created := r.Ok? && r.value == Some(true);
    ghost var rest := api.session.log[|log0| + 1..];
    assert api.session.log == log0 + [Get(FolderConfig(top), api.headers)] + rest;
    GetLogged(log0, Get(FolderConfig(top), api.headers), rest);
  }

  /** The server's folders grew from `folders0` to `folders` by
      environments only, and `changed` says whether they grew at all. */
  ghost predicate GrewBy(folders0: set<string>, folders: set<string>, changed: bool)
  {
    && folders0 <= folders && folders - folders0 <= Environments
    && (changed <==> folders != folders0)
  }

  /** One more folder step keeps `GrewBy`; a created folder sets `changed`. */
  lemma GrewStep(folders0: set<string>, folders1: set<string>, folders2: set<string>, changed: bool,
                 top: string, created: bool)
    requires GrewBy(folders0, folders1, changed) && top in Environments
    requires created ==> top !in folders1 && folders2 == folders1 + {top}
    requires !created ==> folders2 == folders1
    ensures GrewBy(folders0, folders2, changed || created)
  {
    if created {
      assert top in folders2 - folders0;
    }
  }

  /** The loop of the folder phase: each entry of `Folders` in order. The
      flag `changed` is set exactly when the server's folders grew, and
      they grow by environments only. */
  method CreateFolders(api: CheckmkApi) returns (changed: bool)
    modifies api.session
    ensures GrewBy(old(api.session.folders), api.session.folders, changed)
    ensures api.session.hosts == old(api.session.hosts)
    ensures api.session.activations == old(api.session.activations)
    ensures Gets(api.session.log) == Gets(old(api.session.log)) + ProbesUpTo(|Folders|)
    ensures Filings(api.session.log) == Filings(old(api.session.log))
  {
    ghost var folders0, log0 := api.session.folders, api.session.log;
    changed := false;
    for k := 0 to |Folders|
      invariant GrewBy(folders0, api.session.folders, changed)
      invariant api.session.hosts == old(api.session.hosts)
      invariant api.session.activations == old(api.session.activations)
      invariant Gets(api.session.log) == Gets(log0) + ProbesUpTo(k)
      invariant Filings(api.session.log) == Filings(log0)
    {
      ghost var folders1, gets1 := api.session.folders, Gets(api.session.log);
      FoldersFirstLevel(k);
      var created := FolderStep(api, Folders[k], Tops[k]);
      ProbesNext(Gets(log0), gets1, Gets(api.session.log), k);
      GrewStep(folders0, folders1, api.session.folders, changed, Tops[k], created);
      changed := changed || created;
    }
  }

  /** The folder phase of `main`: the folder loop, then one
      `activate_changes` exactly when some folder was created. */
  method FolderPhase(api: CheckmkApi) returns (changed: bool)
    modifies api.session
    ensures GrewBy(old(api.session.folders), api.session.folders, changed)
    ensures api.session.hosts == old(api.session.hosts)
    ensures Gets(api.session.log) ==
              Gets(old(api.session.log)) + ProbesUpTo(|Folders|) + (if changed then [ActivateChangesAction] else [])
    ensures Filings(api.session.log) == Filings(old(api.session.log))
    ensures !changed ==> api.session.activations == old(api.session.activations)
  {
    changed := CreateFolders(api);
    if changed {
      ghost var log1 := api.session.log;
      var _ := api.ActivateChanges();
      ghost var rest := api.session.log[|log1| + 1..];
      GetLogged(log1, Get(ActivateChangesAction, api.headers), rest);
      assert api.session.log == log1 + [Get(ActivateChangesAction, api.headers)] + rest;
    }
  }

  /** What the register loop may have done to the hosts, after visiting
      `done` in a fleet `cs`: the hosts known before are untouched, and every
      new host is an existing container among `done`, filed in one of
      `Folders` under that container's IPv4 address. */
  ghost predicate Enrolled(hosts0: map<string, HostAttributes>, hosts: map<string, HostAttributes>,
                           cs: seq<Container>, done: seq<string>)
  {
    && (forall h :: h in hosts0 ==> h in hosts && hosts[h] == hosts0[h])
    && (forall h :: h in hosts && h !in hosts0 ==>
          && h in done && Present(cs, h) && hosts[h].folder in Folders
          && Ipv4Of(FirstNamed(cs, h)) == Ok(hosts[h].ipAddress))
  }

  /** The number of script runs owed to `n` after visiting `done`: one if
      it was visited and exists. */
  function Due(cs: seq<Container>, done: seq<string>, n: string): nat
  {
    if n in done && Present(cs, n) then 1 else 0
  }

  /** The `has_host` probes of `n` among the GET resources `gets`. */
  function Asked(gets: seq<Resource>, n: string): nat
  {
    multiset(gets)[HostConfig(n)]
  }

  /** The `create_host` requests for `n` among the filings `posts`. */
  function Filed(posts: seq<string>, n: string): nat
  {
    multiset(posts)[n]
  }

  /** The number of `create_host` requests owed to `n` after visiting
      `done`: one if it was visited, exists, and was not a host at the
      start (`hosts0`). */
  function Unknown(cs: seq<Container>, hosts0: map<string, HostAttributes>, done: seq<string>, n: string): nat
  {
    if n in done && Present(cs, n) && n !in hosts0 then 1 else 0
  }

  /** The container a command is addressed to; for a listing, its filter. */
  function Subject(c: Command): string
  {
    match c
    case List(filter) => filter
    case Launch(_, name, _) => name
    case Exec(name, _) => name
    case FilePush(name, _, _) => name
    case FileDelete(name, _) => name
    case Remove(name) => name
  }

  /** A command the register loop may issue for the container it names: a
      listing, or, when that container exists in `cs`, one of the commands
      of `container_execute_script` with the install script `script`. */
  predicate VisitCommand(cs: seq<Container>, c: Command, script: seq<bv8>, tmp: string)
  {
    c == List(Subject(c)) || (Present(cs, Subject(c)) && c in ScriptCommands(Subject(c), script, tmp))
  }

  /** The command at position `k` of `trace`, issued since `t0` while
      visiting `done`: a listing of a visited name or one of the install
      script's commands in a visited existing container, and when it runs
      the script, the push of the bytes `script` to that container comes
      just before it. */
  predicate IssuedAt(t0: seq<Command>, trace: seq<Command>, k: int, cs: seq<Container>, done: seq<string>,
                     script: seq<bv8>, tmp: string)
  {
    && 0 <= k < |trace|
    && Subject(trace[k]) in done && VisitCommand(cs, trace[k], script, tmp)
    && (trace[k].Exec? ==> |t0| < k && trace[k - 1] == FilePush(trace[k].name, tmp, script))
  }

  /** The commands issued from `t0` to `trace` while visiting `done`: the
      trace only grew, and every new command is issued as `IssuedAt` says. */
  ghost predicate Issued(t0: seq<Command>, trace: seq<Command>, cs: seq<Container>, done: seq<string>,
                         script: seq<bv8>, tmp: string)
  {
    && |t0| <= |trace| && trace[..|t0|] == t0
    && (forall k :: |t0| <= k < |trace| ==> IssuedAt(t0, trace, k, cs, done, script, tmp))
  }

  /** Nothing visited, nothing issued. */
  lemma IssuedStart(t0: seq<Command>, cs: seq<Container>, script: seq<bv8>, tmp: string)
    ensures Issued(t0, t0, cs, [], script, tmp)
  {
  }

  /** What was issued for `done`, then for `name`, was issued for
      `done + [name]`. */
  lemma IssuedStep(t0: seq<Command>, t1: seq<Command>, t2: seq<Command>, cs: seq<Container>, done: seq<string>,
                   name: string, script: seq<bv8>, tmp: string)
    requires Issued(t0, t1, cs, done, script, tmp) && Issued(t1, t2, cs, [name], script, tmp)
    ensures Issued(t0, t2, cs, done + [name], script, tmp)
  {
    assert t2[..|t0|] == t1[..|t0|];
    forall k | |t0| <= k < |t2| ensures IssuedAt(t0, t2, k, cs, done + [name], script, tmp) {
      if k < |t1| {
        assert IssuedAt(t0, t1, k, cs, done, script, tmp);
        assert t2[k] == t2[..|t1|][k];
        if k > 0 {
          assert t2[k - 1] == t2[..|t1|][k - 1];
        }
      } else {
        assert IssuedAt(t1, t2, k, cs, [name], script, tmp);
      }
    }
  }

  /** A visit that only listed `name`. */
  lemma IssuedListings(t0: seq<Command>, seg: seq<Command>, cs: seq<Container>, name: string,
                       script: seq<bv8>, tmp: string)
    requires forall k :: 0 <= k < |seg| ==> seg[k] == List(name)
    ensures Issued(t0, t0 + seg, cs, [name], script, tmp)
  {
    assert (t0 + seg)[..|t0|] == t0;
    forall k | |t0| <= k < |t0 + seg| ensures IssuedAt(t0, t0 + seg, k, cs, [name], script, tmp) {
      assert (t0 + seg)[k] == seg[k - |t0|];
    }
  }

  /** A visit of the existing container `name` that listed it twice and
      then ran the install script until the first failure. */
  lemma IssuedScript(t0: seq<Command>, cs: seq<Container>, name: string, script: seq<bv8>, tmp: string,
                     failing: iset<Command>)
    requires Present(cs, name)
    ensures Issued(t0, t0 + [List(name), List(name)] + UntilFailure(ScriptCommands(name, script, tmp), failing),
                   cs, [name], script, tmp)
  {
    var push, exec, delete := FilePush(name, tmp, script), Exec(name, ["bash", tmp]), FileDelete(name, tmp);
    ScriptStopsAtFailure(name, script, tmp, failing);
    var full := [List(name), List(name), push, exec, delete];
    var seg := [List(name), List(name)] + UntilFailure(ScriptCommands(name, script, tmp), failing);
    assert seg == full[..3] || seg == full[..4] || seg == full;
    var u := t0 + seg;
    assert t0 + [List(name), List(name)] + UntilFailure(ScriptCommands(name, script, tmp), failing) == u;
    assert u[..|t0|] == t0;
    forall k | |t0| <= k < |u| ensures IssuedAt(t0, u, k, cs, [name], script, tmp) {
      assert u[k] == full[k - |t0|];
      if k - |t0| == 3 {
        assert u[k - 1] == full[2];
      }
    }
  }

  /** What was issued for `done` was issued for any `names` holding it. */
  lemma IssuedWiden(t0: seq<Command>, trace: seq<Command>, cs: seq<Container>, done: seq<string>,
                    names: seq<string>, script: seq<bv8>, tmp: string)
    requires forall n :: n in done ==> n in names
    requires Issued(t0, trace, cs, done, script, tmp)
    ensures Issued(t0, trace, cs, names, script, tmp)
  {
    forall k | |t0| <= k < |trace| ensures IssuedAt(t0, trace, k, cs, names, script, tmp) {
      assert IssuedAt(t0, trace, k, cs, done, script, tmp);
    }
  }

  /** The state after the register loop visited `done`, from the fleet
      `cs`, trace `t0`, hosts `hosts0`, GET log `gets0` and filings `posts0`:
      only the commands of the visits were issued, with the install script
      `script`; hosts enrolled as allowed, one activation call per new host,
      and on each visited existing container exactly once (`exact`) or at
      most once: the script run, the `has_host` probe, and the `create_host`
      request when it was not a host already. */
  ghost predicate Registered(cs: seq<Container>, t0: seq<Command>, hosts0: map<string, HostAttributes>,
                             gets0: seq<Resource>, posts0: seq<string>,
                             trace: seq<Command>, hosts: map<string, HostAttributes>,
                             gets: seq<Resource>, posts: seq<string>, done: seq<string>, script: seq<bv8>,
                             tmp: string, exact: bool)
  {
    && Issued(t0, trace, cs, done, script, tmp)
    && Enrolled(hosts0, hosts, cs, done)
    && Activations(gets) == Activations(gets0) + |hosts.Keys - hosts0.Keys|
    && (forall n :: Runs(trace, n, tmp) <= Runs(t0, n, tmp) + Due(cs, done, n))
    && (forall n :: Asked(gets, n) <= Asked(gets0, n) + Due(cs, done, n))
    && (forall n :: Filed(posts, n) <= Filed(posts0, n) + Unknown(cs, hosts0, done, n))
    && (exact ==> forall n :: Runs(trace, n, tmp) == Runs(t0, n, tmp) + Due(cs, done, n))
    && (exact ==> forall n :: Asked(gets, n) == Asked(gets0, n) + Due(cs, done, n))
    && (exact ==> forall n :: Filed(posts, n) == Filed(posts0, n) + Unknown(cs, hosts0, done, n))
  }

  /** Registration composes: visiting `done`, then `name` alone, is
      visiting `done + [name]` when `name` was not among `done`. */
  lemma RegisteredStep(cs: seq<Container>, t0: seq<Command>, hosts0: map<string, HostAttributes>,
                       gets0: seq<Resource>, posts0: seq<string>,
                       t1: seq<Command>, hosts1: map<string, HostAttributes>, gets1: seq<Resource>, posts1: seq<string>,
                       t2: seq<Command>, hosts2: map<string, HostAttributes>, gets2: seq<Resource>, posts2: seq<string>,
                       done: seq<string>, name: string, script: seq<bv8>, tmp: string, exact: bool)
    requires name !in done
    requires Registered(cs, t0, hosts0, gets0, posts0, t1, hosts1, gets1, posts1, done, script, tmp, true)
    requires Registered(cs, t1, hosts1, gets1, posts1, t2, hosts2, gets2, posts2, [name], script, tmp, exact)
    ensures Registered(cs, t0, hosts0, gets0, posts0, t2, hosts2, gets2, posts2, done + [name], script, tmp, exact)
  {
    var k0, k1, k2 := hosts0.Keys, hosts1.Keys, hosts2.Keys;
    assert k2 - k0 == (k2 - k1) + (k1 - k0);
    assert (k2 - k1) * (k1 - k0) == {};
    DueStep(cs, done, name);
    UnknownStep(cs, hosts0, hosts1, done, name);
    IssuedStep(t0, t1, t2, cs, done, name, script, tmp);
  }

  /** The visits owed to `done + [name]` are those owed to `done` and to
      `name`. */
  lemma DueStep(cs: seq<Container>, done: seq<string>, name: string)
    requires name !in done
    ensures forall n :: Due(cs, done + [name], n) == Due(cs, done, n) + Due(cs, [name], n)
  {
    forall n ensures Due(cs, done + [name], n) == Due(cs, done, n) + Due(cs, [name], n) {
      assert n in done + [name] <==> n in done || n == name;
      assert n in [name] <==> n == name;
    }
  }

  /** The creations owed to `done + [name]` from `hosts0` are those owed to
      `done` and those owed to `name` from the hosts `hosts1` after `done`,
      which knows `name` exactly when `hosts0` does. */
  lemma UnknownStep(cs: seq<Container>, hosts0: map<string, HostAttributes>, hosts1: map<string, HostAttributes>,
                    done: seq<string>, name: string)
    requires name !in done && Enrolled(hosts0, hosts1, cs, done)
    ensures forall n :: Unknown(cs, hosts0, done + [name], n) == Unknown(cs, hosts0, done, n) + Unknown(cs, hosts1, [name], n)
  {
    assert name in hosts1 <==> name in hosts0;
    forall n ensures Unknown(cs, hosts0, done + [name], n) == Unknown(cs, hosts0, done, n) + Unknown(cs, hosts1, [name], n) {
      assert n in done + [name] <==> n in done || n == name;
      assert n in [name] <==> n == name;
    }
  }

  /** One pass of the register loop over distinct `names`, for `names[k]`:
      the visited prefix grows by one; a pass that ended the run leaves the
      run within what visiting all of `names` allows. */
  lemma RegisteredNext(cs: seq<Container>, t0: seq<Command>, hosts0: map<string, HostAttributes>,
                       gets0: seq<Resource>, posts0: seq<string>,
                       t1: seq<Command>, hosts1: map<string, HostAttributes>, gets1: seq<Resource>, posts1: seq<string>,
                       t2: seq<Command>, hosts2: map<string, HostAttributes>, gets2: seq<Resource>, posts2: seq<string>,
                       names: seq<string>, k: nat, name: string, script: seq<bv8>, tmp: string, exact: bool)
    requires Distinct(names) && k < |names| && names[k] == name
    requires Registered(cs, t0, hosts0, gets0, posts0, t1, hosts1, gets1, posts1, names[..k], script, tmp, true)
    requires Registered(cs, t1, hosts1, gets1, posts1, t2, hosts2, gets2, posts2, [name], script, tmp, exact)
    ensures Registered(cs, t0, hosts0, gets0, posts0, t2, hosts2, gets2, posts2, names[..k + 1], script, tmp, exact)
    ensures !exact ==> Registered(cs, t0, hosts0, gets0, posts0, t2, hosts2, gets2, posts2, names, script, tmp, false)
  {
    assert names[k] !in names[..k];
    RegisteredStep(cs, t0, hosts0, gets0, posts0, t1, hosts1, gets1, posts1, t2, hosts2, gets2, posts2,
                   names[..k], names[k], script, tmp, exact);
    assert names[..k] + [names[k]] == names[..k + 1];
    if !exact {
      RegisteredWiden(cs, t0, hosts0, gets0, posts0, t2, hosts2, gets2, posts2, names[..k + 1], names, script, tmp);
    }
  }

  /** A request made of one GET followed by at most one POST that is not a
      `create_host` (a folder probe and its creation, or `activate_changes`)
      shows in the GET log as its GET, and files no host. */
  lemma GetLogged(log: seq<Request>, get: Request, rest: seq<Request>)
    requires get.Get?
    requires rest == [] || (|rest| == 1 && rest[0].Post? && rest[0].resource != HostCollection)
    ensures Gets(log + [get] + rest) == Gets(log) + [get.resource]
    ensures Filings(log + [get] + rest) == Filings(log)
  {
    assert Gets([get]) == [get.resource] && Filings([get]) == [] by {
      assert [get][..0] == [];
    }
    assert Gets(rest) == [] && Filings(rest) == [] by {
      if rest != [] {
        assert rest[..0] == [];
      }
    }
    GetsAppend(log, [get]);
    GetsAppend(log + [get], rest);
    FilingsAppend(log, [get]);
    FilingsAppend(log + [get], rest);
  }

  /** The hosts after enrolling `name` at `ip`: one new host filed in an
      entry of `Folders` when `created`, and no change otherwise. */
  lemma EnrolledOne(cs: seq<Container>, hosts0: map<string, HostAttributes>, hosts: map<string, HostAttributes>,
                    name: string, ip: string, folder: string, created: bool)
    requires Present(cs, name) && Ipv4Of(FirstNamed(cs, name)) == Ok(ip) && folder in Folders
    requires created ==> name !in hosts0 && hosts == hosts0[name := HostAttributes(folder, ip)]
    requires !created ==> hosts == hosts0
    ensures Enrolled(hosts0, hosts, cs, [name])
    ensures |hosts.Keys - hosts0.Keys| == if created then 1 else 0
  {
    if created {
      assert hosts.Keys - hosts0.Keys == {name};
    } else {
      assert hosts.Keys - hosts0.Keys == {};
    }
  }

  /** `has_host`, then `create_host` in an arbitrary entry `folder` of
      `Folders` when the host is unknown; `created` is True when the
      creation answered True, and a `CheckmkException` counts as false. */
  method AddHost(api: CheckmkApi, name: string, ip: string) returns (created: bool, ghost folder: string)
    modifies api.session
    ensures folder in Folders
    ensures api.session.folders == old(api.session.folders)
    ensures created ==> name !in old(api.session.hosts) &&
                        api.session.hosts == old(api.session.hosts)[name := HostAttributes(folder, ip)]
    ensures !created ==> api.session.hosts == old(api.session.hosts)
    ensures Gets(api.session.log) == Gets(old(api.session.log)) + [HostConfig(name)]
    ensures Filings(api.session.log) ==
              Filings(old(api.session.log)) + (if name in old(api.session.hosts) then [] else [name])
    ensures name in old(api.session.hosts) ==>
              api.session.log == old(api.session.log) + [Get(HostConfig(name), api.headers)]
    ensures name !in old(api.session.hosts) ==>
              api.session.log == old(api.session.log) + [Get(HostConfig(name), api.headers),
                                                         Post(HostCollection, api.headers, NewHost(folder, name, ip))]
  {
    ghost var log0 := api.session.log;
    var found := api.HasHost(name);
    ProbeLogged(log0, api.headers, name);
    ghost var log1 := api.session.log;
    created := false;
    // `random.choice(FOLDERS)`: any entry may be picked.
    assert Folders[0] in Folders;
    var pick :| pick in Folders;
    folder := pick;
    if !found {
      var c := api.CreateHost(name, ip, pick);
      FilingLogged(log0, api.headers, name, pick, ip);
      created := c.Ok? && c.value;
    }
  }

  /** A `has_host` probe adds its resource to the GETs and files nothing. */
  lemma ProbeLogged(log: seq<Request>, headers: Headers, name: string)
    ensures Gets(log + [Get(HostConfig(name), headers)]) == Gets(log) + [HostConfig(name)]
    ensures Filings(log + [Get(HostConfig(name), headers)]) == Filings(log)
  {
    GetsAppend(log, [Get(HostConfig(name), headers)]);
    FilingsAppend(log, [Get(HostConfig(name), headers)]);
    assert [Get(HostConfig(name), headers)][..0] == [];
  }

  /** A `has_host` probe then a `create_host` request: one GET of the host,
      one filing of its name. */
  lemma FilingLogged(log: seq<Request>, headers: Headers, name: string, folder: string, ip: string)
    ensures Gets(log + [Get(HostConfig(name), headers)] + [Post(HostCollection, headers, NewHost(folder, name, ip))])
            == Gets(log) + [HostConfig(name)]
    ensures Filings(log + [Get(HostConfig(name), headers)] + [Post(HostCollection, headers, NewHost(folder, name, ip))])
            == Filings(log) + [name]
  {
    var log1 := log + [Get(HostConfig(name), headers)];
    var post := [Post(HostCollection, headers, NewHost(folder, name, ip))];
    ProbeLogged(log, headers, name);
    GetsAppend(log1, post);
    FilingsAppend(log1, post);
    assert post[..0] == [];
  }

  /** The Checkmk part of the loop body for an existing container `name`
      at address `ip`: the host is added when unknown, then
      `activate_changes` runs exactly when that creation answered True
      (`created`). Exceptions are caught. */
  method EnrollHost(api: CheckmkApi, name: string, ip: string, ghost cs: seq<Container>)
    returns (created: bool)
    requires Present(cs, name) && Ipv4Of(FirstNamed(cs, name)) == Ok(ip)
    modifies api.session
    ensures api.session.folders == old(api.session.folders)
    ensures Enrolled(old(api.session.hosts), api.session.hosts, cs, [name])
    ensures |api.session.hosts.Keys - old(api.session.hosts).Keys| == if created then 1 else 0
    ensures Gets(api.session.log) ==
              Gets(old(api.session.log)) + [HostConfig(name)] + (if created then [ActivateChangesAction] else [])
    ensures Filings(api.session.log) ==
              Filings(old(api.session.log)) + (if name in old(api.session.hosts) then [] else [name])
  {
    ghost var hosts0 := api.session.hosts;
    ghost var folder;
    created, folder := AddHost(api, name, ip);
    EnrolledOne(cs, hosts0, api.session.hosts, name, ip, folder, created);
    if created {
      ghost var log2 := api.session.log;
      var _ := api.ActivateChanges();
      GetLogged(log2, Get(ActivateChangesAction, api.headers), api.session.log[|log2| + 1..]);
      assert api.session.log == log2 + [Get(ActivateChangesAction, api.headers)] + api.session.log[|log2| + 1..];
    }
  }

  /** A visit that only listed `name` changed nothing that `Registered`
      counts. */
  lemma Untouched(cs: seq<Container>, t0: seq<Command>, hosts0: map<string, HostAttributes>,
                  gets0: seq<Resource>, posts0: seq<string>, seg: seq<Command>, name: string, script: seq<bv8>, tmp: string, exact: bool)
    requires forall k :: 0 <= k < |seg| ==> seg[k] == List(name)
    requires exact ==> !Present(cs, name)
    ensures Registered(cs, t0, hosts0, gets0, posts0, t0 + seg, hosts0, gets0, posts0, [name], script, tmp, exact)
  {
    assert hosts0.Keys - hosts0.Keys == {};
    IssuedListings(t0, seg, cs, name, script, tmp);
    forall n ensures Runs(t0 + seg, n, tmp) == Runs(t0, n, tmp) {
      assert Exec(n, ["bash", tmp]) !in seg;
      RunsAppend(t0, seg, n, tmp);
    }
  }

  /** A visit of an existing container that enrolled it and ran the script
      (completely when `exact`). */
  lemma Scripted(cs: seq<Container>, t0: seq<Command>, hosts0: map<string, HostAttributes>, gets0: seq<Resource>,
                 posts0: seq<string>, trace: seq<Command>, hosts: map<string, HostAttributes>, gets: seq<Resource>,
                 posts: seq<string>, name: string, script: seq<bv8>, tmp: string, failing: iset<Command>,
                 created: bool, exact: bool)
    requires Present(cs, name)
    requires trace == t0 + [List(name), List(name)] + UntilFailure(ScriptCommands(name, script, tmp), failing)
    requires exact ==> !AnyFails(ScriptCommands(name, script, tmp), failing)
    requires Enrolled(hosts0, hosts, cs, [name]) && |hosts.Keys - hosts0.Keys| == (if created then 1 else 0)
    requires gets == gets0 + [HostConfig(name)] + (if created then [ActivateChangesAction] else [])
    requires posts == posts0 + (if name in hosts0 then [] else [name])
    ensures Registered(cs, t0, hosts0, gets0, posts0, trace, hosts, gets, posts, [name], script, tmp, exact)
  {
    EnrolmentCounted(cs, gets0, gets, name, created);
    IssuedScript(t0, cs, name, script, tmp, failing);
    FilingCounted(cs, hosts0, posts0, posts, name);
    forall n ensures Runs(trace, n, tmp) <= Runs(t0, n, tmp) + Due(cs, [name], n)
              && (exact ==> Runs(trace, n, tmp) == Runs(t0, n, tmp) + Due(cs, [name], n)) {
      ScriptRunsOnce(name, script, tmp, failing, n);
      assert Exec(n, ["bash", tmp]) !in [List(name), List(name)];
      RunsAppend(t0, [List(name), List(name)], n, tmp);
      RunsAppend(t0 + [List(name), List(name)], UntilFailure(ScriptCommands(name, script, tmp), failing), n, tmp);
    }
  }

  /** An enrolment of an existing `name` probes it once and calls
      `activate_changes` once when the host was `created`. */
  lemma EnrolmentCounted(cs: seq<Container>, gets0: seq<Resource>, gets: seq<Resource>, name: string, created: bool)
    requires Present(cs, name)
    requires gets == gets0 + [HostConfig(name)] + (if created then [ActivateChangesAction] else [])
    ensures Activations(gets) == Activations(gets0) + (if created then 1 else 0)
    ensures forall n :: Asked(gets, n) == Asked(gets0, n) + Due(cs, [name], n)
  {
    assert multiset(gets) == multiset(gets0) + multiset([HostConfig(name)]) +
                             multiset(if created then [ActivateChangesAction] else []);
  }

  /** An enrolment of an existing `name` files it once exactly when it was
      not a host. */
  lemma FilingCounted(cs: seq<Container>, hosts0: map<string, HostAttributes>, posts0: seq<string>,
                      posts: seq<string>, name: string)
    requires Present(cs, name)
    requires posts == posts0 + (if name in hosts0 then [] else [name])
    ensures forall n :: Filed(posts, n) == Filed(posts0, n) + Unknown(cs, hosts0, [name], n)
  {
    assert multiset(posts) == multiset(posts0) + multiset(if name in hosts0 then [] else [name]);
  }

  /** The body of the register loop for `name`. A missing container is
      skipped; otherwise its address is looked up, the host is enrolled, and
      the script runs. A failed `incus` command or a failed address lookup
      ends the run. */
  method RegisterOne(hv: Hypervisor, api: CheckmkApi, name: string, script: seq<bv8>, tmp: string)
    returns (r: Result<(), Fatal>)
    requires hv.Valid()
    modifies hv, api.session
    ensures hv.Valid() && hv.containers == old(hv.containers)
    ensures api.session.folders == old(api.session.folders)
    ensures Registered(hv.containers, old(hv.trace), old(api.session.hosts), Gets(old(api.session.log)),
                       Filings(old(api.session.log)), hv.trace, api.session.hosts, Gets(api.session.log),
                       Filings(api.session.log), [name], script, tmp, r.Ok?)
    ensures r.Err? ==> r.error == SystemExit(1) || r.error.Lookup?
    ensures !Present(hv.containers, name) ==>
              hv.trace == old(hv.trace) + [List(name)] && api.session.log == old(api.session.log)
  {
    ghost var cs, t0, hosts0, gets0 := hv.containers, hv.trace, api.session.hosts, Gets(api.session.log);
    ghost var posts0 := Filings(api.session.log);
    var present := ContainerExists(hv, name);
    if present.Err? || !present.value {
      Untouched(cs, t0, hosts0, gets0, posts0, [List(name)], name, script, tmp, present.Ok?);
      return if present.Err? then Err(present.error) else Ok(());
    }
    var ip := ContainerIpv4(hv, name);
    if ip.Err? {
      Untouched(cs, t0, hosts0, gets0, posts0, [List(name), List(name)], name, script, tmp, false);
      assert hv.trace == t0 + [List(name), List(name)];
      return Err(ip.error);
    }
    assert hv.trace == t0 + [List(name), List(name)];
    var created := EnrollHost(api, name, ip.value, cs);
    r := ContainerExecuteScript(hv, name, script, tmp);
    Scripted(cs, t0, hosts0, gets0, posts0, hv.trace, api.session.hosts, Gets(api.session.log),
             Filings(api.session.log), name, script, tmp, hv.failing, created, r.Ok?);
  }

  /** Nothing visited, nothing registered. */
  lemma RegisteredStart(cs: seq<Container>, t0: seq<Command>, hosts0: map<string, HostAttributes>,
                        gets0: seq<Resource>, posts0: seq<string>, script: seq<bv8>, tmp: string)
    ensures Registered(cs, t0, hosts0, gets0, posts0, t0, hosts0, gets0, posts0, [], script, tmp, true)
  {
    assert hosts0.Keys - hosts0.Keys == {};
    IssuedStart(t0, cs, script, tmp);
  }

  /** A run that stopped after visiting `done` stays within what visiting
      all of `names` allows. */
  lemma RegisteredWiden(cs: seq<Container>, t0: seq<Command>, hosts0: map<string, HostAttributes>,
                        gets0: seq<Resource>, posts0: seq<string>, trace: seq<Command>,
                        hosts: map<string, HostAttributes>, gets: seq<Resource>, posts: seq<string>,
                        done: seq<string>, names: seq<string>, script: seq<bv8>, tmp: string)
    requires forall n :: n in done ==> n in names
    requires Registered(cs, t0, hosts0, gets0, posts0, trace, hosts, gets, posts, done, script, tmp, false)
    ensures Registered(cs, t0, hosts0, gets0, posts0, trace, hosts, gets, posts, names, script, tmp, false)
  {
    forall n ensures Due(cs, done, n) <= Due(cs, names, n) && Unknown(cs, hosts0, done, n) <= Unknown(cs, hosts0, names, n) {
    }
    IssuedWiden(t0, trace, cs, done, names, script, tmp);
  }

  /** The register loop over `range(start, end)`, from the fleet `cs`, the
      trace `t0`, the hosts `hosts0` and the GET log `gets0`. */
  method RegisterLoop(hv: Hypervisor, api: CheckmkApi, prefix: string, start: nat, end: nat,
                      script: seq<bv8>, tmp: string, ghost cs: seq<Container>, ghost t0: seq<Command>,
                      ghost hosts0: map<string, HostAttributes>, ghost gets0: seq<Resource>,
                      ghost posts0: seq<string>, ghost names: seq<string>)
    returns (r: Result<(), Fatal>)
    requires start <= end && names == NameRange(prefix, start, end)
    requires hv.Valid() && hv.containers == cs && hv.trace == t0
    requires api.session.hosts == hosts0 && Gets(api.session.log) == gets0 && Filings(api.session.log) == posts0
    modifies hv, api.session
    ensures hv.Valid() && hv.containers == cs
    ensures api.session.folders == old(api.session.folders)
    ensures Registered(cs, t0, hosts0, gets0, posts0, hv.trace, api.session.hosts, Gets(api.session.log),
                       Filings(api.session.log), names, script, tmp, r.Ok?)
    ensures r.Err? ==> r.error == SystemExit(1) || r.error.Lookup?
  {
    NameRangeDistinct(prefix, start, end);
    RegisteredStart(cs, t0, hosts0, gets0, posts0, script, tmp);
    var i := start;
    assert names[..i - start] == [];
    while i < end
      invariant start <= i <= end
      invariant hv.Valid() && hv.containers == cs
      invariant api.session.folders == old(api.session.folders)
      invariant Registered(cs, t0, hosts0, gets0, posts0, hv.trace, api.session.hosts, Gets(api.session.log),
                           Filings(api.session.log), names[..i - start], script, tmp, true)
    {
      var name := RangeName(prefix, start, end, i);
      ghost var t1, hosts1, gets1, posts1 := hv.trace, api.session.hosts, Gets(api.session.log), Filings(api.session.log);
      r := RegisterOne(hv, api, name, script, tmp);
      RegisteredNext(cs, t0, hosts0, gets0, posts0, t1, hosts1, gets1, posts1, hv.trace, api.session.hosts,
                     Gets(api.session.log), Filings(api.session.log), names, i - start, name, script, tmp, r.Ok?);
      if r.Err? {
        return;
      }
      i := i + 1;
    }
    assert names[..i - start] == names;
    r := Ok(());
  }

  /** `main`, with the rendered install script as bytes and its temporary
      file at `tmp`: the folder phase, then the register loop over
      `range(start, start + count)`. Folders grow by environments only;
      the fleet is unchanged; every new host is an existing container of the
      range filed in an entry of `Folders` under its address; there is one
      activation for the folder phase exactly when folders were created and
      one per new host; and the script runs exactly once on every existing
      container of the range (at most once when the run ended early), and
      on no other. */
  method RegisterContainers(hv: Hypervisor, api: CheckmkApi, prefix: string, start: nat, count: int,
                            script: seq<bv8>, tmp: string)
    returns (r: Result<(), Fatal>)
    requires hv.Valid()
    modifies hv, api.session
    ensures hv.Valid() && hv.containers == old(hv.containers)
    ensures old(api.session.folders) <= api.session.folders
    ensures api.session.folders - old(api.session.folders) <= Environments
    ensures var changed := api.session.folders != old(api.session.folders);
            var gets0 := Gets(old(api.session.log)) + ProbesUpTo(|Folders|) +
                         (if changed then [ActivateChangesAction] else []);
            Registered(old(hv.containers), old(hv.trace), old(api.session.hosts), gets0,
                       Filings(old(api.session.log)), hv.trace, api.session.hosts, Gets(api.session.log),
                       Filings(api.session.log), NameRange(prefix, start, RangeEnd(start, count)), script, tmp, r.Ok?)
    ensures r.Err? ==> r.error == SystemExit(1) || r.error.Lookup?
  {
    var changed := FolderPhase(api);
    r := RegisterLoop(hv, api, prefix, start, RangeEnd(start, count), script, tmp,
                      hv.containers, hv.trace, api.session.hosts, Gets(api.session.log),
                      Filings(api.session.log), NameRange(prefix, start, RangeEnd(start, count)));
  }
}
