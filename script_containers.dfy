/** `script_containers.py`: reads a script file, then for every number in
    `range(start, start + count)` runs the script on the container
    `generate_name(prefix, i)` if that container exists. The fleet never
    changes, so what happens for one name does not depend on the others. */
module ScriptContainers {
  import opened Wrappers
  import opened Naming
  import opened Incus

  /** What one iteration issues, and whether it ends the process. */
  datatype Visit = Visit(issued: seq<Command>, halts: bool)

  /** The state of a run: the commands issued so far, and whether the
      process has ended. */
  datatype Run = Run(issued: seq<Command>, halted: bool)

  /** What `container_execute_script` issues for `name`: the push, the
      exec and the delete up to the first that fails. */
  function ScriptIssued(name: string, script: seq<bv8>, tmp: string, failing: iset<Command>): seq<Command>
  {
    var push, exec, delete := FilePush(name, tmp, script), Exec(name, ["bash", tmp]), FileDelete(name, tmp);
    if push in failing then [push]
    else if exec in failing then [push, exec]
    else [push, exec, delete]
  }

  /** One iteration for `name` on the fleet `cs`: `container_exists`, then
      the script when the container is there. A failed listing or a failed
      script command ends the process. */
  function VisitOf(cs: seq<Container>, name: string, script: seq<bv8>, tmp: string, failing: iset<Command>): Visit
  {
    if List(name) in failing then Visit([List(name)], true)
    else if !Present(cs, name) then Visit([List(name)], false)
    else
      Visit([List(name)] + ScriptIssued(name, script, tmp, failing),
            FilePush(name, tmp, script) in failing || Exec(name, ["bash", tmp]) in failing ||
            FileDelete(name, tmp) in failing)
  }

  /** The iterations for each of `names`, each on the unchanged fleet. */
  function VisitsOf(cs: seq<Container>, names: seq<string>, script: seq<bv8>, tmp: string,
                    failing: iset<Command>): (visits: seq<Visit>)
    ensures |visits| == |names|
  {
    if names == [] then []
    else [VisitOf(cs, names[0], script, tmp, failing)] + VisitsOf(cs, names[1..], script, tmp, failing)
  }

  lemma {:induction false} VisitsOfAt(cs: seq<Container>, names: seq<string>, script: seq<bv8>, tmp: string,
                                      failing: iset<Command>, k: nat)
    requires k < |names|
    ensures VisitsOf(cs, names, script, tmp, failing)[k] == VisitOf(cs, names[k], script, tmp, failing)
  {
    if k > 0 {
      VisitsOfAt(cs, names[1..], script, tmp, failing, k - 1);
    }
  }

  /** The run after one more iteration. */
  function Advance(s: Run, v: Visit): Run
  {
    Run(s.issued + v.issued, v.halts)
  }

  /** The run over the first `i` iterations: each one adds its commands,
      until one ends the process. */
  function Fold(visits: seq<Visit>, i: nat): Run
    requires i <= |visits|
  {
    if i == 0 then Run([], false)
    else
      var s := Fold(visits, i - 1);
      if s.halted then s else Advance(s, visits[i - 1])
  }

  /** The whole run of `main` over `range(start, start + count)`. */
  function ScriptAll(cs: seq<Container>, prefix: string, start: nat, count: int, script: seq<bv8>, tmp: string,
                     failing: iset<Command>): Run
  {
    var names := NameRange(prefix, start, RangeEnd(start, count));
    Fold(VisitsOf(cs, names, script, tmp, failing), |names|)
  }

  /** Once the process has ended, later iterations change nothing. */
  lemma {:induction false} HaltedStays(visits: seq<Visit>, i: nat, j: nat)
    requires i <= j <= |visits|
    ensures Fold(visits, i).halted ==> Fold(visits, j) == Fold(visits, i)
  {
    if i < j {
      HaltedStays(visits, i, j - 1);
    }
  }

  /** The hypervisor holds the fleet `cs` and the trace the run `run` leaves
      after the commands `before` that preceded the loop. */
  ghost predicate Mirrors(hv: Hypervisor, cs: seq<Container>, before: seq<Command>, run: Run)
    reads hv
  {
    hv.containers == cs && hv.trace == before + run.issued
  }

  /** The body of the loop of `main` for `name`: an absent container is
      skipped, an existing one runs the script. */
  method ScriptOne(hv: Hypervisor, name: string, script: seq<bv8>, tmp: string,
                   ghost cs: seq<Container>, ghost before: seq<Command>, ghost run: Run)
    returns (r: Result<(), Fatal>)
    requires hv.Valid() && Mirrors(hv, cs, before, run)
    modifies hv
    ensures hv.Valid() && Mirrors(hv, cs, before, Advance(run, VisitOf(cs, name, script, tmp, hv.failing)))
    ensures r.Err? <==> VisitOf(cs, name, script, tmp, hv.failing).halts
    ensures r.Err? ==> r.error == SystemExit(1)
  {
    AppendAssoc(before, run.issued, VisitOf(cs, name, script, tmp, hv.failing).issued);
    var found :- ContainerExists(hv, name);
    if !found {
      return Ok(());
    }
    ghost var ran := ScriptIssued(name, script, tmp, hv.failing);
    ScriptStopsAtFailure(name, script, tmp, hv.failing);
    ScriptFails(name, script, tmp, hv.failing);
    AppendAssoc(before + run.issued, [List(name)], ran);
    r := ContainerExecuteScript(hv, name, script, tmp);
  }

  /** `main` after the script file was read (`None` when reading failed):
      the loop over `range(start, start + count)`. */
  method ScriptContainers(hv: Hypervisor, prefix: string, start: nat, count: int, script: Option<seq<bv8>>,
                          tmp: string)
    returns (r: Result<(), Fatal>)
    requires hv.Valid()
    modifies hv
    ensures hv.Valid() && hv.containers == old(hv.containers)
    ensures script.None? ==> r == Err(SystemExit(1)) && hv.trace == old(hv.trace)
    ensures script.Some? ==>
              var run := ScriptAll(old(hv.containers), prefix, start, count, script.value, tmp, hv.failing);
              hv.trace == old(hv.trace) + run.issued && (r.Err? <==> run.halted)
    ensures r.Err? ==> r.error == SystemExit(1)
  {
    if script.None? {
      return Err(SystemExit(1));
    }
    var bytes := script.value;
    ghost var cs, t0 := hv.containers, hv.trace;
    ghost var names := NameRange(prefix, start, RangeEnd(start, count));
    ghost var visits := VisitsOf(cs, names, bytes, tmp, hv.failing);
    ghost var run := Fold(visits, 0);
    var i := start;
    while i < start + count
      invariant start <= i <= RangeEnd(start, count)
      invariant hv.Valid()
      invariant run == Fold(visits, i - start) && !run.halted
      invariant Mirrors(hv, cs, t0, run)
    {
      var name := RangeName(prefix, start, RangeEnd(start, count), i);
      r := ScriptOne(hv, name, bytes, tmp, cs, t0, run);
      VisitsOfAt(cs, names, bytes, tmp, hv.failing, i - start);
      run := Advance(run, visits[i - start]);
      if r.Err? {
        HaltedStays(visits, i - start + 1, |names|);
        return;
      }
      i := i + 1;
    }
    r := Ok(());
  }

  /** A visit probes its name exactly once. */
  lemma VisitProbes(cs: seq<Container>, name: string, script: seq<bv8>, tmp: string, failing: iset<Command>)
    ensures Probes(VisitOf(cs, name, script, tmp, failing).issued) == [name]
  {
    var push, exec, delete := FilePush(name, tmp, script), Exec(name, ["bash", tmp]), FileDelete(name, tmp);
    assert Probes([List(name)]) == [name];
    assert Probes([delete]) == [];
    assert [exec, delete][1..] == [delete];
    assert Probes([exec, delete]) == [];
    assert [push, exec, delete][1..] == [exec, delete];
    assert Probes([exec]) == [];
    assert [push, exec][1..] == [exec];
    ProbesAppend([List(name)], ScriptIssued(name, script, tmp, failing));
  }

  /** When every visit probes its own name, the names are probed once each,
      in the order visited, until the run ends; a run that does not end
      probes all of them. */
  lemma {:induction false} ProbesInOrder(visits: seq<Visit>, names: seq<string>, i: nat)
    requires |visits| == |names| && i <= |names|
    requires forall k :: 0 <= k < |visits| ==> Probes(visits[k].issued) == [names[k]]
    ensures var probes := Probes(Fold(visits, i).issued);
            |probes| <= i && probes == names[..|probes|]
    ensures !Fold(visits, i).halted ==> Probes(Fold(visits, i).issued) == names[..i]
  {
    if i > 0 {
      ProbesInOrder(visits, names, i - 1);
      var s := Fold(visits, i - 1);
      if !s.halted {
        ProbesAppend(s.issued, visits[i - 1].issued);
        assert names[..i] == names[..i - 1] + [names[i - 1]];
      }
    }
  }

  /** The script runs once on its own container, unless its push fails. */
  lemma ScriptRuns(name: string, script: seq<bv8>, tmp: string, failing: iset<Command>, n: string)
    ensures Runs(ScriptIssued(name, script, tmp, failing), n, tmp) ==
              if n == name && FilePush(name, tmp, script) !in failing then 1 else 0
  {
    var push, exec, delete := FilePush(name, tmp, script), Exec(name, ["bash", tmp]), FileDelete(name, tmp);
    assert Runs([push], n, tmp) == 0;
    if push !in failing {
      var rest := if exec in failing then [] else [delete];
      assert ScriptIssued(name, script, tmp, failing) == [push] + [exec] + rest;
      assert Runs(rest, n, tmp) == 0;
      RunsAppend([push] + [exec], rest, n, tmp);
      RunsAppend([push], [exec], n, tmp);
    }
  }

  /** The number of runs on `n` a visit of `name` should make: one when it
      is that container and the container exists. */
  function Due(cs: seq<Container>, name: string, n: string): nat
  {
    if n == name && Present(cs, n) then 1 else 0
  }

  /** A visit runs the script at most once, only on its own container and
      only if that container exists; a visit that does not end the process
      runs it exactly that many times. */
  lemma VisitRuns(cs: seq<Container>, name: string, script: seq<bv8>, tmp: string, failing: iset<Command>, n: string)
    ensures var v := VisitOf(cs, name, script, tmp, failing);
            Runs(v.issued, n, tmp) <= Due(cs, name, n) && (!v.halts ==> Runs(v.issued, n, tmp) == Due(cs, name, n))
  {
    assert Runs([List(name)], n, tmp) == 0;
    if List(name) !in failing && Present(cs, name) {
      ScriptRuns(name, script, tmp, failing, n);
      RunsAppend([List(name)], ScriptIssued(name, script, tmp, failing), n, tmp);
    }
  }

  /** Over distinct `names`, when each visit runs the script on `n` at most
      its due, the run does too; a run that does not end runs it on `n`
      exactly once if `n` was visited and exists, and never otherwise. */
  lemma {:induction false} RunsOnce(cs: seq<Container>, visits: seq<Visit>, names: seq<string>, tmp: string,
                                    i: nat, n: string)
    requires |visits| == |names| && i <= |names| && Distinct(names)
    requires forall k :: 0 <= k < |visits| ==>
               Runs(visits[k].issued, n, tmp) <= Due(cs, names[k], n) &&
               (!visits[k].halts ==> Runs(visits[k].issued, n, tmp) == Due(cs, names[k], n))
    ensures var run, want := Fold(visits, i), if n in names[..i] && Present(cs, n) then 1 else 0;
            Runs(run.issued, n, tmp) <= want && (!run.halted ==> Runs(run.issued, n, tmp) == want)
  {
    if i > 0 {
      RunsOnce(cs, visits, names, tmp, i - 1, n);
      var s := Fold(visits, i - 1);
      assert names[..i] == names[..i - 1] + [names[i - 1]];
      if n == names[i - 1] {
        assert n !in names[..i - 1];
      }
      if !s.halted {
        RunsAppend(s.issued, visits[i - 1].issued, n, tmp);
      }
    }
  }

  /** Every push carries the script bytes to `tmp`, and every exec runs the
      file pushed to that same container just before. */
  ghost predicate PushedBeforeRun(cmds: seq<Command>, script: seq<bv8>, tmp: string)
  {
    && (forall k :: 0 <= k < |cmds| && cmds[k].FilePush? ==> cmds[k] == FilePush(cmds[k].name, tmp, script))
    && (forall k :: 0 <= k < |cmds| && cmds[k].Exec? ==>
                      0 < k && cmds[k] == Exec(cmds[k].name, ["bash", tmp]) &&
                      cmds[k - 1] == FilePush(cmds[k].name, tmp, script))
  }

  /** Joining two such traces keeps the property. */
  lemma PushedAppend(a: seq<Command>, b: seq<Command>, script: seq<bv8>, tmp: string)
    requires PushedBeforeRun(a, script, tmp) && PushedBeforeRun(b, script, tmp)
    ensures PushedBeforeRun(a + b, script, tmp)
  {
    var c := a + b;
    forall k | 0 <= k < |c| && c[k].Exec?
      ensures 0 < k && c[k] == Exec(c[k].name, ["bash", tmp]) && c[k - 1] == FilePush(c[k].name, tmp, script)
    {
      if k >= |a| {
        assert c[k] == b[k - |a|];
        assert c[k - 1] == b[k - |a| - 1];
      }
    }
    forall k | 0 <= k < |c| && c[k].FilePush? ensures c[k] == FilePush(c[k].name, tmp, script) {
      if k >= |a| {
        assert c[k] == b[k - |a|];
      }
    }
  }

  /** A visit keeps the property. */
  lemma VisitPushed(cs: seq<Container>, name: string, script: seq<bv8>, tmp: string, failing: iset<Command>)
    ensures PushedBeforeRun(VisitOf(cs, name, script, tmp, failing).issued, script, tmp)
  {
    var push, exec, delete := FilePush(name, tmp, script), Exec(name, ["bash", tmp]), FileDelete(name, tmp);
    assert PushedBeforeRun([List(name)], script, tmp);
    assert PushedBeforeRun([List(name), push], script, tmp);
    assert PushedBeforeRun([List(name), push, exec], script, tmp);
    assert PushedBeforeRun([List(name), push, exec, delete], script, tmp);
    assert [List(name)] + [push] == [List(name), push];
    assert [List(name)] + [push, exec] == [List(name), push, exec];
    assert [List(name)] + [push, exec, delete] == [List(name), push, exec, delete];
  }

  /** When every visit keeps the property, so does the run. */
  lemma {:induction false} PushedInRun(visits: seq<Visit>, script: seq<bv8>, tmp: string, i: nat)
    requires i <= |visits|
    requires forall k :: 0 <= k < |visits| ==> PushedBeforeRun(visits[k].issued, script, tmp)
    ensures PushedBeforeRun(Fold(visits, i).issued, script, tmp)
  {
    if i > 0 {
      PushedInRun(visits, script, tmp, i - 1);
      var s := Fold(visits, i - 1);
      if !s.halted {
        PushedAppend(s.issued, visits[i - 1].issued, script, tmp);
      }
    }
  }

  /** For `range(start, start + count)`: the names are probed in ascending
      order, all of them unless the process ends; every existing container
      of the range runs the script exactly once when the process does not
      end and at most once otherwise, no other container runs it, and every
      run executes the same script bytes, pushed just before. */
  lemma ScriptRange(cs: seq<Container>, prefix: string, start: nat, count: int, script: seq<bv8>, tmp: string,
                    failing: iset<Command>, n: string)
    ensures var names := NameRange(prefix, start, RangeEnd(start, count));
            var run := ScriptAll(cs, prefix, start, count, script, tmp, failing);
            var probes := Probes(run.issued);
            var want := if n in names && Present(cs, n) then 1 else 0;
            && |probes| <= |names| && probes == names[..|probes|] && (!run.halted ==> probes == names)
            && Runs(run.issued, n, tmp) <= want && (!run.halted ==> Runs(run.issued, n, tmp) == want)
            && PushedBeforeRun(run.issued, script, tmp)
  {
    var names := NameRange(prefix, start, RangeEnd(start, count));
    var visits := VisitsOf(cs, names, script, tmp, failing);
    forall k | 0 <= k < |visits|
      ensures Probes(visits[k].issued) == [names[k]]
      ensures Runs(visits[k].issued, n, tmp) <= Due(cs, names[k], n)
      ensures !visits[k].halts ==> Runs(visits[k].issued, n, tmp) == Due(cs, names[k], n)
      ensures PushedBeforeRun(visits[k].issued, script, tmp)
    {
      VisitsOfAt(cs, names, script, tmp, failing, k);
      VisitProbes(cs, names[k], script, tmp, failing);
      VisitRuns(cs, names[k], script, tmp, failing, n);
      VisitPushed(cs, names[k], script, tmp, failing);
    }
    NameRangeDistinct(prefix, start, RangeEnd(start, count));
    assert names[..|names|] == names;
    ProbesInOrder(visits, names, |names|);
    RunsOnce(cs, visits, names, tmp, |names|, n);
    PushedInRun(visits, script, tmp, |names|);
  }
}
