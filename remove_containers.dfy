/** `remove_containers.py`: for every number in `range(start, start + count)`
    the container `generate_name(prefix, i)` is removed if it exists. */
module RemoveContainers {
  import opened Wrappers
  import opened Naming
  import opened Incus

  /** The state of a run: the fleet, the commands issued so far, and
      whether the process has ended. */
  datatype Run = Run(fleet: seq<Container>, issued: seq<Command>, halted: bool)

  /** The commands of one iteration for `name` on the fleet `cs`:
      `container_exists`, then `container_remove` when the container is
      there; a failing listing ends the process before the removal. */
  function StepCommands(cs: seq<Container>, name: string, failing: iset<Command>): seq<Command>
  {
    if List(name) in failing || !Present(cs, name) then [List(name)] else [List(name), Remove(name)]
  }

  /** Whether one of those commands fails and ends the process. */
  function StepHalts(cs: seq<Container>, name: string, failing: iset<Command>): bool
  {
    List(name) in failing || (Present(cs, name) && Remove(name) in failing)
  }

  /** The fleet after that iteration. */
  function StepFleet(cs: seq<Container>, name: string, failing: iset<Command>): seq<Container>
  {
    if !StepHalts(cs, name, failing) && Present(cs, name) then RemoveNamed(cs, name) else cs
  }

  /** One iteration for `name`. */
  function RemoveStep(s: Run, name: string, failing: iset<Command>): Run
  {
    Run(StepFleet(s.fleet, name, failing), s.issued + StepCommands(s.fleet, name, failing),
        StepHalts(s.fleet, name, failing))
  }

  /** A step probes `name` exactly once. */
  lemma StepProbes(cs: seq<Container>, name: string, failing: iset<Command>)
    ensures Probes(StepCommands(cs, name, failing)) == [name]
  {
    assert Probes([List(name)]) == [name];
    assert Probes([List(name), Remove(name)]) == [name] by {
      assert [List(name), Remove(name)][1..] == [Remove(name)];
      assert Probes([Remove(name)]) == [];
    }
  }

  /** A step that does not end the run leaves no container of that name;
      no step adds a container or touches another name. */
  lemma StepClears(s: Run, name: string, failing: iset<Command>)
    ensures var t := RemoveStep(s, name, failing);
            && (!t.halted ==> !Present(t.fleet, name))
            && (forall n :: Present(t.fleet, n) ==> Present(s.fleet, n))
  {
    RemoveNamedSpec(s.fleet, name);
  }

  /** No step touches a name other than its own. */
  lemma StepKeeps(s: Run, name: string, failing: iset<Command>, n: string)
    requires n != name
    ensures FirstNamed(RemoveStep(s, name, failing).fleet, n) == FirstNamed(s.fleet, n)
  {
    RemoveNamedKeeps(s.fleet, name, n);
  }

  /** The run over the first `i` of the visited `names` on the fleet `cs`. */
  function RemoveRun(cs: seq<Container>, names: seq<string>, i: nat, failing: iset<Command>): Run
    requires i <= |names|
  {
    if i == 0 then Run(cs, [], false)
    else
      var s := RemoveRun(cs, names, i - 1, failing);
      if s.halted then s else RemoveStep(s, names[i - 1], failing)
  }

  /** An iteration of a run that has not ended is one more step. */
  lemma RunSnoc(cs: seq<Container>, names: seq<string>, i: nat, failing: iset<Command>)
    requires i < |names|
    requires !RemoveRun(cs, names, i, failing).halted
    ensures RemoveRun(cs, names, i + 1, failing) == RemoveStep(RemoveRun(cs, names, i, failing), names[i], failing)
  {
  }

  /** Once the process has ended, later iterations change nothing. */
  lemma {:induction false} HaltedStays(cs: seq<Container>, names: seq<string>, i: nat, j: nat,
                                      failing: iset<Command>)
    requires i <= j <= |names|
    ensures RemoveRun(cs, names, i, failing).halted ==>
              RemoveRun(cs, names, j, failing) == RemoveRun(cs, names, i, failing)
  {
    if i < j {
      HaltedStays(cs, names, i, j - 1, failing);
    }
  }

  /** The hypervisor is where the run `run` leaves it, after the commands
      `before` that preceded the loop. */
  ghost predicate Mirrors(hv: Hypervisor, before: seq<Command>, run: Run)
    reads hv
  {
    hv.containers == run.fleet && hv.trace == before + run.issued
  }

  /** The body of the loop of `main` for `name`: `container_exists`, then
      `container_remove` when the container is there. It takes the
      hypervisor one step of the run further. */
  method RemoveOne(hv: Hypervisor, name: string, ghost before: seq<Command>, ghost run: Run)
    returns (r: Result<(), Fatal>)
    requires hv.Valid() && Mirrors(hv, before, run)
    modifies hv
    ensures hv.Valid() && Mirrors(hv, before, RemoveStep(run, name, hv.failing))
    ensures r.Err? <==> RemoveStep(run, name, hv.failing).halted
    ensures r.Err? ==> r.error == SystemExit(1)
  {
    AppendAssoc(before, run.issued, StepCommands(run.fleet, name, hv.failing));
    var found :- ContainerExists(hv, name);
    if found {
      r := ContainerRemove(hv, name);
    } else {
      r := Ok(());
    }
  }

  /** The whole run of `main` over `range(start, start + count)`. */
  function RemoveAll(cs: seq<Container>, prefix: string, start: nat, count: int, failing: iset<Command>): Run
  {
    RemoveRun(cs, NameRange(prefix, start, RangeEnd(start, count)), RangeEnd(start, count) - start, failing)
  }

  /** A run that has ended, or has visited every name, is the whole run. */
  lemma RunFinished(cs: seq<Container>, prefix: string, start: nat, count: int, failing: iset<Command>,
                    k: nat, run: Run)
    requires k <= RangeEnd(start, count) - start
    requires run == RemoveRun(cs, NameRange(prefix, start, RangeEnd(start, count)), k, failing)
    requires run.halted || k == RangeEnd(start, count) - start
    ensures run == RemoveAll(cs, prefix, start, count, failing)
  {
    HaltedStays(cs, NameRange(prefix, start, RangeEnd(start, count)), k, RangeEnd(start, count) - start, failing);
  }

  /** The loop of `main`. */
  method RemoveContainers(hv: Hypervisor, prefix: string, start: nat, count: int) returns (r: Result<(), Fatal>)
    requires hv.Valid()
    modifies hv
    ensures hv.Valid()
    ensures var run := RemoveAll(old(hv.containers), prefix, start, count, hv.failing);
            && hv.containers == run.fleet
            && hv.trace == old(hv.trace) + run.issued
            && (r.Err? <==> run.halted)
    ensures r.Err? ==> r.error == SystemExit(1)
  {
    ghost var cs, t0 := hv.containers, hv.trace;
    ghost var names := NameRange(prefix, start, RangeEnd(start, count));
    ghost var run := RemoveRun(cs, names, 0, hv.failing);
    var i := start;
    while i < start + count
      invariant start <= i <= RangeEnd(start, count)
      invariant hv.Valid()
      invariant run == RemoveRun(cs, names, i - start, hv.failing) && !run.halted
      invariant Mirrors(hv, t0, run)
    {
      var name := RangeName(prefix, start, RangeEnd(start, count), i);
      r := RemoveOne(hv, name, t0, run);
      RunSnoc(cs, names, i - start, hv.failing);
      run := RemoveStep(run, name, hv.failing);
      if r.Err? {
        RunFinished(cs, prefix, start, count, hv.failing, i - start + 1, run);
        return;
      }
      i := i + 1;
    }
    RunFinished(cs, prefix, start, count, hv.failing, i - start, run);
    r := Ok(());
  }

  /** The names are probed once each, in the order visited, until the run
      ends; a run that does not end probes all of them. */
  lemma {:induction false} ProbesInOrder(cs: seq<Container>, names: seq<string>, i: nat, failing: iset<Command>)
    requires i <= |names|
    ensures var probes := Probes(RemoveRun(cs, names, i, failing).issued);
            |probes| <= i && probes == names[..|probes|]
    ensures !RemoveRun(cs, names, i, failing).halted ==> Probes(RemoveRun(cs, names, i, failing).issued) == names[..i]
  {
    if i > 0 {
      ProbesInOrder(cs, names, i - 1, failing);
      var s := RemoveRun(cs, names, i - 1, failing);
      if !s.halted {
        StepProbes(s.fleet, names[i - 1], failing);
        ProbesAppend(s.issued, StepCommands(s.fleet, names[i - 1], failing));
        assert names[..i] == names[..i - 1] + [names[i - 1]];
      }
    }
  }

  /** A run never adds a container. */
  lemma {:induction false} FleetShrinks(cs: seq<Container>, names: seq<string>, i: nat, failing: iset<Command>)
    requires i <= |names|
    ensures forall n :: Present(RemoveRun(cs, names, i, failing).fleet, n) ==> Present(cs, n)
  {
    if i > 0 {
      FleetShrinks(cs, names, i - 1, failing);
      StepClears(RemoveRun(cs, names, i - 1, failing), names[i - 1], failing);
    }
  }

  /** Every removal in a run names a visited container that existed before
      the run: a container is removed only if it exists. */
  lemma {:induction false} RemovesOnlyExisting(cs: seq<Container>, names: seq<string>, i: nat,
                                               failing: iset<Command>)
    requires i <= |names|
    ensures forall n :: Remove(n) in RemoveRun(cs, names, i, failing).issued ==> Present(cs, n) && n in names[..i]
  {
    if i > 0 {
      RemovesOnlyExisting(cs, names, i - 1, failing);
      var s := RemoveRun(cs, names, i - 1, failing);
      assert names[..i] == names[..i - 1] + [names[i - 1]];
      if !s.halted {
        FleetShrinks(cs, names, i - 1, failing);
        var step := StepCommands(s.fleet, names[i - 1], failing);
        assert forall n :: Remove(n) in step ==> n == names[i - 1] && Present(s.fleet, n);
      }
    }
  }

  /** After a run with no fatal error, no visited name is left. */
  lemma {:induction false} RangeCleared(cs: seq<Container>, names: seq<string>, i: nat, failing: iset<Command>)
    requires i <= |names|
    requires !RemoveRun(cs, names, i, failing).halted
    ensures forall k :: 0 <= k < i ==> !Present(RemoveRun(cs, names, i, failing).fleet, names[k])
  {
    if i > 0 {
      RangeCleared(cs, names, i - 1, failing);
      StepClears(RemoveRun(cs, names, i - 1, failing), names[i - 1], failing);
    }
  }

  /** Containers whose names are not visited are untouched, whether or not
      the run ends early. */
  lemma {:induction false} OutsideUntouched(cs: seq<Container>, names: seq<string>, i: nat,
                                            failing: iset<Command>, n: string)
    requires i <= |names|
    requires n !in names[..i]
    ensures FirstNamed(RemoveRun(cs, names, i, failing).fleet, n) == FirstNamed(cs, n)
  {
    if i > 0 {
      assert names[..i] == names[..i - 1] + [names[i - 1]];
      OutsideUntouched(cs, names, i - 1, failing, n);
      StepKeeps(RemoveRun(cs, names, i - 1, failing), names[i - 1], failing, n);
    }
  }

  /** On a fleet without any of the names the run only probes. */
  lemma {:induction false} NothingToRemove(cs: seq<Container>, names: seq<string>, i: nat, failing: iset<Command>)
    requires i <= |names|
    requires forall k :: 0 <= k < i ==> !Present(cs, names[k])
    ensures var run := RemoveRun(cs, names, i, failing);
            run.fleet == cs && forall k :: 0 <= k < |run.issued| ==> run.issued[k].List?
  {
    if i > 0 {
      NothingToRemove(cs, names, i - 1, failing);
    }
  }

  /** Running twice over the same names: the second run removes nothing and
      leaves the fleet as the first left it. */
  lemma SecondRunRemovesNothing(cs: seq<Container>, names: seq<string>, failing: iset<Command>)
    requires !RemoveRun(cs, names, |names|, failing).halted
    ensures var first := RemoveRun(cs, names, |names|, failing);
            var second := RemoveRun(first.fleet, names, |names|, failing);
            second.fleet == first.fleet &&
            forall k :: 0 <= k < |second.issued| ==> second.issued[k].List?
  {
    var first := RemoveRun(cs, names, |names|, failing);
    RangeCleared(cs, names, |names|, failing);
    NothingToRemove(first.fleet, names, |names|, failing);
  }

  /** For `range(start, start + count)`: only containers of the range that
      existed are removed, a run without a fatal error leaves none of the
      range, and the containers of every other name keep their place. */
  lemma RemoveRange(cs: seq<Container>, prefix: string, start: nat, count: int, failing: iset<Command>, n: string)
    ensures var names := NameRange(prefix, start, RangeEnd(start, count));
            var run := RemoveAll(cs, prefix, start, count, failing);
            && (Remove(n) in run.issued ==> Present(cs, n) && n in names)
            && (!run.halted && n in names ==> !Present(run.fleet, n))
            && (n !in names ==> FirstNamed(run.fleet, n) == FirstNamed(cs, n))
  {
    var names := NameRange(prefix, start, RangeEnd(start, count));
    assert names[..|names|] == names;
    RemovesOnlyExisting(cs, names, |names|, failing);
    if n !in names {
      OutsideUntouched(cs, names, |names|, failing, n);
    }
    if !RemoveRun(cs, names, |names|, failing).halted && n in names {
      RangeCleared(cs, names, |names|, failing);
    }
  }
}
