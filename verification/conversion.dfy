/** `spawn_engine_simulations`: choose the engines, call each engine's
    build-run-measure routine, and gather the measured rows. The routines
    themselves run external engines; here a call is a `Builder` value and
    the oracle `build` says how it ends: the measured row, or the exception
    it raised (a missing binary, a missing `out.edr`, ...), which ends the
    loop and propagates to the caller. */
module Conversion {
  import opened Wrappers
  import MMEngines

  /** One call of an engine's build-run-measure routine; only the HOOMD
      routine receives the extra keyword arguments. */
  datatype Builder<K> = BuildGromacs | BuildOpenMM | BuildHoomd(kwargs: K)

  /** The names the dispatch recognises. */
  predicate Supported(engine: string)
  {
    engine == "gromacs" || engine == "openmm" || engine == "hoomd"
  }

  /** The three `if engine == ...` tests for one engine name. */
  function Dispatch<K>(engine: string, hoomdKwargs: K): (calls: seq<Builder<K>>)
    ensures |calls| == if Supported(engine) then 1 else 0
    ensures engine == "gromacs" ==> calls == [BuildGromacs]
    ensures engine == "openmm" ==> calls == [BuildOpenMM]
    ensures engine == "hoomd" ==> calls == [BuildHoomd(hoomdKwargs)]
  {
    (if engine == "gromacs" then [BuildGromacs] else [])
    + (if engine == "openmm" then [BuildOpenMM] else [])
    + (if engine == "hoomd" then [BuildHoomd(hoomdKwargs)] else [])
  }

  /** The builder calls of the loop over `engines`, in order. */
  function BuilderCalls<K>(engines: seq<string>, hoomdKwargs: K): seq<Builder<K>>
  {
    if |engines| == 0 then []
    else BuilderCalls(engines[..|engines| - 1], hoomdKwargs) + Dispatch(engines[|engines| - 1], hoomdKwargs)
  }

  /** The calls for a list are the calls for its parts, in order. */
  lemma {:induction false} BuilderCallsAppend<K>(a: seq<string>, b: seq<string>, hoomdKwargs: K)
    ensures BuilderCalls(a + b, hoomdKwargs) == BuilderCalls(a, hoomdKwargs) + BuilderCalls(b, hoomdKwargs)
    decreases |b|
  {
    if |b| == 0 {
      assert a + b == a;
    } else {
      assert (a + b)[..|a + b| - 1] == a + b[..|b| - 1];
      BuilderCallsAppend(a, b[..|b| - 1], hoomdKwargs);
    }
  }

  /** The builder a supported name dispatches to. */
  function BuilderOf<K>(engine: string, hoomdKwargs: K): Builder<K>
    requires Supported(engine)
  {
    if engine == "gromacs" then BuildGromacs
    else if engine == "openmm" then BuildOpenMM
    else BuildHoomd(hoomdKwargs)
  }

  /** Each occurrence of a supported name makes one call of its builder,
      so a repeated name builds repeatedly. */
  lemma {:induction false} BuilderCallCount<K>(engines: seq<string>, hoomdKwargs: K, name: string)
    requires Supported(name)
    ensures multiset(BuilderCalls(engines, hoomdKwargs))[BuilderOf(name, hoomdKwargs)] == multiset(engines)[name]
    decreases |engines|
  {
    if |engines| > 0 {
      var init := engines[..|engines| - 1];
      var last := engines[|engines| - 1];
      BuilderCallCount(init, hoomdKwargs, name);
      DispatchCount(last, hoomdKwargs, name);
      MultisetLast(engines, name);
      MultisetAppend(BuilderCalls(init, hoomdKwargs), Dispatch(last, hoomdKwargs), BuilderOf(name, hoomdKwargs));
    }
  }

  lemma MultisetLast<T>(s: seq<T>, x: T)
    requires |s| > 0
    ensures multiset(s)[x] == multiset(s[..|s| - 1])[x] + (if s[|s| - 1] == x then 1 else 0)
  {
    assert s == s[..|s| - 1] + [s[|s| - 1]];
  }

  lemma MultisetAppend<T>(a: seq<T>, b: seq<T>, x: T)
    ensures multiset(a + b)[x] == multiset(a)[x] + multiset(b)[x]
  {
  }

  lemma DispatchCount<K>(engine: string, hoomdKwargs: K, name: string)
    requires Supported(name)
    ensures multiset(Dispatch(engine, hoomdKwargs))[BuilderOf(name, hoomdKwargs)] == if engine == name then 1 else 0
  {
    var d := Dispatch(engine, hoomdKwargs);
    if Supported(engine) {
      assert d == [BuilderOf(engine, hoomdKwargs)];
    } else {
      assert d == [];
    }
  }

  /** Names other than the three supported ones make no call: there are
      as many calls as supported name occurrences, and every HOOMD call
      carries the given keyword arguments. */
  lemma {:induction false} BuilderCallsOnlySupported<K>(engines: seq<string>, hoomdKwargs: K)
    ensures var calls := BuilderCalls(engines, hoomdKwargs);
            && |calls| == multiset(engines)["gromacs"] + multiset(engines)["openmm"] + multiset(engines)["hoomd"]
            && forall i :: 0 <= i < |calls| && calls[i].BuildHoomd? ==> calls[i].kwargs == hoomdKwargs
    decreases |engines|
  {
    if |engines| > 0 {
      var init := engines[..|engines| - 1];
      var last := engines[|engines| - 1];
      BuilderCallsOnlySupported(init, hoomdKwargs);
      MultisetLast(engines, "gromacs");
      MultisetLast(engines, "openmm");
      MultisetLast(engines, "hoomd");
      HoomdKwargsAppend(BuilderCalls(init, hoomdKwargs), Dispatch(last, hoomdKwargs), hoomdKwargs);
    }
  }

  /** Every HOOMD call of two lists carries `hoomdKwargs` when every HOOMD
      call of each does. */
  lemma HoomdKwargsAppend<K>(a: seq<Builder<K>>, b: seq<Builder<K>>, hoomdKwargs: K)
    requires forall i :: 0 <= i < |a| && a[i].BuildHoomd? ==> a[i].kwargs == hoomdKwargs
    requires forall i :: 0 <= i < |b| && b[i].BuildHoomd? ==> b[i].kwargs == hoomdKwargs
    ensures forall i :: 0 <= i < |a + b| && (a + b)[i].BuildHoomd? ==> (a + b)[i].kwargs == hoomdKwargs
  {
    forall i | 0 <= i < |a + b| && (a + b)[i].BuildHoomd? ensures (a + b)[i].kwargs == hoomdKwargs {
      if i >= |a| {
        assert (a + b)[i] == b[i - |a|];
      }
    }
  }

  /** The engine list: the given one, or the detected engines when none is
      given; detection can fail on an import error. */
  function EngineList(engines: Option<seq<string>>, which: string -> Option<string>,
                      imports: string -> MMEngines.ImportResult): (r: Result<seq<string>, MMEngines.EngineError>)
    ensures engines.Some? ==> r == Success(engines.value)
    ensures engines.None? ==> r == MMEngines.IdentifyEngines(which, imports)
  {
    match engines
    case Some(es) => Success(es)
    case None => MMEngines.IdentifyEngines(which, imports)
  }

  /** Why a call of `spawn_engine_simulations` raised: engine detection
      failed, or a builder raised `cause`. */
  datatype SpawnError<E> = DetectionFailed(detection: MMEngines.EngineError) | BuildFailed(cause: E)

  /** What a run of builder calls does: the calls actually made, and either
      the rows they measured or the exception that ended the run. */
  datatype Spawned<K, R, E> = Spawned(calls: seq<Builder<K>>, result: Result<seq<R>, SpawnError<E>>)

  /** What a run of the `planned` calls must be when its first call is the
      `from`-th of the loop: the calls made are a prefix of the plan; the
      run succeeds exactly when every planned call succeeds, and then
      yields their rows in order; otherwise the last call made is the first
      that raised and its exception is the run's. */
  ghost predicate RunMeaning<K, R, E>(planned: seq<Builder<K>>, build: (nat, Builder<K>) -> Result<R, E>, from: nat,
                                      r: Spawned<K, R, E>)
  {
    && |r.calls| <= |planned| && r.calls == planned[..|r.calls|]
    && (r.result.Success? <==> forall i :: 0 <= i < |planned| ==> build(from + i, planned[i]).Success?)
    && (r.result.Success? ==>
          && r.calls == planned
          && |r.result.value| == |planned|
          && forall i :: 0 <= i < |planned| ==> r.result.value[i] == build(from + i, planned[i]).value)
    && (r.result.Failure? ==>
          && 0 < |r.calls|
          && (forall i :: 0 <= i < |r.calls| - 1 ==> build(from + i, planned[i]).Success?)
          && r.result.error.BuildFailed?
          && build(from + |r.calls| - 1, planned[|r.calls| - 1]) == Failure(r.result.error.cause))
  }

  /** The loop body over a list of planned calls, keeping every measured
      row: the calls run in order until one raises. The `i`-th call of the
      plan is the `from + i`-th of the loop. */
  function RunBuilders<K, R, E>(planned: seq<Builder<K>>, build: (nat, Builder<K>) -> Result<R, E>, from: nat)
    : Spawned<K, R, E>
    decreases |planned|
  {
    if |planned| == 0 then Spawned([], Success([]))
    else
      var first := build(from, planned[0]);
      if first.Failure? then Spawned([planned[0]], Failure(BuildFailed(first.error)))
      else
        var rest := RunBuilders(planned[1..], build, from + 1);
        Spawned([planned[0]] + rest.calls,
                if rest.result.Failure? then Failure(rest.result.error) else Success([first.value] + rest.result.value))
  }

  /** Every run of builder calls stops at the first call that raises and
      otherwise measures every planned call, in order. */
  lemma {:induction false} RunBuildersMeaning<K, R, E>(planned: seq<Builder<K>>, build: (nat, Builder<K>) -> Result<R, E>,
                                                       from: nat)
    ensures RunMeaning(planned, build, from, RunBuilders(planned, build, from))
    decreases |planned|
  {
    if |planned| > 0 && build(from, planned[0]).Success? {
      RunBuildersMeaning(planned[1..], build, from + 1);
      RunBuildersStep(planned, build, from, build(from, planned[0]).value, RunBuilders(planned[1..], build, from + 1));
    }
  }

  /** The inductive step of `RunBuildersMeaning`: a successful first call
      followed by a run of the remaining calls. */
  lemma RunBuildersStep<K, R, E>(planned: seq<Builder<K>>, build: (nat, Builder<K>) -> Result<R, E>, from: nat,
                                 row: R, rest: Spawned<K, R, E>)
    requires 0 < |planned| && build(from, planned[0]) == Success(row)
    requires RunMeaning(planned[1..], build, from + 1, rest)
    ensures RunMeaning(planned, build, from,
                       Spawned([planned[0]] + rest.calls,
                               if rest.result.Failure? then Failure(rest.result.error) else Success([row] + rest.result.value)))
  {
    assert forall i :: 0 < i < |planned| ==> planned[i] == planned[1..][i - 1];
    if rest.result.Failure? {
      var k := |rest.calls| - 1;
      assert !build(from + 1 + k, planned[1..][k]).Success?;
      assert planned[1..][k] == planned[k + 1];
    }
  }

  /** A run whose first call succeeds continues with the rest of the plan. */
  lemma RunBuildersCons<K, R, E>(x: Builder<K>, rest: seq<Builder<K>>, build: (nat, Builder<K>) -> Result<R, E>, from: nat)
    requires build(from, x).Success?
    ensures var tail := RunBuilders(rest, build, from + 1);
            RunBuilders([x] + rest, build, from)
            == Spawned([x] + tail.calls,
                       if tail.result.Failure? then Failure(tail.result.error)
                       else Success([build(from, x).value] + tail.result.value))
  {
    assert ([x] + rest)[0] == x;
    assert ([x] + rest)[1..] == rest;
  }

  /** Running the calls of one list and then another: after a list whose
      calls all succeed, the run continues with the second list, its first
      call numbered after the first list's calls, and its rows following
      the first list's. */
  lemma {:induction false} RunBuildersAppend<K, R, E>(a: seq<Builder<K>>, b: seq<Builder<K>>,
                                                      build: (nat, Builder<K>) -> Result<R, E>, from: nat)
    requires RunBuilders(a, build, from).result.Success?
    ensures var ra := RunBuilders(a, build, from);
            var rb := RunBuilders(b, build, from + |a|);
            var rab := RunBuilders(a + b, build, from);
            && rab.calls == a + rb.calls
            && rab.result == if rb.result.Failure? then rb.result else Success(ra.result.value + rb.result.value)
    decreases |a|
  {
    if |a| > 0 {
      var x, a' := a[0], a[1..];
      assert a == [x] + a';
      RunBuildersCons(x, a', build, from);
      RunBuildersAppend(a', b, build, from + 1);
      assert a + b == [x] + (a' + b);
      RunBuildersCons(x, a' + b, build, from);
      var ra', rb := RunBuilders(a', build, from + 1), RunBuilders(b, build, from + |a|);
      assert from + 1 + |a'| == from + |a|;
      assert [x] + (a' + rb.calls) == a + rb.calls;
      if rb.result.Success? {
        assert [build(from, x).value] + (ra'.result.value + rb.result.value)
               == ([build(from, x).value] + ra'.result.value) + rb.result.value;
      }
    } else {
      assert a + b == b;
      var rb := RunBuilders(b, build, from);
      assert a + rb.calls == rb.calls;
      if rb.result.Success? {
        assert RunBuilders(a, build, from).result.value + rb.result.value == rb.result.value;
      }
    }
  }

  /** What a call of `spawn_engine_simulations` does with each measured row
      kept (`energies = energies.append(...)`): detection, then the builder
      calls of the engine list in order until one raises. The `i`-th call
      ends as `build(i, call)`: builders share process state (HOOMD's
      global context), so repeated calls of one builder may end differently. */
  function SpawnEngineSimulations<K, R, E>(engines: Option<seq<string>>, hoomdKwargs: K,
                                            which: string -> Option<string>, imports: string -> MMEngines.ImportResult,
                                            build: (nat, Builder<K>) -> Result<R, E>): (r: Spawned<K, R, E>)
    ensures EngineList(engines, which, imports).Failure? ==>
              r.calls == [] && r.result == Failure(DetectionFailed(EngineList(engines, which, imports).error))
    ensures EngineList(engines, which, imports).Success? ==>
              var planned := BuilderCalls(EngineList(engines, which, imports).value, hoomdKwargs);
              && |r.calls| <= |planned| && r.calls == planned[..|r.calls|]
              && (r.result.Success? <==> forall i :: 0 <= i < |planned| ==> build(i, planned[i]).Success?)
              && (r.result.Success? ==>
                    && r.calls == planned
                    && |r.result.value| == |planned|
                    && forall i :: 0 <= i < |planned| ==> r.result.value[i] == build(i, planned[i]).value)
              && (r.result.Failure? ==>
                    && 0 < |r.calls|
                    && (forall i :: 0 <= i < |r.calls| - 1 ==> build(i, planned[i]).Success?)
                    && r.result.error.BuildFailed?
                    && build(|r.calls| - 1, planned[|r.calls| - 1]) == Failure(r.result.error.cause))
  {
    match EngineList(engines, which, imports)
    case Failure(e) => Spawned([], Failure(DetectionFailed(e)))
    case Success(list) =>
      var planned := BuilderCalls(list, hoomdKwargs);
      RunBuildersMeaning(planned, build, 0);
      RunBuilders(planned, build, 0)
  }

  /** `spawn_engine_simulations` as written: `DataFrame.append` (pandas
      before 2.0) returns a new frame and leaves `energies` as it was, so
      the builders run (and can raise) but a call that returns gives the
      empty frame created before the loop. */
  function SpawnEngineSimulationsAsWritten<K, R, E>(engines: Option<seq<string>>, hoomdKwargs: K,
                                                     which: string -> Option<string>, imports: string -> MMEngines.ImportResult,
                                                     build: (nat, Builder<K>) -> Result<R, E>): (r: Spawned<K, R, E>)
    ensures var kept := SpawnEngineSimulations(engines, hoomdKwargs, which, imports, build);
            && r.calls == kept.calls
            && (r.result.Failure? <==> kept.result.Failure?)
            && (r.result.Failure? ==> r.result.error == kept.result.error)
    ensures r.result.Success? ==> r.result.value == []
  {
    var kept := SpawnEngineSimulations(engines, hoomdKwargs, which, imports, build);
    Spawned(kept.calls, if kept.result.Failure? then kept.result else Success([]))
  }

  /** The kept rows of a list of engines whose builders all return, then of
      a second list: the second list's calls come next, numbered after the
      first list's, and either the first exception among them is raised or
      their rows follow the first list's. */
  lemma SpawnRowsAppend<K, R, E>(a: seq<string>, b: seq<string>, hoomdKwargs: K,
                                 which: string -> Option<string>, imports: string -> MMEngines.ImportResult,
                                 build: (nat, Builder<K>) -> Result<R, E>)
    requires SpawnEngineSimulations(Some(a), hoomdKwargs, which, imports, build).result.Success?
    ensures var sa := SpawnEngineSimulations(Some(a), hoomdKwargs, which, imports, build);
            var rb := RunBuilders(BuilderCalls(b, hoomdKwargs), build, |BuilderCalls(a, hoomdKwargs)|);
            var sab := SpawnEngineSimulations(Some(a + b), hoomdKwargs, which, imports, build);
            && sab.calls == sa.calls + rb.calls
            && sab.result == if rb.result.Failure? then rb.result else Success(sa.result.value + rb.result.value)
  {
    var ca, cb := BuilderCalls(a, hoomdKwargs), BuilderCalls(b, hoomdKwargs);
    BuilderCallsAppend(a, b, hoomdKwargs);
    SpawnGivenList(a, hoomdKwargs, which, imports, build);
    SpawnGivenList(a + b, hoomdKwargs, which, imports, build);
    RunBuildersAppendAt(ca, cb, build, 0, |ca|);
  }

  /** `RunBuildersAppend` with the second run's first call number given as
      `start`: the calls of the whole run are those of the first part
      followed by those of the second. */
  lemma RunBuildersAppendAt<K, R, E>(a: seq<Builder<K>>, b: seq<Builder<K>>, build: (nat, Builder<K>) -> Result<R, E>,
                                            from: nat, start: nat)
    requires RunBuilders(a, build, from).result.Success?
    requires start == from + |a|
    ensures var ra := RunBuilders(a, build, from);
            var rb := RunBuilders(b, build, start);
            var rab := RunBuilders(a + b, build, from);
            && rab.calls == ra.calls + rb.calls
            && rab.result == if rb.result.Failure? then rb.result else Success(ra.result.value + rb.result.value)
  {
    RunBuildersSuccessCalls(a, build, from);
    RunBuildersAppend(a, b, build, from);
  }

  /** A run that returns has made every planned call. */
  lemma {:induction false} RunBuildersSuccessCalls<K, R, E>(planned: seq<Builder<K>>, build: (nat, Builder<K>) -> Result<R, E>,
                                                            from: nat)
    requires RunBuilders(planned, build, from).result.Success?
    ensures RunBuilders(planned, build, from).calls == planned
    decreases |planned|
  {
    if |planned| > 0 {
      RunBuildersSuccessCalls(planned[1..], build, from + 1);
      assert planned == [planned[0]] + planned[1..];
    }
  }

  /** With an explicit engine list, a spawn is the run of that list's
      builder calls from the loop's first call. */
  lemma SpawnGivenList<K, R, E>(list: seq<string>, hoomdKwargs: K,
                                which: string -> Option<string>, imports: string -> MMEngines.ImportResult,
                                build: (nat, Builder<K>) -> Result<R, E>)
    ensures SpawnEngineSimulations(Some(list), hoomdKwargs, which, imports, build)
            == RunBuilders(BuilderCalls(list, hoomdKwargs), build, 0)
  {
  }

  /** A repeated engine builds once per occurrence, and each call keeps its
      own row: with `["hoomd", "hoomd"]` and both calls returning, the rows
      are the first call's and then the second call's, which need not be
      equal. */
  lemma RepeatedEngineRows<K, R, E>(hoomdKwargs: K, which: string -> Option<string>,
                                    imports: string -> MMEngines.ImportResult, build: (nat, Builder<K>) -> Result<R, E>)
    requires build(0, BuildHoomd(hoomdKwargs)).Success? && build(1, BuildHoomd(hoomdKwargs)).Success?
    ensures var kept := SpawnEngineSimulations(Some(["hoomd", "hoomd"]), hoomdKwargs, which, imports, build);
            && kept.calls == [BuildHoomd(hoomdKwargs), BuildHoomd(hoomdKwargs)]
            && kept.result == Success([build(0, BuildHoomd(hoomdKwargs)).value, build(1, BuildHoomd(hoomdKwargs)).value])
  {
    assert ["hoomd", "hoomd"][..1] == ["hoomd"];
    assert ["hoomd"][..0] == [];
    assert BuilderCalls(["hoomd"], hoomdKwargs) == [BuildHoomd(hoomdKwargs)];
    assert BuilderCalls(["hoomd", "hoomd"], hoomdKwargs) == [BuildHoomd(hoomdKwargs), BuildHoomd(hoomdKwargs)];
    var kept := SpawnEngineSimulations(Some(["hoomd", "hoomd"]), hoomdKwargs, which, imports, build);
    assert kept.result.Success?;
    var rows := kept.result.value;
    assert |rows| == 2 && rows[0] == build(0, BuildHoomd(hoomdKwargs)).value && rows[1] == build(1, BuildHoomd(hoomdKwargs)).value;
    assert rows == [rows[0], rows[1]];
  }

  /** The discrepancy on a concrete input: asking for GROMACS alone, with a
      GROMACS builder that returns, runs that builder once, yet the returned
      table has no row, where the kept-rows version returns that builder's
      row. */
  lemma AsWrittenDropsRows<K, R, E>(hoomdKwargs: K, which: string -> Option<string>,
                                    imports: string -> MMEngines.ImportResult, build: (nat, Builder<K>) -> Result<R, E>)
    requires build(0, BuildGromacs).Success?
    ensures SpawnEngineSimulationsAsWritten(Some(["gromacs"]), hoomdKwargs, which, imports, build).calls == [BuildGromacs]
    ensures SpawnEngineSimulationsAsWritten(Some(["gromacs"]), hoomdKwargs, which, imports, build).result == Success([])
    ensures SpawnEngineSimulations(Some(["gromacs"]), hoomdKwargs, which, imports, build).result
            == Success([build(0, BuildGromacs).value])
  {
    assert ["gromacs"][..0] == [];
    assert BuilderCalls(["gromacs"], hoomdKwargs) == [BuildGromacs];
    var kept := SpawnEngineSimulations(Some(["gromacs"]), hoomdKwargs, which, imports, build);
    assert kept.result.Success?;
    assert kept.result.value == [build(0, BuildGromacs).value];
  }
}
