/** Detection of the molecular-mechanics engines installed locally. The
    executable search path and Python's module importer are oracles:
    `which(name)` is the path `shutil.which` finds for `name`, if any, and
    `imports(name)` is how `importlib.import_module(name)` ends. */
module MMEngines {
  import opened Wrappers
  import Gromacs

  /** How importing a module ends: it imports, it raises
      `ModuleNotFoundError` (the module or one it needs is missing), or it
      raises any other exception (a broken compiled extension, say). */
  datatype ImportResult = Imported | ModuleNotFound | ImportFailed

  /** An exception other than `ModuleNotFoundError` escaped a detector's
      import of `moduleName`; it propagates out of `identify_engines`. */
  datatype EngineError = ImportError(moduleName: string)

  /** `detect_gromacs`: `gmx` or `gmx_d` is on the path. */
  function DetectGromacs(which: string -> Option<string>): bool
  {
    which("gmx").Some? || which("gmx_d").Some?
  }

  /** The `try: import_module(name) ... except ModuleNotFoundError` probe:
      true when the import succeeds, false when it raises
      `ModuleNotFoundError`; any other exception is not caught. */
  function ProbeImport(imports: string -> ImportResult, name: string): (r: Result<bool, EngineError>)
    ensures r == Success(true) <==> imports(name) == Imported
    ensures r == Success(false) <==> imports(name) == ModuleNotFound
    ensures r.Failure? <==> imports(name) == ImportFailed
    ensures r.Failure? ==> r.error == ImportError(name)
  {
    match imports(name)
    case Imported => Success(true)
    case ModuleNotFound => Success(false)
    case ImportFailed => Failure(ImportError(name))
  }

  /** `detect_openmm`: the `simtk` package imports. */
  function DetectOpenMM(imports: string -> ImportResult): Result<bool, EngineError>
  {
    ProbeImport(imports, "simtk")
  }

  /** `detect_hoomd`: the `hoomd` package imports. */
  function DetectHoomd(imports: string -> ImportResult): Result<bool, EngineError>
  {
    ProbeImport(imports, "hoomd")
  }

  /** `detect_amber` and `detect_desmond`: neither engine is supported. */
  function DetectAmber(): bool { false }
  function DetectDesmond(): bool { false }

  /** The order in which engines are probed. */
  const EngineOrder: seq<string> := ["gromacs", "openmm", "hoomd", "amber", "desmond"]

  /** The position of an engine in `EngineOrder` (past its end when absent). */
  function Rank(engine: string): nat
  {
    if engine == "gromacs" then 0
    else if engine == "openmm" then 1
    else if engine == "hoomd" then 2
    else if engine == "amber" then 3
    else if engine == "desmond" then 4
    else 5
  }

  /** `identify_engines`: the detected engines, in probing order, each at
      most once; only GROMACS, OpenMM and HOOMD can be detected. An import
      failing with anything but `ModuleNotFoundError` aborts it, the OpenMM
      probe running before the HOOMD one. */
  function IdentifyEngines(which: string -> Option<string>, imports: string -> ImportResult)
    : (r: Result<seq<string>, EngineError>)
    ensures r.Failure? <==> imports("simtk") == ImportFailed || imports("hoomd") == ImportFailed
    ensures r.Failure? ==> r.error == ImportError(if imports("simtk") == ImportFailed then "simtk" else "hoomd")
    ensures r.Success? ==> forall e :: e in r.value <==>
              (e == "gromacs" && DetectGromacs(which))
              || (e == "openmm" && imports("simtk") == Imported)
              || (e == "hoomd" && imports("hoomd") == Imported)
    ensures r.Success? ==> forall i, j :: 0 <= i < j < |r.value| ==> Rank(r.value[i]) < Rank(r.value[j])
    ensures r.Success? ==> forall i :: 0 <= i < |r.value| ==>
              Rank(r.value[i]) < |EngineOrder| && EngineOrder[Rank(r.value[i])] == r.value[i]
  {
    var openmm := DetectOpenMM(imports);
    if openmm.Failure? then Failure(openmm.error)
    else
      var hoomd := DetectHoomd(imports);
      if hoomd.Failure? then Failure(hoomd.error)
      else
        Success((if DetectGromacs(which) then ["gromacs"] else [])
                + (if openmm.value then ["openmm"] else [])
                + (if hoomd.value then ["hoomd"] else [])
                + (if DetectAmber() then ["amber"] else [])
                + (if DetectDesmond() then ["desmond"] else []))
  }

  /** The engine list never repeats a name and never names an engine
      without a detector (Amber, Desmond, Cassandra). */
  lemma IdentifiedEnginesDistinct(which: string -> Option<string>, imports: string -> ImportResult)
    ensures var r := IdentifyEngines(which, imports);
            r.Success? ==>
              && (forall i, j :: 0 <= i < j < |r.value| ==> r.value[i] != r.value[j])
              && "amber" !in r.value && "desmond" !in r.value && "cassandra" !in r.value
  {
    var r := IdentifyEngines(which, imports);
    if r.Success? {
      forall i, j | 0 <= i < j < |r.value| ensures r.value[i] != r.value[j] {
        assert Rank(r.value[i]) < Rank(r.value[j]);
      }
    }
  }

  /** GROMACS is listed exactly when its binaries can be detected. */
  lemma GromacsListedIffBinaries(which: string -> Option<string>, imports: string -> ImportResult)
    ensures var r := IdentifyEngines(which, imports);
            r.Success? ==> ("gromacs" in r.value <==> Gromacs.DetectGmxBinaries(which).Success?)
  {
  }
}
