/** The GROMACS back end: the energy canonicalisation over the first frame
    of the energy file, the `grompp`/`mdrun` command lines, and the
    detection of the GROMACS executable. */
module Gromacs {
  import opened Wrappers
  import opened Text
  import opened Sums
  import opened Tables

  // ---------------------------------------------------------------------
  // Energy frames and canonicalisation
  // ---------------------------------------------------------------------

  /** The table `panedr.edr_to_df` reads from an energy file: its column
      names and its rows (one per saved frame), each row a value per column.
      Reading the binary file is not modelled; the frame is the input. */
  datatype EnergyFrame = EnergyFrame(columns: set<string>, rows: seq<map<string, real>>)

  /** Every row has a value for exactly the frame's columns. */
  predicate Valid(f: EnergyFrame)
  {
    forall i :: 0 <= i < |f.rows| ==> f.rows[i].Keys == f.columns
  }

  /** `edr_df.iloc[0]` when the frame has a row; nothing otherwise. */
  function FirstRow(f: EnergyFrame): map<string, real>
  {
    if |f.rows| > 0 then f.rows[0] else map[]
  }

  /** Some of the listed columns is a column of the frame. */
  predicate AnyPresent(cols: seq<string>, f: EnergyFrame)
  {
    exists i :: 0 <= i < |cols| && cols[i] in f.columns
  }

  /** Some entry of the table lists a column of the frame. */
  predicate TableAnyPresent(table: seq<(string, seq<string>)>, f: EnergyFrame)
  {
    exists i :: 0 <= i < |table| && AnyPresent(table[i].1, f)
  }

  /** `edr_df.iloc[0]` on a frame with no rows raises `IndexError`. */
  datatype FrameError = NoFirstRow

  const LJColumns: seq<string> := ["LJ-14", "LJ (SR)"]
  const QQColumns: seq<string> := ["Coulomb-14", "Coulomb (SR)"]
  const NonbondColumns: seq<string> := ["LJ-14", "Coulomb-14", "LJ (SR)", "Coulomb (SR)"]
  const DihedralColumns: seq<string> := ["Proper Dih.", "Ryckaert-Bell."]

  /** `key_to_col`: each canonical key and the energy-file columns it sums. */
  const KeyToColumns: seq<(string, seq<string>)> :=
    [("bond", ["Bond"]),
     ("angle", ["Angle"]),
     ("dihedral", DihedralColumns),
     ("LJ", LJColumns),
     ("QQ", QQColumns),
     ("nonbond", NonbondColumns),
     ("all", ["Potential"])]

  const CanonicalKeys: set<string> := {"bond", "angle", "dihedral", "LJ", "QQ", "nonbond", "all"}

  /** The column order of the measured row. */
  const ColumnOrder: seq<string> := ["bond", "angle", "dihedral", "LJ", "QQ", "nonbond", "all"]

  /** The sum of the first-frame values of the listed columns the frame has; reading
      the first frame fails only when one of them is present and the frame
      is empty. */
  function ColumnSum(cols: seq<string>, f: EnergyFrame): (r: Result<real, FrameError>)
    requires Valid(f)
    ensures r.Failure? <==> |f.rows| == 0 && AnyPresent(cols, f)
    ensures r.Success? ==> r.value == SumPresent(cols, FirstRow(f))
    decreases |cols|
  {
    if |cols| == 0 then Success(0.0)
    else
      var init := cols[..|cols| - 1];
      var last := cols[|cols| - 1];
      assert AnyPresent(cols, f) <==> AnyPresent(init, f) || last in f.columns by {
        if AnyPresent(init, f) {
          var i :| 0 <= i < |init| && init[i] in f.columns;
          assert cols[i] == init[i];
        }
        if AnyPresent(cols, f) && last !in f.columns {
          var i :| 0 <= i < |cols| && cols[i] in f.columns;
          assert i < |init| && init[i] == cols[i];
        }
      }
      var prev := ColumnSum(init, f);
      if prev.Failure? then prev
      else if last !in f.columns then prev
      else if |f.rows| == 0 then Failure(NoFirstRow)
      else Success(prev.value + f.rows[0][last])
  }

  lemma TableAnyPresentSplit(table: seq<(string, seq<string>)>, f: EnergyFrame)
    requires |table| > 0
    ensures TableAnyPresent(table, f) <==>
            TableAnyPresent(table[..|table| - 1], f) || AnyPresent(table[|table| - 1].1, f)
  {
    var init := table[..|table| - 1];
    if TableAnyPresent(init, f) {
      var i :| 0 <= i < |init| && AnyPresent(init[i].1, f);
      assert table[i] == init[i];
    }
    if TableAnyPresent(table, f) {
      var i :| 0 <= i < |table| && AnyPresent(table[i].1, f);
      if i < |init| {
        assert table[i] == init[i];
      }
    }
  }

  /** The loop over `key_to_col`: every key of the table maps to the sum of
      its columns in the first frame; an empty frame fails as soon as any
      listed column exists. */
  function CanonicalizeColumns(table: seq<(string, seq<string>)>, f: EnergyFrame)
    : (r: Result<map<string, real>, FrameError>)
    requires Valid(f)
    ensures r.Failure? <==> |f.rows| == 0 && TableAnyPresent(table, f)
    ensures r.Success? ==> r.value.Keys == Keys(table)
    ensures r.Success? ==> forall k :: k in r.value ==> r.value[k] == SumPresent(Lookup(table, k, []), FirstRow(f))
    decreases |table|
  {
    if |table| == 0 then Success(map[])
    else
      var init := table[..|table| - 1];
      var last := table[|table| - 1];
      TableAnyPresentSplit(table, f);
      var prev := CanonicalizeColumns(init, f);
      if prev.Failure? then prev
      else
        var sum := ColumnSum(last.1, f);
        if sum.Failure? then Failure(sum.error)
        else Success(prev.value[last.0 := sum.value])
  }

  /** `key_to_col` defines the seven canonical keys, each with its own
      column list. */
  lemma KeyToColumnsFacts()
    ensures Keys(KeyToColumns) == CanonicalKeys
    ensures Lookup(KeyToColumns, "bond", []) == ["Bond"]
    ensures Lookup(KeyToColumns, "angle", []) == ["Angle"]
    ensures Lookup(KeyToColumns, "dihedral", []) == DihedralColumns
    ensures Lookup(KeyToColumns, "LJ", []) == LJColumns
    ensures Lookup(KeyToColumns, "QQ", []) == QQColumns
    ensures Lookup(KeyToColumns, "nonbond", []) == NonbondColumns
    ensures Lookup(KeyToColumns, "all", []) == ["Potential"]
  {
    var t := KeyToColumns;
    KeysAre(t);
    assert t[0].0 == "bond" && t[1].0 == "angle" && t[2].0 == "dihedral" && t[3].0 == "LJ";
    assert t[4].0 == "QQ" && t[5].0 == "nonbond" && t[6].0 == "all";
    LookupAt(t, 0, []);
    LookupAt(t, 1, []);
    LookupAt(t, 2, []);
    LookupAt(t, 3, []);
    LookupAt(t, 4, []);
    LookupAt(t, 5, []);
    LookupAt(t, 6, []);
  }

  /** The nonbonded columns are the Lennard-Jones columns and the Coulomb
      columns together, so for any row nonbond == LJ + QQ. */
  lemma NonbondIsLJPlusQQ(row: map<string, real>)
    ensures SumPresent(NonbondColumns, row) == SumPresent(LJColumns, row) + SumPresent(QQColumns, row)
  {
    SumPresentAppend(LJColumns, QQColumns, row);
    assert multiset(NonbondColumns) == multiset(LJColumns + QQColumns);
    SumPresentPermutation(NonbondColumns, LJColumns + QQColumns, row);
  }

  /** `get_gmx_energy`: the canonical energies of the first frame, under
      `gromacs`. */
  function GetGmxEnergy(f: EnergyFrame): (r: Result<map<string, map<string, real>>, FrameError>)
    requires Valid(f)
    ensures r.Failure? <==> |f.rows| == 0 && TableAnyPresent(KeyToColumns, f)
    ensures r.Success? ==> r.value.Keys == {"gromacs"} && r.value["gromacs"].Keys == CanonicalKeys
    ensures r.Success? ==> forall k :: k in CanonicalKeys ==>
                             r.value["gromacs"][k] == SumPresent(Lookup(KeyToColumns, k, []), FirstRow(f))
    ensures r.Success? ==> r.value["gromacs"]["nonbond"] == r.value["gromacs"]["LJ"] + r.value["gromacs"]["QQ"]
    ensures r.Success? ==> r.value["gromacs"]["dihedral"] == SumPresent(DihedralColumns, FirstRow(f))
    ensures r.Success? ==> r.value["gromacs"]["all"] == SumPresent(["Potential"], FirstRow(f))
  {
    var c := CanonicalizeColumns(KeyToColumns, f);
    if c.Failure? then Failure(c.error)
    else
      KeyToColumnsFacts();
      NonbondIsLJPlusQQ(FirstRow(f));
      Success(map["gromacs" := c.value])
  }

  /** Only the first frame is read: frames with the same columns and the
      same first row give the same energies. */
  lemma {:induction false} FirstFrameOnly(table: seq<(string, seq<string>)>, f1: EnergyFrame, f2: EnergyFrame)
    requires Valid(f1) && Valid(f2)
    requires f1.columns == f2.columns
    requires |f1.rows| > 0 && |f2.rows| > 0 && f1.rows[0] == f2.rows[0]
    ensures CanonicalizeColumns(table, f1) == CanonicalizeColumns(table, f2)
    decreases |table|
  {
    if |table| > 0 {
      FirstFrameOnly(table[..|table| - 1], f1, f2);
    }
  }

  /** A key none of whose columns the frame has is 0. */
  lemma AbsentColumnsGiveZero(f: EnergyFrame, i: nat)
    requires Valid(f)
    requires i < |KeyToColumns|
    requires !AnyPresent(KeyToColumns[i].1, f)
    ensures ColumnSum(KeyToColumns[i].1, f) == Success(0.0)
  {
    var cols := KeyToColumns[i].1;
    forall j | 0 <= j < |cols| ensures cols[j] !in FirstRow(f) {
      assert cols[j] !in f.columns;
    }
    SumPresentNonepresent(cols, FirstRow(f));
  }

  /** `df[columns]`: the values of the named columns, in order; `None` is
      the `KeyError` of a missing column. */
  function SelectColumns(values: map<string, real>, order: seq<string>): (r: Option<seq<real>>)
    ensures r.None? <==> exists i :: 0 <= i < |order| && order[i] !in values
    ensures r.Some? ==> |r.value| == |order|
                        && forall i :: 0 <= i < |order| ==> r.value[i] == values[order[i]]
    decreases |order|
  {
    if |order| == 0 then Some([])
    else
      var rest := SelectColumns(values, order[1..]);
      assert (exists i :: 0 <= i < |order| && order[i] !in values) <==>
             order[0] !in values || exists i :: 0 <= i < |order[1..]| && order[1..][i] !in values by {
        if exists i :: 0 <= i < |order| && order[i] !in values {
          var i :| 0 <= i < |order| && order[i] !in values;
          if i > 0 {
            assert order[1..][i - 1] == order[i];
          }
        }
        if exists i :: 0 <= i < |order[1..]| && order[1..][i] !in values {
          var i :| 0 <= i < |order[1..]| && order[1..][i] !in values;
          assert order[i + 1] == order[1..][i];
        }
      }
      if order[0] !in values || rest.None? then None
      else Some([values[order[0]]] + rest.value)
  }

  /** The measurement part of `build_run_measure_gromacs`: canonicalise the
      energy file and lay the result out in `ColumnOrder`. */
  function MeasuredRow(f: EnergyFrame): (r: Result<seq<real>, FrameError>)
    requires Valid(f)
    ensures r.Failure? <==> GetGmxEnergy(f).Failure?
    ensures r.Success? ==> |r.value| == |ColumnOrder|
    ensures r.Success? ==> r.value[5] == r.value[3] + r.value[4]
    ensures r.Success? ==> forall i :: 0 <= i < |ColumnOrder| ==> r.value[i] == GetGmxEnergy(f).value["gromacs"][ColumnOrder[i]]
  {
    var e := GetGmxEnergy(f);
    if e.Failure? then Failure(e.error)
    else
      var values := e.value["gromacs"];
      var sel := SelectColumns(values, ColumnOrder);
      if sel.None? then
        assert false;
        Failure(NoFirstRow)
      else
        assert ColumnOrder[3] == "LJ" && ColumnOrder[4] == "QQ" && ColumnOrder[5] == "nonbond";
        Success(sel.value)
  }

  // ---------------------------------------------------------------------
  // Command lines
  // ---------------------------------------------------------------------

  /** A shell command and the output stem the step returns; running the
      command is not modelled. */
  datatype Invocation = Invocation(command: string, stem: string)

  /** The arguments `run_grompp` passes after the executable. */
  function GromppArgs(mdp: string, gro: string, top: string, output: string): seq<string>
  {
    ["-f", mdp, "-c", gro, "-p", top, "-o", output, "-maxwarn", "5"]
  }

  lemma UnwordsCons(ws: seq<string>)
    requires |ws| >= 2
    ensures Unwords(ws) == ws[0] + " " + Unwords(ws[1..])
  {
  }

  /** The `grompp` arguments joined by single spaces, spelled out. */
  lemma GromppArgsJoined(mdp: string, gro: string, top: string, output: string)
    ensures Unwords(GromppArgs(mdp, gro, top, output))
            == "-f" + " " + (mdp + " " + ("-c" + " " + (gro + " " + ("-p" + " " + (top + " " + ("-o" + " " + (output + " " + ("-maxwarn" + " " + "5"))))))))
  {
    var a := GromppArgs(mdp, gro, top, output);
    UnwordsCons(a[8..]); assert a[8..][1..] == a[9..];
    UnwordsCons(a[7..]); assert a[7..][1..] == a[8..];
    UnwordsCons(a[6..]); assert a[6..][1..] == a[7..];
    UnwordsCons(a[5..]); assert a[5..][1..] == a[6..];
    UnwordsCons(a[4..]); assert a[4..][1..] == a[5..];
    UnwordsCons(a[3..]); assert a[3..][1..] == a[4..];
    UnwordsCons(a[2..]); assert a[2..][1..] == a[3..];
    UnwordsCons(a[1..]); assert a[1..][1..] == a[2..];
    UnwordsCons(a);
    assert Unwords(a[9..]) == "5";
  }

  /** `run_grompp`: the preprocessor command line, and the output stem. */
  function RunGrompp(grompp: string, mdp: string, gro: string, top: string, output: string): (r: Invocation)
    ensures r.command == grompp + " " + Unwords(GromppArgs(mdp, gro, top, output))
    ensures r.stem == output
  {
    GromppArgsJoined(mdp, gro, top, output);
    Invocation(grompp + " " + ("-f" + " " + (mdp + " " + ("-c" + " " + (gro + " " + ("-p" + " " + (top + " "
               + ("-o" + " " + (output + " " + ("-maxwarn" + " " + "5"))))))))),
               output)
  }

  /** With file names free of whitespace, the command splits (as Python's
      `str.split()` does) into the prefix's words followed by the ten
      arguments, and the returned stem is the word after `-o`. Shell
      quoting, expansion and metacharacters are not modelled. */
  lemma GromppCommandWords(grompp: string, mdp: string, gro: string, top: string, output: string)
    requires IsWord(mdp) && IsWord(gro) && IsWord(top) && IsWord(output)
    ensures Words(RunGrompp(grompp, mdp, gro, top, output).command)
            == Words(grompp) + GromppArgs(mdp, gro, top, output)
    ensures Words(RunGrompp(grompp, mdp, gro, top, output).command)[|Words(grompp)| + 7]
            == RunGrompp(grompp, mdp, gro, top, output).stem
  {
    var a := GromppArgs(mdp, gro, top, output);
    assert forall i :: 0 <= i < |a| ==> IsWord(a[i]);
    WordsOfUnwords(a);
    WordsSplitAtSpace(grompp, ' ', Unwords(a));
  }

  /** The words of `<mdrun> <flag> <output>`, for any whitespace-free flag
      and output stem. */
  lemma MdrunCommandWords(mdrun: string, flag: string, output: string)
    requires IsWord(flag) && IsWord(output)
    ensures Words(mdrun + " " + flag + " " + output) == Words(mdrun) + [flag, output]
  {
    assert mdrun + " " + flag + " " + output == mdrun + [' '] + (flag + [' '] + output);
    WordsSplitAtSpace(flag, ' ', output);
    WordsOfWord(flag);
    WordsOfWord(output);
    WordsSplitAtSpace(mdrun, ' ', flag + [' '] + output);
  }

  /** `run_mdrun`: the engine command line, and the output stem. */
  function RunMdrun(mdrun: string, output: string): (r: Invocation)
    ensures r.command == mdrun + " " + Unwords(["-deffnm", output])
    ensures IsWord(output) ==> Words(r.command) == Words(mdrun) + ["-deffnm", output]
    ensures r.stem == output
  {
    var command := mdrun + " -deffnm " + output;
    assert Unwords(["-deffnm", output]) == "-deffnm" + " " + output;
    if IsWord(output) then
      assert command == mdrun + " " + "-deffnm" + " " + output;
      assert IsWord("-deffnm");
      MdrunCommandWords(mdrun, "-deffnm", output);
      Invocation(command, output)
    else
      Invocation(command, output)
  }

  // ---------------------------------------------------------------------
  // Executable detection
  // ---------------------------------------------------------------------

  /** `detect_gmx_binaries` raises `ValueError` when neither executable is found. */
  datatype GmxError = GmxNotFound

  /** An executable name followed by a subcommand, with or without a
      trailing space, splits into those two words. */
  lemma {:induction false} SubcommandWords(command: string, exe: string, sub: string, trailing: bool)
    requires IsWord(exe) && IsWord(sub)
    requires command == exe + " " + sub + (if trailing then " " else "")
    ensures Words(command) == [exe, sub]
  {
    WordsOfWord(exe);
    WordsOfWord(sub);
    WordsSplitAtSpace(sub, ' ', "");
    assert sub + [' '] + "" == sub + " ";
    if trailing {
      assert command == exe + [' '] + (sub + " ");
      WordsSplitAtSpace(exe, ' ', sub + " ");
    } else {
      assert command == exe + [' '] + sub;
      WordsSplitAtSpace(exe, ' ', sub);
    }
  }

  lemma ExecutableNamesAreWords()
    ensures IsWord("gmx") && IsWord("gmx_d") && IsWord("grompp") && IsWord("mdrun")
  {
  }

  lemma GmxGromppWords()
    ensures Words("gmx grompp ") == ["gmx", "grompp"]
  {
    ExecutableNamesAreWords();
    SubcommandWords("gmx grompp ", "gmx", "grompp", true);
  }

  lemma GmxMdrunWords()
    ensures Words("gmx mdrun ") == ["gmx", "mdrun"]
  {
    ExecutableNamesAreWords();
    SubcommandWords("gmx mdrun ", "gmx", "mdrun", true);
  }

  lemma GmxDoubleGromppWords()
    ensures Words("gmx_d grompp") == ["gmx_d", "grompp"]
  {
    ExecutableNamesAreWords();
    SubcommandWords("gmx_d grompp", "gmx_d", "grompp", false);
  }

  lemma GmxDoubleMdrunWords()
    ensures Words("gmx_d mdrun") == ["gmx_d", "mdrun"]
  {
    ExecutableNamesAreWords();
    SubcommandWords("gmx_d mdrun", "gmx_d", "mdrun", false);
  }

  /** The four command prefixes `detect_gmx_binaries` can return. */
  lemma GmxCommandWords()
    ensures Words("gmx grompp ") == ["gmx", "grompp"] && Words("gmx mdrun ") == ["gmx", "mdrun"]
    ensures Words("gmx_d grompp") == ["gmx_d", "grompp"] && Words("gmx_d mdrun") == ["gmx_d", "mdrun"]
  {
    GmxGromppWords();
    GmxMdrunWords();
    GmxDoubleGromppWords();
    GmxDoubleMdrunWords();
  }

  /** `detect_gmx_binaries`: the `grompp` and `mdrun` commands of `gmx`
      when it is on the path, else of `gmx_d`. (The `gmx` strings carry a
      trailing space and the `gmx_d` ones do not; both run the same
      executable and subcommand.) */
  function DetectGmxBinaries(which: string -> Option<string>): (r: Result<(string, string), GmxError>)
    ensures r.Success? <==> which("gmx").Some? || which("gmx_d").Some?
    ensures r.Success? ==>
              var exe := if which("gmx").Some? then "gmx" else "gmx_d";
              Words(r.value.0) == [exe, "grompp"] && Words(r.value.1) == [exe, "mdrun"]
    ensures r.Success? ==> |r.value.0| > 0 && |r.value.1| > 0
    ensures r.Success? ==> (r.value.0[|r.value.0| - 1] == ' ' <==> which("gmx").Some?)
                           && (r.value.1[|r.value.1| - 1] == ' ' <==> which("gmx").Some?)
  {
    GmxCommandWords();
    if which("gmx").Some? then Success(("gmx grompp ", "gmx mdrun "))
    else if which("gmx_d").Some? then Success(("gmx_d grompp", "gmx_d mdrun"))
    else Failure(GmxNotFound)
  }

  /** The command sequence of `build_run_measure_gromacs`: `grompp` writes
      the run input under the stem given to `-o`; `mdrun` runs on the stem
      `run_grompp` returns, so `-deffnm` names the same stem; the energies
      are then read from that stem's `.edr` file. Stated for any command
      prefixes that invoke one executable's `grompp` and `mdrun`, which
      `DetectGmxBinaries` guarantees, and any whitespace-free file names
      (the pipeline uses `grompp.mdp`, `structure.gro`, `structure.top`
      and the stem `out`). */
  lemma PipelineCommands(grompp: string, mdrun: string, exe: string,
                         mdp: string, gro: string, top: string, output: string)
    requires Words(grompp) == [exe, "grompp"] && Words(mdrun) == [exe, "mdrun"]
    requires IsWord(mdp) && IsWord(gro) && IsWord(top) && IsWord(output)
    ensures var g := RunGrompp(grompp, mdp, gro, top, output);
            var m := RunMdrun(mdrun, g.stem);
            && Words(g.command) == [exe, "grompp"] + GromppArgs(mdp, gro, top, output)
            && Words(m.command) == [exe, "mdrun", "-deffnm", output]
            && m.stem == g.stem && g.stem == output
  {
    GromppCommandWords(grompp, mdp, gro, top, output);
  }
}
