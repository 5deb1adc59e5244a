# commpare energy canonicalisation and engine selection, in Dafny

commpare runs one molecular structure through several simulation engines and
compares the single-point energies they report. Each engine reports its
energies in its own vocabulary. commpare turns them into a shared set of
canonical keys: `bond`, `angle`, `dihedral`, `nonbond` and `all`, plus `LJ`
and `QQ` for GROMACS. It also decides which engines and which binaries to use.

This project models that logic as pure Dafny functions and proves properties
about them. The modules follow the repository's layout:

- `Text` (text.dfy) gives Python's `str.strip()` and `str.split()` semantics
  (Python's whitespace set). It also provides the word-joining used to build
  command lines.
- `Sums` (sums.dfy) gives "sum the values of the listed names that are
  present". This is the reduction every engine's canonicaliser uses.
- `Tables` (tables.dfy) holds the ordered key/value literals that the code
  iterates, such as `key_to_col` and `key_to_data`. Keys are listed once, and
  a later entry would win.
- `Cassandra` (cassandra.dfy) covers:
  - the property-file parser, which is silent until the marker line
    `Compute total energy` and then stores one key/value per non-blank line;
  - the canonicaliser, which sums the listed fields scaled by 0.01 into kJ/mol;
  - the first-match executable search;
  - the dihedral-style choice.
- `Gromacs` (gromacs.dfy) covers:
  - the column canonicaliser over the first row of the energy table;
  - the final column order;
  - the `grompp`/`mdrun` command lines;
  - the `gmx`/`gmx_d` preference.
- `OpenMM` (openmm.dfy) covers force-group assignment, reading the groups
  back per canonical key, and the choice of energy query.
- `Hoomd` (hoomd.dfy) covers classifying forces by module name and summing
  per-force energies.
- `MMEngines` (engines.dfy) covers the engine detectors and the ordered
  engine list, including an import error that escapes a detector.
- `Conversion` (conversion.dfy) covers `spawn_engine_simulations`: the
  dispatch from engine names to builders, and the loop that stops when a
  builder raises.

External effects are function parameters (oracles):

| oracle | stands for |
|---|---|
| `which: string -> Option<string>` | `shutil.which` |
| `imports: string -> ImportResult` | how `importlib.import_module` ends: it imports, it raises `ModuleNotFoundError`, or it raises another exception |
| `toNumber: string -> Option<real>` | Python's `float`; `None` where it raises |
| per-force `energy` fields | OpenMM's and HOOMD's energy evaluation |
| an `EnergyFrame` (column set and rows) | the table `panedr.edr_to_df` returns |
| `build: (nat, Builder<K>) -> Result<R, E>` | the engine builders `build_run_measure_*`: for the `n`-th call of the loop (from 0), the measured row or the exception the builder raised. Indexing by call position lets two calls of the same builder end differently, as they can through shared process state such as HOOMD's global context |
| `failed: bool` | whether the OpenMM `try` block raised |

A property file is modelled as its sequence of lines. Energies are real
numbers. The unit factor 0.01 is exact.

A Cassandra canonical key whose fields are all absent is `0`. The `'N/A'`
branch at cassandra_utils.py:80-87 can never run, because no entry of
`key_to_data` is `None`. `Cassandra.GetCassandraEnergy` proves that every
value is a number.

In OpenMM, an unrecognised force keeps whatever force group it had. If that
group coincides with 0, 1, 11 or 12, its energy is counted under the
corresponding canonical key when that key has at least one recognised force.
A key with no recognised force has an empty group set and reads 0
(openmm_utils.py:35-36). `OpenMM.MeasuredEnergies` states this exactly.
`OpenMM.MeasuredEnergiesDecompose` gives the condition under which the four
keys plus the unrecognised energy add up to `all`.

## Model

| member | source | states |
|---|---|---|
| Text.Strip | commpare/cassandra/cassandra_utils.py:68 | `strip()` never lengthens a line, and its result is empty or starts and ends with a non-whitespace character |
| Text.StripPieces | commpare/cassandra/cassandra_utils.py:68 | `strip()` removes only whitespace: every line is leading whitespace, then its stripped text, then trailing whitespace |
| Text.StripUnchanged | commpare/cassandra/cassandra_utils.py:68 | `strip()` leaves a string alone when it already has no whitespace at either end |
| Text.WordsAreWords | commpare/cassandra/cassandra_utils.py:70 | every item `split()` returns is non-empty and whitespace-free, and `split()` is `[]` exactly when the line is all whitespace |
| Text.WordsOfUnwords | commpare/cassandra/cassandra_utils.py:70-74 | splitting words joined by single spaces gives back exactly those words |
| Text.WordsOfStripUnwords | commpare/cassandra/cassandra_utils.py:70-74 | `strip().split()` of space-joined words is those words |
| Text.WordsSplitAtSpace | commpare/gromacs/gromacs_utils.py:76-80 | splitting a string glued at a whitespace character is the concatenation of splitting each side, which is how the pieces of a command string combine |
| Sums.SumPresent | commpare/gromacs/gromacs_utils.py:53-55 | the sum of the values of the listed names that are present, in list order; absent names add nothing (also cassandra_utils.py:82-85) |
| Sums.SumPresentAppend | commpare/gromacs/gromacs_utils.py:53-55 | summing the present columns of a concatenated list is the sum over each part |
| Sums.SumPresentPermutation | commpare/gromacs/gromacs_utils.py:45-47 | the sum over present names does not depend on the order of the list |
| Sums.SumPresentNonepresent | commpare/gromacs/gromacs_utils.py:53-55 | a list with no present name sums to 0 |
| Sums.SumPresentFrame | commpare/gromacs/gromacs_utils.py:53-55 | the sum reads only the listed names: two maps that agree on them give the same sum |
| Sums.SumPresentScale | commpare/cassandra/cassandra_utils.py:82-85 | multiplying every value by a factor before summing gives the factor times the sum |
| Text.Words | commpare/cassandra/cassandra_utils.py:70-74 | Python's `str.split()` with no argument: the maximal runs of non-whitespace characters, in order |
| Text.Concat | commpare/cassandra/cassandra_utils.py:71-73 | the words joined with no separator, as the `key += word` loop builds the key |
| Tables.KeysAre | commpare/gromacs/gromacs_utils.py:42-48 | the keys of a table literal are exactly the first components of its entries |
| Tables.LookupAt | commpare/gromacs/gromacs_utils.py:42-48 | looking a key up in a table literal gives the entry listed under it when no later entry repeats the key |
| Cassandra.IsMarker | commpare/cassandra/cassandra_utils.py:68 | a line is the marker exactly when its stripped text is `Compute total energy` |
| Cassandra.LineEntry | commpare/cassandra/cassandra_utils.py:70-75 | a line with no words yields no entry; otherwise the entry is the concatenation of all words but the last, mapped to the last word |
| Cassandra.Collect | commpare/cassandra/cassandra_utils.py:70-75 | the entries of a run of lines stored in order, a later entry replacing an earlier one under the same key |
| Cassandra.PropertyMap | commpare/cassandra/cassandra_utils.py:64-75 | the lines from the first marker onward, collected; nothing when there is no marker |
| Cassandra.StripAllSpace | commpare/cassandra/cassandra_utils.py:70 | a line strips to whitespace exactly when it was all whitespace |
| Cassandra.BlankLineEntry | commpare/cassandra/cassandra_utils.py:70-74 | a line yields no entry exactly when `line.strip().split()` is empty; otherwise its value is a single word |
| Cassandra.LineEntryOfWords | commpare/cassandra/cassandra_utils.py:71-74 | a line made of words yields the key formed by concatenating all words but the last with no separator, and the last word as its value |
| Cassandra.OneWordLine | commpare/cassandra/cassandra_utils.py:71-74 | a one-word line stores its word under the empty key |
| Cassandra.LineEntryOfStripped | commpare/cassandra/cassandra_utils.py:70-74 | the entry depends only on the stripped line |
| Cassandra.MarkerEntry | commpare/cassandra/cassandra_utils.py:68-75 | the marker line itself is parsed and stores `energy` under the key `Computetotal` |
| Cassandra.FirstMarker | commpare/cassandra/cassandra_utils.py:68-69 | gives the index of the first line whose stripped text is exactly `Compute total energy`, with no marker before it; `None` means no line is a marker |
| Cassandra.FirstMarkerIs | commpare/cassandra/cassandra_utils.py:68-69 | a marker line preceded by no marker is the first marker |
| Cassandra.FirstMarkerAppend | commpare/cassandra/cassandra_utils.py:68-69 | once a marker has been seen, later lines never move it, so the reading flag is never cleared; with no marker yet, a non-marker line leaves it unset |
| Cassandra.FirstMarkerAfter | commpare/cassandra/cassandra_utils.py:65-69 | a marker-free prefix only shifts the position of the first marker |
| Cassandra.PrefixIgnored | commpare/cassandra/cassandra_utils.py:65-75 | lines before the first marker do not affect the parsed map |
| Cassandra.CollectAppend | commpare/cassandra/cassandra_utils.py:75 | folding one more line into the map stores that line's entry on top of the earlier ones |
| Cassandra.PropertyMapStep | commpare/cassandra/cassandra_utils.py:67-75 | one more line is stored exactly when the marker has been seen or this line is the marker; otherwise the map is unchanged |
| Cassandra.StepAfterMarker | commpare/cassandra/cassandra_utils.py:70-75 | after the marker, each line is stored on top of the map so far |
| Cassandra.StepAtMarker | commpare/cassandra/cassandra_utils.py:68-75 | at the first marker, reading starts with the marker line itself |
| Cassandra.ParsePropertyFile | commpare/cassandra/cassandra_utils.py:64-75 | the flag-driven loop computes the reference map: the entries of the lines from the first marker onward, folded in order |
| Cassandra.BlankLineIgnored | commpare/cassandra/cassandra_utils.py:70 | a whitespace-only line never adds or changes an entry |
| Cassandra.LastOccurrenceWins | commpare/cassandra/cassandra_utils.py:75 | after the marker, a non-blank line overwrites any earlier value for its key |
| Cassandra.Numbers | commpare/cassandra/cassandra_utils.py:83 | the numeric view of the map holds exactly the properties whose text reads as a number, each with the number `float` reads from it |
| Cassandra.ScaledSum | commpare/cassandra/cassandra_utils.py:82-85 | fails exactly when a listed, present field does not read as a number, and names that field; otherwise it is 0.01 × the sum of the present listed fields |
| Cassandra.ScaledSumPerTerm | commpare/cassandra/cassandra_utils.py:82-85 | when every present listed field parses, the sum is that of each field's number multiplied by 0.01, term by term as the list comprehension does |
| Cassandra.CanonicalizeWith | commpare/cassandra/cassandra_utils.py:80-87 | fails exactly when some key's present fields do not parse; otherwise it has one value per table key, each computed from that key's own field list |
| Cassandra.KeyToDataFacts | commpare/cassandra/cassandra_utils.py:56-62 | the mapping has exactly the keys bond, angle, dihedral, nonbond and all, and none maps to `None`; bond is `Bondenergy`, angle `Bondangleenergy`, dihedral `Dihedralangleenergy`, all `Totalsystemenergy`, and nonbond the six listed fields |
| Cassandra.GetCassandraEnergy | commpare/cassandra/cassandra_utils.py:46-89 | the result holds only `cassandra`, with exactly the five canonical keys; every value is a number (never `'N/A'`); each key is 0.01 × the sum of its own present fields, read from the lines after the marker (nonbond over its six fields, all over `Totalsystemenergy`); it fails exactly when a needed field is not a number |
| Cassandra.AbsentFieldsGiveZero | commpare/cassandra/cassandra_utils.py:82-85 | a key none of whose fields is present is 0 |
| Cassandra.NonbondReadsOnlyItsFields | commpare/cassandra/cassandra_utils.py:60-61 | nonbond depends only on its six fields: maps that agree on them give the same value |
| Cassandra.FirstResolved | commpare/cassandra/cassandra_utils.py:134-137 | the search finds nothing exactly when no name resolves; otherwise it returns the resolution of the first name that resolves |
| Cassandra.DetectCassandraBinaries | commpare/cassandra/cassandra_utils.py:123-157 | fails with the Cassandra error exactly when no Cassandra binary or no `library_setup.py` resolves; fails with the python2 error exactly when those are found but neither `python2` nor `python2.7` is; on success returns the setup script and the first resolving Cassandra binary |
| Cassandra.DihedralStyle | commpare/cassandra/cassandra_utils.py:24-27 | the style is `charmm` exactly when the structure has a dihedral, and `opls` exactly when it has none |
| Gromacs.ColumnSum | commpare/gromacs/gromacs_utils.py:53-55 | the value is the sum of the first row's entries over the listed columns present in the table; it fails only when a listed column is present but the table has no row |
| Gromacs.CanonicalizeColumns | commpare/gromacs/gromacs_utils.py:52-55 | there is one value per table key, each the present-column sum of that key's own list; it fails exactly when the table has no row and some listed column is present |
| Gromacs.KeyToColumnsFacts | commpare/gromacs/gromacs_utils.py:42-48 | the mapping has exactly the seven canonical keys, and each key maps to the columns the code lists for it; dihedral maps to both `Proper Dih.` and `Ryckaert-Bell.` |
| Gromacs.NonbondIsLJPlusQQ | commpare/gromacs/gromacs_utils.py:45-47 | for any row, the nonbond sum equals the LJ sum plus the QQ sum |
| Gromacs.GetGmxEnergy | commpare/gromacs/gromacs_utils.py:34-57 | the result holds only `gromacs`, with exactly bond, angle, dihedral, LJ, QQ, nonbond and all; every key is the first-row sum of the present columns `key_to_col` lists for it; nonbond = LJ + QQ |
| Gromacs.FirstFrameOnly | commpare/gromacs/gromacs_utils.py:54 | two tables with the same columns and the same first row canonicalise identically, so later rows are never read |
| Gromacs.AbsentColumnsGiveZero | commpare/gromacs/gromacs_utils.py:53-55 | a key none of whose columns is present is 0 |
| Gromacs.SelectColumns | commpare/gromacs/gromacs_utils.py:30 | selecting columns by name fails exactly when a requested name is missing; otherwise item i is the value of the i-th requested column |
| Gromacs.MeasuredRow | commpare/gromacs/gromacs_utils.py:26-30 | the final row has the seven values in the order bond, angle, dihedral, LJ, QQ, nonbond, all, each the canonical value of that key, and its nonbond entry is LJ + QQ |
| Gromacs.RunGrompp | commpare/gromacs/gromacs_utils.py:75-93 | the command is the grompp prefix, a space, then `-f mdp -c gro -p top -o output -maxwarn 5` joined by single spaces; the returned stem is `output` unchanged |
| Gromacs.GromppCommandWords | commpare/gromacs/gromacs_utils.py:76-80 | for file names without whitespace, the command splits into the prefix's words followed by the ten arguments, and the word after `-o` is the returned stem |
| Gromacs.MdrunCommandWords | commpare/gromacs/gromacs_utils.py:60 | for a whitespace-free flag and stem, the mdrun command splits into the prefix's words, then the flag and the stem |
| Gromacs.RunMdrun | commpare/gromacs/gromacs_utils.py:59-73 | the command is exactly the mdrun prefix, then ` -deffnm `, then the stem; for a whitespace-free stem it splits into the prefix's words, `-deffnm` and the stem; the returned stem is the input unchanged |
| Gromacs.SubcommandWords | commpare/gromacs/gromacs_utils.py:100-105 | an executable and subcommand joined by a space split into exactly those two words, with or without a trailing space |
| Gromacs.GmxCommandWords | commpare/gromacs/gromacs_utils.py:100-105 | the four prefixes split into `gmx`/`gmx_d` followed by `grompp`/`mdrun` |
| Gromacs.DetectGmxBinaries | commpare/gromacs/gromacs_utils.py:96-109 | succeeds exactly when `gmx` or `gmx_d` resolves; prefers `gmx`; the prefixes split into that executable and `grompp`/`mdrun`; they end with a space exactly when `gmx` was chosen |
| Gromacs.PipelineCommands | commpare/gromacs/gromacs_utils.py:20-26 | running grompp and then mdrun on grompp's returned stem gives command lines whose `-o` and `-deffnm` arguments are the same word `output`, and both return that stem, so the energy file read is `output.edr` |
| OpenMM.Category | commpare/openmm/openmm_utils.py:45-57 | a recognised force class belongs to one of bond, angle, dihedral and nonbond |
| OpenMM.AssignedGroup | commpare/openmm/openmm_utils.py:63-75 | exactly the recognised classes get a group, and it is their category's group: bond 0, angle 1, both torsions 12, nonbonded 11 |
| OpenMM.CategoryGroupsDistinct | commpare/openmm/openmm_utils.py:63-75 | different categories get different group numbers |
| OpenMM.SetForceGroups | commpare/openmm/openmm_utils.py:61-75 | every force keeps its class and energy; a recognised force gets its category's group; any other force keeps its group |
| OpenMM.SetForceGroupsIdempotent | commpare/openmm/openmm_utils.py:61-75 | assigning groups twice is the same as once |
| OpenMM.GetForceGroups | commpare/openmm/openmm_utils.py:41-59 | the keys are bond, angle, dihedral, nonbond and all; `all` is `{-1}`; a group is in a category's set exactly when some force of that category carries it, and unrecognised forces add nothing |
| OpenMM.GroupsAfterSet | commpare/openmm/openmm_utils.py:41-75 | after assignment, a category's set is exactly its own group when the system has such a force, and empty otherwise |
| OpenMM.GroupsDisjointAfterSet | commpare/openmm/openmm_utils.py:41-75 | after assignment, each category's set lies within its own group, and the category sets are pairwise disjoint and disjoint from `all` |
| OpenMM.GroupEnergy | commpare/openmm/openmm_utils.py:37-38 | the energy restricted to a set of groups: the sum over the forces whose group is in the set |
| OpenMM.TotalEnergy | commpare/openmm/openmm_utils.py:33-34 | the full potential energy: the sum over all forces |
| OpenMM.KindEnergy | commpare/openmm/openmm_utils.py:45-57 | the energy of the forces of one category |
| OpenMM.GroupEnergyNoGroups | commpare/openmm/openmm_utils.py:35-36 | the energy of the empty group set is 0 |
| OpenMM.KindEnergyNoKind | commpare/openmm/openmm_utils.py:37-38 | a category with no forces contributes no energy |
| OpenMM.GroupEnergyAfterSet | commpare/openmm/openmm_utils.py:37-38 | after assignment, the energy of a category's group is that category's energy plus that of unrecognised forces left in the same group |
| OpenMM.TotalIsSumOfKinds | commpare/openmm/openmm_utils.py:33-34 | the full potential energy is the sum of the four categories' energies plus that of unrecognised forces |
| OpenMM.TotalUnchangedBySet | commpare/openmm/openmm_utils.py:61-75 | assigning force groups does not change the full potential energy |
| OpenMM.GetOmmEnergy | commpare/openmm/openmm_utils.py:27-38 | `all` is the full potential energy whatever the groups; any other key must be present (otherwise the lookup fails) and gives the energy restricted to its groups, 0 for none |
| OpenMM.BuildRunMeasureOpenMM | commpare/openmm/openmm_utils.py:6-25 | the result holds only `openmm`; after an exception the row is empty, otherwise it has one value per classification key |
| OpenMM.MeasuredEnergies | commpare/openmm/openmm_utils.py:15-20 | `all` is the full potential energy; each category is its own forces' energy, plus that of unrecognised forces sharing its group when the category has forces |
| OpenMM.MeasuredEnergiesDecompose | commpare/openmm/openmm_utils.py:15-20 | when no unrecognised force sits in group 0, 1, 11 or 12, bond + angle + dihedral + nonbond + the unrecognised energy is `all` |
| Hoomd.Category | commpare/hoomd/hoomd_utils.py:18-31 | a recognised module name maps to one of the four categories |
| Hoomd.OfCategory | commpare/hoomd/hoomd_utils.py:17-31 | the forces whose module name maps to a category, in input order |
| Hoomd.Recognised | commpare/hoomd/hoomd_utils.py:17-33 | the forces whose module name is recognised, in input order; the others are ignored |
| Hoomd.SumEnergy | commpare/hoomd/hoomd_utils.py:51-53 | the sum of per-force energies over a list, 0 for an empty list |
| Hoomd.OfCategoryAppend | commpare/hoomd/hoomd_utils.py:17-31 | a category's list for concatenated force lists is the concatenation of the lists |
| Hoomd.RecognisedAppend | commpare/hoomd/hoomd_utils.py:17-33 | the same for `all` |
| Hoomd.GetHoomdForceGroups | commpare/hoomd/hoomd_utils.py:5-35 | the keys are the four categories and `all`; each category's list is its forces in input order; `all` is exactly the recognised forces in input order |
| Hoomd.OfCategoryMembers | commpare/hoomd/hoomd_utils.py:17-33 | a force is in a category's list exactly when it is one of the forces and its module name maps to that category |
| Hoomd.AllIsSumOfKeys | commpare/hoomd/hoomd_utils.py:19-31 | `all` has as many forces as the four category lists together, and its energy is the sum of theirs |
| Hoomd.GetHoomdEnergy | commpare/hoomd/hoomd_utils.py:37-53 | a key's energy is the sum of the per-force energies over its list (0 for an empty list); a missing key fails |
| Hoomd.MeasureHoomd | commpare/hoomd/hoomd_utils.py:65-69 | the row holds only `hoomd` and has one energy per key, each the sum over that key's forces |
| Hoomd.MeasuredAllIsSumOfKeys | commpare/hoomd/hoomd_utils.py:51-53 | in the measured row, all = bond + angle + dihedral + nonbond |
| MMEngines.DetectGromacs | commpare/mm_engines.py:20-25 | GROMACS is detected when `gmx` or `gmx_d` is on the path |
| MMEngines.ProbeImport | commpare/mm_engines.py:27-39 | the import probe is true when the module imports and false when it raises `ModuleNotFoundError`; any other import exception escapes, naming the module |
| MMEngines.DetectOpenMM | commpare/mm_engines.py:27-32 | the import probe of `simtk` |
| MMEngines.DetectHoomd | commpare/mm_engines.py:34-39 | the import probe of `hoomd` |
| MMEngines.DetectAmber | commpare/mm_engines.py:41-43 | Amber is never detected |
| MMEngines.DetectDesmond | commpare/mm_engines.py:45-47 | Desmond is never detected |
| MMEngines.IdentifyEngines | commpare/mm_engines.py:5-39 | it raises exactly when importing `simtk` or `hoomd` fails with an exception other than `ModuleNotFoundError`, with the `simtk` error when both do since OpenMM is probed first; otherwise an engine is listed exactly when its detector fires (gromacs: `gmx` or `gmx_d` resolves; openmm: `simtk` imports; hoomd: `hoomd` imports), and the list is a strictly ordered subsequence of gromacs, openmm, hoomd, amber, desmond |
| MMEngines.IdentifiedEnginesDistinct | commpare/mm_engines.py:5-47 | a returned list has no duplicates and never names amber, desmond or cassandra |
| MMEngines.GromacsListedIffBinaries | commpare/mm_engines.py:20-25 | when detection returns, gromacs is listed exactly when the GROMACS binary detection would succeed |
| Conversion.Dispatch | commpare/conversion.py:13-19 | gromacs, openmm and hoomd each trigger exactly their own builder once, and only HOOMD's receives the keyword arguments; any other name triggers nothing |
| Conversion.BuilderCalls | commpare/conversion.py:12-19 | the builder calls the loop plans for an engine list, in list order: the calls it makes when no builder raises |
| Conversion.BuilderCallsAppend | commpare/conversion.py:12-19 | engines are handled in list order: the calls for a concatenated list are the calls for each part in turn |
| Conversion.DispatchCount | commpare/conversion.py:13-19 | one engine name triggers a given builder once if it names that builder's engine, and never otherwise |
| Conversion.BuilderCallCount | commpare/conversion.py:12-19 | each builder is called once per occurrence of its engine in the list, so duplicates repeat calls |
| Conversion.BuilderCallsOnlySupported | commpare/conversion.py:12-19 | the number of calls is the number of gromacs, openmm and hoomd entries, and every HOOMD call carries the given keyword arguments |
| Conversion.EngineList | commpare/conversion.py:7-8 | an explicit engine list is used as given; with none, the detected engines are used, and a detection error propagates |
| Conversion.RunBuilders | commpare/conversion.py:12-19 | the planned builder calls run in order until one raises, the plan's `i`-th call being the loop's `from + i`-th; each returned row is kept |
| Conversion.RunBuildersMeaning | commpare/conversion.py:12-19 | the calls made are a prefix of the plan; the run returns exactly when every planned call returns, and then gives their rows in order, each the outcome of that call at its own position; otherwise the last call made is the first that raised, every earlier one returned, and its exception is the run's |
| Conversion.RunBuildersCons | commpare/conversion.py:12-19 | after a first call that returns, the run goes on with the remaining calls, numbered from the next position, and puts that call's row first |
| Conversion.RunBuildersSuccessCalls | commpare/conversion.py:12-19 | a run that returns has made every planned call |
| Conversion.RunBuildersAppend | commpare/conversion.py:12-19 | after a list of calls that all return, the run goes on with the next list, numbered after the first list's calls: its calls follow, and either its exception is the run's or its rows follow |
| Conversion.RunBuildersAppendAt | commpare/conversion.py:12-19 | the same, with the calls of the whole run being those of the first part followed by those of the second |
| Conversion.SpawnEngineSimulationsAsWritten | commpare/conversion.py:4-21 | the code as written makes the same builder calls as the corrected version and raises exactly when it does, with the same exception, yet when it returns it returns no rows |
| Conversion.AsWrittenDropsRows | commpare/conversion.py:11-21 | with the engine list `["gromacs"]` and a GROMACS builder that returns, that builder runs once, but the code as written returns no rows where one is intended |
| Conversion.SpawnEngineSimulations | commpare/conversion.py:4-21 | corrected: a detection error raises before any builder runs; otherwise the calls made are a prefix of the planned calls, it returns exactly when every planned call returns, and then gives one row per call in order, the `i`-th being the `i`-th call's row; otherwise it raises the first builder exception after making the calls up to that one |
| Conversion.SpawnGivenList | commpare/conversion.py:7-19 | with an explicit engine list, no detection happens and the result is the run of that list's builder calls from the loop's first call |
| Conversion.SpawnRowsAppend | commpare/conversion.py:12-19 | corrected: after an engine list whose builders all return, a concatenated list makes the second list's calls next, numbered after the first list's, and either raises the first exception among them or returns the rows of each part in turn |
| Conversion.RepeatedEngineRows | commpare/conversion.py:12-19 | a repeated engine (`["hoomd", "hoomd"]`) builds once per occurrence, and each call keeps its own row, so the two rows need not be equal |

## Left out

- Subprocess execution, log and error files, and `print` messages are not
  modelled. This covers `run_fraglib_setup`, `run_cassandra`, and the `Popen`
  and file parts of `run_grompp`/`run_mdrun`. They are I/O. The command
  strings are modelled, and the runners' return value is modelled as the
  output stem.
- The input-file writers `write_gmx_mdp` and `write_cassandra_inp` are not
  modelled. They write a fixed template to disk.
- `temporary_directory` and `temporary_cd` are not modelled. They are
  working-directory plumbing.
- The `build_run_measure_*` orchestration is not modelled beyond the row
  shapes (`Gromacs.MeasuredRow`, `OpenMM.BuildRunMeasureOpenMM`,
  `Hoomd.MeasureHoomd`) and the GROMACS command pipeline. It calls mbuild,
  parmed, panedr, OpenMM and HOOMD, which are not part of this model. The
  possibly unbound `energies` at cassandra_utils.py:42 is not modelled.
- Reading the property file is left out. The file is given as its list of
  lines, and Python's universal-newline handling is not modelled.
- Reading the `.edr` file is left out. The table panedr would return is
  an input, and every row of it has exactly its column set.
- Python's `float` is left out. It is the `toNumber` oracle, and floating-point
  rounding is not modelled. Energies are exact reals.
- OpenMM and HOOMD energy evaluation are left out. They are per-force energies
  given with the forces. OpenMM's group-restricted energy is the sum over
  forces whose group is in the set.
- Gromacs.ColumnSum: with no rows but a present column, the Python code
  raises `IndexError` at `iloc[0]`. The model returns `Failure(NoFirstRow)`
  instead of modelling the exception.
- OpenMM.BuildRunMeasureOpenMM: which step raised is not modelled. Any
  exception is the single `failed` flag.
- Strings are sequences of Unicode scalar values. `Text.IsSpace` is the
  whitespace set that Python's `str.strip()` and `str.split()` use. Unicode
  normalisation is not modelled.
- Builder exceptions are abstract: `build` reports that a call raised and
  with what, not which step inside the builder failed (for example the
  `ValueError` of `detect_gmx_binaries` or panedr on a missing `out.edr`).
- Conversion.SpawnEngineSimulationsAsWritten: models pandas before 2.0,
  where `DataFrame.append` returns a new frame. The `AttributeError` that
  pandas 2.0 and later raise at the first `energies.append` is not modelled.
- The engine names that `identify_engines` can return are all handled. The
  detectors of `commpare/forcefields.py` and `commpare/reference_systems.py`
  are not part of this model.

## Findings

| source | as written | input that shows it | evidently intended | confidence | as-written member | corrected member |
|---|---|---|---|---|---|---|
| commpare/conversion.py:11-21 | with pandas before 2.0, `energies.append(...)` returns a new frame and leaves `energies` unchanged, so the function returns the empty frame bound at line 11 (from pandas 2.0 on, `DataFrame.append` does not exist, and the first `energies.append` reached, at line 14, 16 or 18, raises `AttributeError` at the attribute lookup, before its builder is called) | `engines=["gromacs"]`: the GROMACS builder runs and its row is discarded | return one row per builder call, in call order (`energies = energies.append(...)` or a concatenation) | high; not executed | Conversion.SpawnEngineSimulationsAsWritten, Conversion.AsWrittenDropsRows | Conversion.SpawnEngineSimulations |
