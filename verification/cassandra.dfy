/** Cassandra's property-file parser and energy canonicaliser
    (`get_cassandra_energy`), its executable search
    (`detect_cassandra_binaries`) and its dihedral-style guess. */
module Cassandra {
  import opened Wrappers
  import opened Text
  import opened Sums
  import opened Tables

  // ---------------------------------------------------------------------
  // Parsing the property file
  // ---------------------------------------------------------------------

  /** The line after which (and including which) entries are read. */
  const Marker: string := "Compute total energy"

  predicate IsMarker(line: string)
  {
    Strip(line) == Marker
  }

  lemma StripAllSpace(s: string)
    ensures AllSpace(Strip(s)) <==> AllSpace(s)
  {
    var r := Strip(s);
    var front, back := StripPieces(s);
    if |r| > 0 {
      assert s[|front|] == r[0];
      assert !AllSpace(r) && !AllSpace(s);
    } else {
      assert s == front + back;
      AllSpaceAppend(front, back);
    }
  }

  /** What a line read after the marker stores: under the key made of all
      its words but the last, glued with no separator, the last word.
      A blank line stores nothing. */
  function LineEntry(line: string): Option<(string, string)>
  {
    var ws := Words(Strip(line));
    if ws == [] then None else Some((Concat(ws[..|ws| - 1]), ws[|ws| - 1]))
  }

  /** A line stores nothing exactly when it is blank; otherwise its value
      is a single word. */
  lemma BlankLineEntry(line: string)
    ensures LineEntry(line).None? <==> AllSpace(line)
    ensures LineEntry(line).Some? ==> IsWord(LineEntry(line).value.1)
  {
    StripAllSpace(line);
    WordsAreWords(Strip(line));
  }

  /** A line whose words are `ws` (one space apart) stores its last word
      under the concatenation of the others. */
  lemma LineEntryOfWords(ws: seq<string>)
    requires |ws| > 0
    requires forall i :: 0 <= i < |ws| ==> IsWord(ws[i])
    ensures LineEntry(Unwords(ws)) == Some((Concat(ws[..|ws| - 1]), ws[|ws| - 1]))
  {
    WordsOfStripUnwords(ws);
  }

  /** A one-word line stores its word under the empty key. */
  lemma OneWordLine(w: string)
    requires IsWord(w)
    ensures LineEntry(w) == Some(("", w))
  {
    LineEntryOfWords([w]);
    assert [w][..0] == [];
  }

  /** The words of the marker line. */
  const MarkerWords: seq<string> := ["Compute", "total", "energy"]

  lemma MarkerIsUnwords()
    ensures Marker == Unwords(MarkerWords)
    ensures forall i :: 0 <= i < |MarkerWords| ==> IsWord(MarkerWords[i])
  {
    assert MarkerWords[1..] == ["total", "energy"];
    assert MarkerWords[1..][1..] == ["energy"];
    assert Unwords(["energy"]) == "energy";
    assert Unwords(["total", "energy"]) == "total" + " " + "energy";
    assert "Compute" + " " + ("total" + " " + "energy") == Marker;
  }

  /** Lines that strip to the same text store the same entry. */
  lemma LineEntryOfStripped(a: string, b: string)
    requires Strip(a) == Strip(b)
    ensures LineEntry(a) == LineEntry(b)
  {
  }

  /** The marker line itself is an entry: `Computetotal` maps to `energy`. */
  lemma MarkerEntry(line: string)
    requires IsMarker(line)
    ensures LineEntry(line) == Some(("Computetotal", "energy"))
  {
    MarkerIsUnwords();
    LineEntryOfWords(MarkerWords);
    StripUnchanged(Marker);
    LineEntryOfStripped(line, Marker);
    assert MarkerWords[..2] == ["Compute", "total"];
    MarkerKey();
  }

  lemma MarkerKey()
    ensures Concat(["Compute", "total"]) == "Computetotal"
  {
    assert ["Compute", "total"][..1] == ["Compute"];
    assert ["Compute"][..0] == [];
    assert Concat(["Compute"]) == "Compute";
    assert "Compute" + "total" == "Computetotal";
  }

  /** A map with a line's entry stored: unchanged by a blank line. */
  function Store(prp: map<string, string>, line: string): map<string, string>
  {
    match LineEntry(line)
    case None => prp
    case Some(e) => prp[e.0 := e.1]
  }

  /** Reference reading of a run of lines: each line's entry in turn, a
      later entry replacing an earlier one under the same key. */
  function Collect(lines: seq<string>): map<string, string>
  {
    if |lines| == 0 then map[] else Store(Collect(lines[..|lines| - 1]), lines[|lines| - 1])
  }

  /** Index of the first marker line, if any. */
  function FirstMarker(lines: seq<string>): (r: Option<nat>)
    ensures r.Some? ==> r.value < |lines| && IsMarker(lines[r.value])
                        && forall j {:trigger IsMarker(lines[j])} :: 0 <= j < r.value ==> !IsMarker(lines[j])
    ensures r.None? ==> forall j {:trigger IsMarker(lines[j])} :: 0 <= j < |lines| ==> !IsMarker(lines[j])
  {
    if |lines| == 0 then None
    else if IsMarker(lines[0]) then Some(0)
    else match FirstMarker(lines[1..])
         case None => None
         case Some(k) => Some(k + 1)
  }

  /** Reference meaning of the property file: nothing before the first
      marker line counts; from that line on, every line is collected. */
  function PropertyMap(lines: seq<string>): map<string, string>
  {
    match FirstMarker(lines)
    case None => map[]
    case Some(k) => Collect(lines[k..])
  }

  /** A marker line preceded by none is the first marker. */
  lemma {:induction false} FirstMarkerIs(lines: seq<string>, k: nat)
    requires k < |lines| && IsMarker(lines[k])
    requires forall j {:trigger IsMarker(lines[j])} :: 0 <= j < k ==> !IsMarker(lines[j])
    ensures FirstMarker(lines) == Some(k)
    decreases k
  {
    if k > 0 {
      assert !IsMarker(lines[0]);
      forall j | 0 <= j < k - 1 ensures !IsMarker(lines[1..][j]) {
        assert lines[1..][j] == lines[j + 1];
      }
      assert lines[1..][k - 1] == lines[k];
      FirstMarkerIs(lines[1..], k - 1);
    }
  }

  /** The parsing loop of `get_cassandra_energy`, line by line with the
      `read_lines` flag, yields the reference property map. */
  method ParsePropertyFile(lines: seq<string>) returns (prp: map<string, string>)
    ensures prp == PropertyMap(lines)
  {
    prp := map[];
    var reading := false;
    var i := 0;
    while i < |lines|
      invariant 0 <= i <= |lines|
      invariant reading <==> FirstMarker(lines[..i]).Some?
      invariant prp == PropertyMap(lines[..i])
    {
      var line := lines[i];
      assert lines[..i + 1] == lines[..i] + [line];
      PropertyMapStep(lines[..i], line);
      if IsMarker(line) && !reading {
        reading := true;
      }
      if reading {
        var e := LineEntry(line);
        if e.Some? {
          prp := prp[e.value.0 := e.value.1];
        }
      }
      i := i + 1;
    }
    assert lines[..i] == lines;
  }

  /** Lines without a marker in front of a run of lines shift its first
      marker by their number. */
  lemma {:induction false} FirstMarkerAfter(pre: seq<string>, rest: seq<string>)
    requires forall j {:trigger IsMarker(pre[j])} :: 0 <= j < |pre| ==> !IsMarker(pre[j])
    ensures FirstMarker(pre + rest) == Shift(FirstMarker(rest), |pre|)
    decreases |pre|
  {
    if |pre| == 0 {
      assert pre + rest == rest;
    } else {
      NoMarkerTail(pre);
      FirstMarkerAfter(pre[1..], rest);
      FirstMarkerAfterStep(pre, rest);
    }
  }

  /** A position `n` lines further on. */
  function Shift(position: Option<nat>, n: nat): Option<nat>
  {
    match position
    case None => None
    case Some(k) => Some(n + k)
  }

  /** One step of `FirstMarkerAfter`: a leading non-marker line adds one to
      the position found in the remaining lines. */
  lemma FirstMarkerAfterStep(pre: seq<string>, rest: seq<string>)
    requires |pre| > 0 && !IsMarker(pre[0])
    requires FirstMarker(pre[1..] + rest) == Shift(FirstMarker(rest), |pre| - 1)
    ensures FirstMarker(pre + rest) == Shift(FirstMarker(rest), |pre|)
  {
    DropFirst(pre, rest);
    FirstMarkerCons(pre + rest);
    ShiftShift(FirstMarker(rest), |pre| - 1, 1);
  }

  /** Past a leading non-marker line, the first marker is one further on. */
  lemma FirstMarkerCons(lines: seq<string>)
    requires |lines| > 0 && !IsMarker(lines[0])
    ensures FirstMarker(lines) == Shift(FirstMarker(lines[1..]), 1)
  {
  }

  lemma ShiftShift(position: Option<nat>, m: nat, n: nat)
    ensures Shift(Shift(position, m), n) == Shift(position, m + n)
  {
  }

  /** Lines without a marker stay without one after dropping the first. */
  lemma NoMarkerTail(pre: seq<string>)
    requires |pre| > 0
    requires forall j {:trigger IsMarker(pre[j])} :: 0 <= j < |pre| ==> !IsMarker(pre[j])
    ensures !IsMarker(pre[0])
    ensures forall j {:trigger IsMarker(pre[1..][j])} :: 0 <= j < |pre| - 1 ==> !IsMarker(pre[1..][j])
  {
    forall j | 0 <= j < |pre| - 1 ensures !IsMarker(pre[1..][j]) {
      assert pre[1..][j] == pre[j + 1];
    }
  }

  /** Dropping the first line of `pre + rest` drops it from `pre`. */
  lemma DropFirst(pre: seq<string>, rest: seq<string>)
    requires |pre| > 0
    ensures (pre + rest)[0] == pre[0]
    ensures (pre + rest)[1..] == pre[1..] + rest
  {
  }

  /** Lines before the first marker never affect the result. */
  lemma {:induction false} PrefixIgnored(pre: seq<string>, rest: seq<string>)
    requires forall j {:trigger IsMarker(pre[j])} :: 0 <= j < |pre| ==> !IsMarker(pre[j])
    ensures PropertyMap(pre + rest) == PropertyMap(rest)
  {
    FirstMarkerAfter(pre, rest);
    if FirstMarker(rest).Some? {
      var k := FirstMarker(rest).value;
      assert (pre + rest)[|pre| + k..] == rest[k..];
    }
  }

  /** Appending a line keeps an existing first marker and adds none
      unless the line is a marker. */
  lemma FirstMarkerAppend(lines: seq<string>, line: string)
    ensures FirstMarker(lines).Some? ==> FirstMarker(lines + [line]) == FirstMarker(lines)
    ensures FirstMarker(lines).None? && !IsMarker(line) ==> FirstMarker(lines + [line]).None?
  {
    var all := lines + [line];
    if FirstMarker(lines).Some? {
      var k := FirstMarker(lines).value;
      forall j | 0 <= j < k ensures !IsMarker(all[j]) {
        assert all[j] == lines[j];
      }
      assert all[k] == lines[k];
      FirstMarkerIs(all, k);
    } else if !IsMarker(line) {
      FirstMarkerAfter(lines, [line]);
      assert FirstMarker([line][1..]) == None;
    }
  }

  /** Collecting one more line applies that line's entry. */
  lemma CollectAppend(lines: seq<string>, line: string)
    ensures Collect(lines + [line]) == Store(Collect(lines), line)
  {
    assert (lines + [line])[..|lines|] == lines;
  }

  /** Reading one more line: once a marker has been seen (possibly this
      very line), the line's entry is stored; before that, nothing is. */
  lemma PropertyMapStep(lines: seq<string>, line: string)
    ensures FirstMarker(lines + [line]).Some? <==> FirstMarker(lines).Some? || IsMarker(line)
    ensures PropertyMap(lines + [line]) ==
              if FirstMarker(lines).Some? || IsMarker(line) then Store(PropertyMap(lines), line)
              else PropertyMap(lines)
  {
    FirstMarkerAppend(lines, line);
    if FirstMarker(lines).Some? {
      StepAfterMarker(lines, line);
    } else if IsMarker(line) {
      StepAtMarker(lines, line);
      CollectOne(line);
    }
  }

  lemma StepAfterMarker(lines: seq<string>, line: string)
    requires FirstMarker(lines).Some?
    ensures PropertyMap(lines + [line]) == Store(PropertyMap(lines), line)
  {
    FirstMarkerAppend(lines, line);
    var k := FirstMarker(lines).value;
    assert (lines + [line])[k..] == lines[k..] + [line];
    CollectAppend(lines[k..], line);
  }

  lemma StepAtMarker(lines: seq<string>, line: string)
    requires FirstMarker(lines).None? && IsMarker(line)
    ensures FirstMarker(lines + [line]) == Some(|lines|)
    ensures PropertyMap(lines + [line]) == Collect([line])
  {
    var all := lines + [line];
    forall j | 0 <= j < |lines| ensures !IsMarker(all[j]) {
      assert all[j] == lines[j];
    }
    assert all[|lines|] == line;
    FirstMarkerIs(all, |lines|);
    assert all[|lines|..] == [line];
  }

  lemma CollectOne(line: string)
    ensures Collect([line]) == Store(map[], line)
  {
    assert [line][..0] == [];
  }

  /** Once reading has begun, a blank line adds or changes nothing; before
      that it is ignored anyway. */
  lemma BlankLineIgnored(lines: seq<string>, blank: string)
    requires AllSpace(blank)
    ensures PropertyMap(lines + [blank]) == PropertyMap(lines)
  {
    BlankLineEntry(blank);
    assert !IsMarker(blank) by {
      StripAllSpace(blank);
      assert Strip(blank) == [];
    }
    FirstMarkerAppend(lines, blank);
    if FirstMarker(lines).Some? {
      var k := FirstMarker(lines).value;
      assert (lines + [blank])[k..] == lines[k..] + [blank];
      CollectAppend(lines[k..], blank);
    }
  }

  /** A non-blank line read after the marker sets its key to its value,
      whatever any earlier line stored there: the last occurrence wins,
      and every other key keeps its value. */
  lemma LastOccurrenceWins(lines: seq<string>, line: string)
    requires FirstMarker(lines).Some?
    requires !AllSpace(line)
    ensures LineEntry(line).Some?
    ensures PropertyMap(lines + [line]) == PropertyMap(lines)[LineEntry(line).value.0 := LineEntry(line).value.1]
  {
    BlankLineEntry(line);
    FirstMarkerAppend(lines, line);
    var k := FirstMarker(lines).value;
    assert (lines + [line])[k..] == lines[k..] + [line];
    CollectAppend(lines[k..], line);
  }

  // ---------------------------------------------------------------------
  // Canonicalisation
  // ---------------------------------------------------------------------

  /** Converts Cassandra's atomic energy unit (amu Å²/ps²) to kJ/mol:
      one atomic unit is 0.01 kJ/mol. */
  function ToKJPerMol(atomic: real): real
  {
    0.01 * atomic
  }

  /** A canonical energy, or the "not applicable" sentinel `'N/A'`. */
  datatype Energy = Value(kjmol: real) | NotApplicable

  /** The six property fields whose sum is the nonbonded energy. */
  const NonbondFields: seq<string> :=
    ["Intramoleculevdw", "Intramoleculeq", "Intermoleculevdw",
     "Intermoleculeq", "Reciprocalewald", "Selfewald"]

  /** Canonical key and the property fields it sums (`None` would stand for
      a key Cassandra cannot report; no entry uses it). */
  const KeyToData: seq<(string, Option<seq<string>>)> :=
    [("bond", Some(["Bondenergy"])),
     ("angle", Some(["Bondangleenergy"])),
     ("dihedral", Some(["Dihedralangleenergy"])),
     ("nonbond", Some(NonbondFields)),
     ("all", Some(["Totalsystemenergy"]))]

  const CanonicalKeys: set<string> := {"bond", "angle", "dihedral", "nonbond", "all"}

  /** Converting a property to a number failed: `field` held `text`. */
  datatype NumberError = NotANumber(field: string, text: string)

  /** The property values that read as numbers. */
  function Numbers(prp: map<string, string>, toNumber: string -> Option<real>): (nums: map<string, real>)
    ensures forall n :: n in nums <==> n in prp && toNumber(prp[n]).Some?
    ensures forall n :: n in nums ==> toNumber(prp[n]) == Some(nums[n])
  {
    map n | n in prp && toNumber(prp[n]).Some? :: toNumber(prp[n]).value
  }

  /** Some listed field is present but does not read as a number. */
  ghost predicate Unparsable(names: seq<string>, prp: map<string, string>, toNumber: string -> Option<real>)
  {
    exists i :: 0 <= i < |names| && names[i] in prp && toNumber(prp[names[i]]).None?
  }

  /** The listed fields present in the map, each converted to a number and
      scaled to kJ/mol, summed: fails on the first present field that is not
      a number. */
  function ScaledSum(names: seq<string>, prp: map<string, string>, toNumber: string -> Option<real>)
    : (r: Result<real, NumberError>)
    ensures r.Failure? <==> Unparsable(names, prp, toNumber)
    ensures r.Failure? ==> r.error.field in names && r.error.field in prp
                           && r.error.text == prp[r.error.field]
                           && toNumber(r.error.text).None?
    ensures r.Success? ==> r.value == ToKJPerMol(SumPresent(names, Numbers(prp, toNumber)))
    decreases |names|
  {
    if |names| == 0 then Success(0.0)
    else
      var rest := ScaledSum(names[1..], prp, toNumber);
      var head :=
        if names[0] !in prp then Success(0.0)
        else match toNumber(prp[names[0]])
             case None => Failure(NotANumber(names[0], prp[names[0]]))
             case Some(x) => Success(ToKJPerMol(x));
      assert Unparsable(names, prp, toNumber) <==>
             (head.Failure? || Unparsable(names[1..], prp, toNumber)) by {
        if Unparsable(names[1..], prp, toNumber) {
          var i :| 0 <= i < |names[1..]| && names[1..][i] in prp && toNumber(prp[names[1..][i]]).None?;
          assert names[i + 1] == names[1..][i];
        }
        if Unparsable(names, prp, toNumber) && head.Success? {
          var i :| 0 <= i < |names| && names[i] in prp && toNumber(prp[names[i]]).None?;
          assert i > 0 && names[1..][i - 1] == names[i];
        }
      }
      if head.Failure? then head
      else if rest.Failure? then rest
      else
        SumPresentAppend([names[0]], names[1..], Numbers(prp, toNumber));
        SumPresentSingle(names[0], Numbers(prp, toNumber));
        assert names == [names[0]] + names[1..];
        Success(head.value + rest.value)
  }

  /** Scaling the sum is scaling each present field before summing, as the
      source does term by term. */
  lemma ScaledSumPerTerm(names: seq<string>, prp: map<string, string>, toNumber: string -> Option<real>)
    requires !Unparsable(names, prp, toNumber)
    ensures ScaledSum(names, prp, toNumber) == Success(SumPresent(names, Scaled(Numbers(prp, toNumber), 0.01)))
  {
    SumPresentScale(names, Numbers(prp, toNumber), 0.01);
  }

  /** The canonical value of one table entry, given that its fields parse. */
  function EntryValue(src: Option<seq<string>>, prp: map<string, string>, toNumber: string -> Option<real>): Energy
  {
    match src
    case None => NotApplicable
    case Some(names) => Value(ToKJPerMol(SumPresent(names, Numbers(prp, toNumber))))
  }

  /** Some entry of the table lists a field that is present but not a number. */
  ghost predicate TableUnparsable(table: seq<(string, Option<seq<string>>)>, prp: map<string, string>,
                                  toNumber: string -> Option<real>)
  {
    exists i :: 0 <= i < |table| && table[i].1.Some? && Unparsable(table[i].1.value, prp, toNumber)
  }

  lemma TableUnparsableSplit(table: seq<(string, Option<seq<string>>)>, prp: map<string, string>,
                             toNumber: string -> Option<real>)
    requires |table| > 0
    ensures TableUnparsable(table, prp, toNumber) <==>
            TableUnparsable(table[..|table| - 1], prp, toNumber)
            || (table[|table| - 1].1.Some? && Unparsable(table[|table| - 1].1.value, prp, toNumber))
  {
    var init := table[..|table| - 1];
    if TableUnparsable(init, prp, toNumber) {
      var i :| 0 <= i < |init| && init[i].1.Some? && Unparsable(init[i].1.value, prp, toNumber);
      assert table[i] == init[i];
    }
    if TableUnparsable(table, prp, toNumber) {
      var i :| 0 <= i < |table| && table[i].1.Some? && Unparsable(table[i].1.value, prp, toNumber);
      if i < |init| {
        assert table[i] == init[i];
      }
    }
  }

  /** The loop over `key_to_data`: every key of the table gets its scaled
      sum (or the sentinel when it has no field list); the first
      unparsable field aborts the whole canonicalisation. */
  function CanonicalizeWith(table: seq<(string, Option<seq<string>>)>, prp: map<string, string>,
                            toNumber: string -> Option<real>): (r: Result<map<string, Energy>, NumberError>)
    ensures r.Failure? <==> TableUnparsable(table, prp, toNumber)
    ensures r.Success? ==> r.value.Keys == Keys(table)
    ensures r.Success? ==> forall k :: k in r.value ==>
                             r.value[k] == EntryValue(Lookup(table, k, None), prp, toNumber)
    decreases |table|
  {
    if |table| == 0 then Success(map[])
    else
      var init := table[..|table| - 1];
      var last := table[|table| - 1];
      TableUnparsableSplit(table, prp, toNumber);
      var prev := CanonicalizeWith(init, prp, toNumber);
      if prev.Failure? then prev
      else if last.1.None? then Success(prev.value[last.0 := NotApplicable])
      else
        var sum := ScaledSum(last.1.value, prp, toNumber);
        if sum.Failure? then Failure(sum.error)
        else Success(prev.value[last.0 := Value(sum.value)])
  }

  /** The table defines the five canonical keys, each with its own field
      list; so the `'N/A'` branch is never taken. */
  lemma KeyToDataFacts()
    ensures Keys(KeyToData) == CanonicalKeys
    ensures forall k :: k in CanonicalKeys ==> Lookup(KeyToData, k, None).Some?
    ensures Lookup(KeyToData, "bond", None) == Some(["Bondenergy"])
    ensures Lookup(KeyToData, "angle", None) == Some(["Bondangleenergy"])
    ensures Lookup(KeyToData, "dihedral", None) == Some(["Dihedralangleenergy"])
    ensures Lookup(KeyToData, "nonbond", None) == Some(NonbondFields)
    ensures Lookup(KeyToData, "all", None) == Some(["Totalsystemenergy"])
  {
    var t := KeyToData;
    KeysAre(t);
    assert t[0].0 == "bond" && t[1].0 == "angle" && t[2].0 == "dihedral";
    assert t[3].0 == "nonbond" && t[4].0 == "all";
    LookupAt(t, 0, None);
    LookupAt(t, 1, None);
    LookupAt(t, 2, None);
    LookupAt(t, 3, None);
    LookupAt(t, 4, None);
  }

  /** `get_cassandra_energy`: parse, then canonicalise under `cassandra`. */
  method GetCassandraEnergy(lines: seq<string>, toNumber: string -> Option<real>)
    returns (r: Result<map<string, map<string, Energy>>, NumberError>)
    ensures r.Failure? <==> TableUnparsable(KeyToData, PropertyMap(lines), toNumber)
    ensures r.Success? ==> r.value.Keys == {"cassandra"}
    ensures r.Success? ==> r.value["cassandra"].Keys == CanonicalKeys
    ensures r.Success? ==> forall k :: k in r.value["cassandra"] ==> r.value["cassandra"][k].Value?
    ensures r.Success? ==> forall k :: k in CanonicalKeys ==>
              Lookup(KeyToData, k, None).Some? &&
              r.value["cassandra"][k]
              == Value(ToKJPerMol(SumPresent(Lookup(KeyToData, k, None).value, Numbers(PropertyMap(lines), toNumber))))
    ensures r.Success? ==> r.value["cassandra"]["nonbond"]
                           == Value(ToKJPerMol(SumPresent(NonbondFields, Numbers(PropertyMap(lines), toNumber))))
    ensures r.Success? ==> r.value["cassandra"]["all"]
                           == Value(ToKJPerMol(SumPresent(["Totalsystemenergy"], Numbers(PropertyMap(lines), toNumber))))
  {
    var prp := ParsePropertyFile(lines);
    var c := CanonicalizeWith(KeyToData, prp, toNumber);
    if c.Failure? {
      return Failure(c.error);
    }
    var energies := c.value;
    KeyToDataFacts();
    return Success(map["cassandra" := energies]);
  }

  /** A canonical key none of whose fields is in the property file is 0
      (not the sentinel). */
  lemma AbsentFieldsGiveZero(prp: map<string, string>, toNumber: string -> Option<real>, i: nat)
    requires i < |KeyToData|
    requires forall j :: 0 <= j < |KeyToData[i].1.value| ==> KeyToData[i].1.value[j] !in prp
    ensures EntryValue(KeyToData[i].1, prp, toNumber) == Value(0.0)
  {
    SumPresentNonepresent(KeyToData[i].1.value, Numbers(prp, toNumber));
  }

  /** The nonbonded energy depends on the six nonbonded fields and nothing
      else in the property file. */
  lemma NonbondReadsOnlyItsFields(p1: map<string, string>, p2: map<string, string>, toNumber: string -> Option<real>)
    requires forall n :: n in NonbondFields ==> (n in p1 <==> n in p2)
    requires forall n :: n in NonbondFields && n in p1 ==> p1[n] == p2[n]
    ensures EntryValue(KeyToData[3].1, p1, toNumber) == EntryValue(KeyToData[3].1, p2, toNumber)
  {
    assert KeyToData[3].1.value == NonbondFields;
    SumPresentFrame(NonbondFields, Numbers(p1, toNumber), Numbers(p2, toNumber));
  }

  // ---------------------------------------------------------------------
  // Executables and input choices
  // ---------------------------------------------------------------------

  const CassandraExecNames: seq<string> :=
    ["cassandra.exe", "cassandra_gfortran.exe", "cassandra_pgfortran.exe",
     "cassandra_gfortran_openMP.exe", "cassandra_pgfortran_openMP.exe",
     "cassandra_intel_openMP.exe"]

  const Python2ExecNames: seq<string> := ["python2", "python2.7"]

  /** The search over candidate names that stops at the first one found on
      the PATH: the resolution of the first name that resolves. */
  method FirstResolved(names: seq<string>, which: string -> Option<string>) returns (found: Option<string>)
    ensures found.None? <==> forall j :: 0 <= j < |names| ==> which(names[j]).None?
    ensures found.Some? ==> exists i :: 0 <= i < |names| && which(names[i]) == found
                                        && forall j :: 0 <= j < i ==> which(names[j]).None?
  {
    found := None;
    var i := 0;
    while i < |names|
      invariant 0 <= i <= |names|
      invariant found.None?
      invariant forall j :: 0 <= j < i ==> which(names[j]).None?
    {
      found := which(names[i]);
      if found.Some? {
        return;
      }
      i := i + 1;
    }
  }

  datatype DetectError = CassandraNotFound | Python2NotFound

  /** `detect_cassandra_binaries`: the fragment-library script and the
      first Cassandra build found; Python 2 must also be present. */
  method DetectCassandraBinaries(which: string -> Option<string>)
    returns (r: Result<(string, string), DetectError>)
    ensures r == Failure(CassandraNotFound) <==>
              which("library_setup.py").None?
              || forall j :: 0 <= j < |CassandraExecNames| ==> which(CassandraExecNames[j]).None?
    ensures r == Failure(Python2NotFound) <==>
              r != Failure(CassandraNotFound) && which("python2").None? && which("python2.7").None?
    ensures r.Success? ==> Some(r.value.0) == which("library_setup.py")
    ensures r.Success? ==> exists i :: 0 <= i < |CassandraExecNames|
                                       && Some(r.value.1) == which(CassandraExecNames[i])
                                       && forall j :: 0 <= j < i ==> which(CassandraExecNames[j]).None?
  {
    var cassandra := FirstResolved(CassandraExecNames, which);
    var fraglibSetup := which("library_setup.py");
    if cassandra.None? || fraglibSetup.None? {
      return Failure(CassandraNotFound);
    }
    var py2 := FirstResolved(Python2ExecNames, which);
    if py2.None? {
      assert which(Python2ExecNames[0]).None? && which(Python2ExecNames[1]).None?;
      return Failure(Python2NotFound);
    }
    assert which("python2").Some? || which("python2.7").Some? by {
      var i :| 0 <= i < |Python2ExecNames| && which(Python2ExecNames[i]) == py2;
    }
    return Success((fraglibSetup.value, cassandra.value));
  }

  /** The dihedral style written into the molecule file: CHARMM when the
      structure has any dihedral, OPLS otherwise. */
  function DihedralStyle(dihedralCount: nat): (style: string)
    ensures style == "charmm" <==> dihedralCount > 0
    ensures style == "opls" <==> dihedralCount == 0
  {
    if dihedralCount > 0 then "charmm" else "opls"
  }
}
