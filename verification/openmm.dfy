/** The OpenMM back end: putting each kind of force into its own force
    group, reading the groups back per canonical key, and evaluating the
    energy of each key. OpenMM's own energy evaluation is modelled by the
    per-force energies the context would report. */
module OpenMM {
  import opened Wrappers

  /** The force classes the back end recognises; every other class is
      `Unrecognized`. */
  datatype ForceKind = HarmonicBond | HarmonicAngle | RBTorsion | PeriodicTorsion | Nonbonded | Unrecognized

  /** A force of the system: its class, its force group, and the potential
      energy it contributes at the context's positions. */
  datatype Force = Force(kind: ForceKind, group: int, energy: real)

  /** The canonical keys that collect force groups. */
  const Categories: set<string> := {"bond", "angle", "dihedral", "nonbond"}

  /** The keys of the force-group table. */
  const OmmKeys: set<string> := {"bond", "angle", "dihedral", "nonbond", "all"}

  /** The canonical key a force class belongs to. */
  function Category(k: ForceKind): (c: Option<string>)
    ensures c.Some? ==> c.value in Categories
  {
    match k
    case HarmonicBond => Some("bond")
    case HarmonicAngle => Some("angle")
    case RBTorsion => Some("dihedral")
    case PeriodicTorsion => Some("dihedral")
    case Nonbonded => Some("nonbond")
    case Unrecognized => None
  }

  /** The force group reserved for a canonical key. */
  function CategoryGroup(c: string): int
    requires c in Categories
  {
    if c == "bond" then 0
    else if c == "angle" then 1
    else if c == "dihedral" then 12
    else 11
  }

  /** The group `set_omm_force_groups` gives a force class: the group of
      its canonical key, and none for an unrecognised class. */
  function AssignedGroup(k: ForceKind): (g: Option<int>)
    ensures g.Some? <==> Category(k).Some?
    ensures g.Some? ==> g.value == CategoryGroup(Category(k).value)
  {
    match k
    case HarmonicBond => Some(0)
    case HarmonicAngle => Some(1)
    case RBTorsion => Some(12)
    case PeriodicTorsion => Some(12)
    case Nonbonded => Some(11)
    case Unrecognized => None
  }

  /** Different canonical keys get different groups. */
  lemma CategoryGroupsDistinct(c1: string, c2: string)
    requires c1 in Categories && c2 in Categories && c1 != c2
    ensures CategoryGroup(c1) != CategoryGroup(c2)
  {
  }

  function SetGroup(f: Force): Force
  {
    match AssignedGroup(f.kind)
    case None => f
    case Some(g) => f.(group := g)
  }

  /** `set_omm_force_groups`: every recognised force moves to the group of
      its key; unrecognised forces keep theirs. */
  function SetForceGroups(forces: seq<Force>): (r: seq<Force>)
    ensures |r| == |forces|
    ensures forall i :: 0 <= i < |forces| ==> r[i].kind == forces[i].kind && r[i].energy == forces[i].energy
    ensures forall i :: 0 <= i < |forces| && Category(forces[i].kind).Some? ==>
              r[i].group == CategoryGroup(Category(forces[i].kind).value)
    ensures forall i :: 0 <= i < |forces| && Category(forces[i].kind).None? ==> r[i].group == forces[i].group
  {
    seq(|forces|, i requires 0 <= i < |forces| => SetGroup(forces[i]))
  }

  /** Setting the groups a second time changes nothing. */
  lemma SetForceGroupsIdempotent(forces: seq<Force>)
    ensures SetForceGroups(SetForceGroups(forces)) == SetForceGroups(forces)
  {
  }

  lemma SetForceGroupsPrefix(forces: seq<Force>)
    requires |forces| > 0
    ensures SetForceGroups(forces)[..|forces| - 1] == SetForceGroups(forces[..|forces| - 1])
    ensures SetForceGroups(forces)[|forces| - 1] == SetGroup(forces[|forces| - 1])
  {
  }

  // ---------------------------------------------------------------------
  // Reading the groups back
  // ---------------------------------------------------------------------

  /** Some force of key `c` is in group `g`. */
  ghost predicate HasForce(forces: seq<Force>, c: string, g: int)
  {
    exists i :: 0 <= i < |forces| && Category(forces[i].kind) == Some(c) && forces[i].group == g
  }

  /** Some force belongs to key `c`. */
  ghost predicate HasKind(forces: seq<Force>, c: string)
  {
    exists i :: 0 <= i < |forces| && Category(forces[i].kind) == Some(c)
  }

  lemma HasForceSplit(forces: seq<Force>, c: string, g: int)
    requires |forces| > 0
    ensures var last := forces[|forces| - 1];
            HasForce(forces, c, g) <==>
            HasForce(forces[..|forces| - 1], c, g) || (Category(last.kind) == Some(c) && last.group == g)
  {
    var init := forces[..|forces| - 1];
    if HasForce(init, c, g) {
      var i :| 0 <= i < |init| && Category(init[i].kind) == Some(c) && init[i].group == g;
      assert forces[i] == init[i];
    }
    if HasForce(forces, c, g) {
      var i :| 0 <= i < |forces| && Category(forces[i].kind) == Some(c) && forces[i].group == g;
      if i < |init| {
        assert init[i] == forces[i];
      }
    }
  }

  /** The table `get_omm_force_groups` starts from. */
  const InitialGroups: map<string, set<int>> :=
    map["bond" := {}, "angle" := {}, "dihedral" := {}, "nonbond" := {}, "all" := {-1}]

  /** `get_omm_force_groups`: for each key, the groups its forces are in;
      `all` is the marker set `{-1}`. */
  function GetForceGroups(forces: seq<Force>): (r: map<string, set<int>>)
    ensures r.Keys == OmmKeys
    ensures r["all"] == {-1}
    ensures forall c, g :: c in Categories ==> (g in r[c] <==> HasForce(forces, c, g))
    decreases |forces|
  {
    if |forces| == 0 then InitialGroups
    else
      var prev := GetForceGroups(forces[..|forces| - 1]);
      var last := forces[|forces| - 1];
      forall c, g | c in Categories
        ensures HasForce(forces, c, g) <==>
                HasForce(forces[..|forces| - 1], c, g) || (Category(last.kind) == Some(c) && last.group == g)
      {
        HasForceSplit(forces, c, g);
      }
      match Category(last.kind)
      case None => prev
      case Some(c) => prev[c := prev[c] + {last.group}]
  }

  /** After the groups are set, each key reads back exactly its own group
      when it has a force, and nothing otherwise: the keys are measured
      separately. */
  lemma GroupsAfterSet(forces: seq<Force>, c: string)
    requires c in Categories
    ensures GetForceGroups(SetForceGroups(forces))[c] == if HasKind(forces, c) then {CategoryGroup(c)} else {}
  {
    var fs := SetForceGroups(forces);
    var groups := GetForceGroups(fs);
    forall g ensures g in groups[c] <==> HasKind(forces, c) && g == CategoryGroup(c) {
      if HasForce(fs, c, g) {
        var i :| 0 <= i < |fs| && Category(fs[i].kind) == Some(c) && fs[i].group == g;
        assert Category(forces[i].kind) == Some(c);
      }
      if HasKind(forces, c) && g == CategoryGroup(c) {
        var i :| 0 <= i < |forces| && Category(forces[i].kind) == Some(c);
        assert Category(fs[i].kind) == Some(c) && fs[i].group == g;
      }
    }
  }

  /** After the groups are set, bond ⊆ {0}, angle ⊆ {1}, dihedral ⊆ {12}
      and nonbond ⊆ {11}: two different keys share no group, and no key
      shares the `all` marker. */
  lemma GroupsDisjointAfterSet(forces: seq<Force>, c1: string, c2: string)
    requires c1 in Categories && c2 in Categories && c1 != c2
    ensures var groups := GetForceGroups(SetForceGroups(forces));
            && groups[c1] <= {CategoryGroup(c1)}
            && groups[c1] * groups[c2] == {}
            && groups[c1] * groups["all"] == {}
  {
    GroupsAfterSet(forces, c1);
    GroupsAfterSet(forces, c2);
    CategoryGroupsDistinct(c1, c2);
  }

  // ---------------------------------------------------------------------
  // Energies
  // ---------------------------------------------------------------------

  /** The potential energy OpenMM reports for the forces in `groups`. */
  function GroupEnergy(forces: seq<Force>, groups: set<int>): real
  {
    if |forces| == 0 then 0.0
    else
      var last := forces[|forces| - 1];
      GroupEnergy(forces[..|forces| - 1], groups) + (if last.group in groups then last.energy else 0.0)
  }

  /** The total potential energy. */
  function TotalEnergy(forces: seq<Force>): real
  {
    if |forces| == 0 then 0.0 else TotalEnergy(forces[..|forces| - 1]) + forces[|forces| - 1].energy
  }

  /** The energy of the forces of key `c`, wherever their groups are. */
  function KindEnergy(forces: seq<Force>, c: string): real
  {
    if |forces| == 0 then 0.0
    else
      var last := forces[|forces| - 1];
      KindEnergy(forces[..|forces| - 1], c) + (if Category(last.kind) == Some(c) then last.energy else 0.0)
  }

  /** The energy of the unrecognised forces in group `g`. */
  function StrayEnergy(forces: seq<Force>, g: int): real
  {
    if |forces| == 0 then 0.0
    else
      var last := forces[|forces| - 1];
      StrayEnergy(forces[..|forces| - 1], g) + (if last.kind == Unrecognized && last.group == g then last.energy else 0.0)
  }

  /** The energy of all unrecognised forces. */
  function UnrecognizedEnergy(forces: seq<Force>): real
  {
    if |forces| == 0 then 0.0
    else
      var last := forces[|forces| - 1];
      UnrecognizedEnergy(forces[..|forces| - 1]) + (if last.kind == Unrecognized then last.energy else 0.0)
  }

  /** No group selected, no energy. */
  lemma {:induction false} GroupEnergyNoGroups(forces: seq<Force>)
    ensures GroupEnergy(forces, {}) == 0.0
    decreases |forces|
  {
    if |forces| > 0 {
      GroupEnergyNoGroups(forces[..|forces| - 1]);
    }
  }

  /** A key without forces has no energy. */
  lemma {:induction false} KindEnergyNoKind(forces: seq<Force>, c: string)
    requires !HasKind(forces, c)
    ensures KindEnergy(forces, c) == 0.0
    decreases |forces|
  {
    if |forces| > 0 {
      var init := forces[..|forces| - 1];
      forall i | 0 <= i < |init| ensures Category(init[i].kind) != Some(c) {
        assert init[i] == forces[i];
      }
      KindEnergyNoKind(init, c);
    }
  }

  /** After the groups are set, the group of key `c` holds the forces of
      `c` and the unrecognised forces that happen to sit in that group. */
  lemma {:induction false} GroupEnergyAfterSet(forces: seq<Force>, c: string)
    requires c in Categories
    ensures GroupEnergy(SetForceGroups(forces), {CategoryGroup(c)})
            == KindEnergy(forces, c) + StrayEnergy(forces, CategoryGroup(c))
    decreases |forces|
  {
    if |forces| > 0 {
      SetForceGroupsPrefix(forces);
      GroupEnergyAfterSet(forces[..|forces| - 1], c);
      var last := forces[|forces| - 1];
      if Category(last.kind).Some? && Category(last.kind) != Some(c) {
        CategoryGroupsDistinct(c, Category(last.kind).value);
      }
    }
  }

  /** The total energy is the energy of the four keys plus that of the
      unrecognised forces. */
  lemma {:induction false} TotalIsSumOfKinds(forces: seq<Force>)
    ensures TotalEnergy(forces) == KindEnergy(forces, "bond") + KindEnergy(forces, "angle")
                                   + KindEnergy(forces, "dihedral") + KindEnergy(forces, "nonbond")
                                   + UnrecognizedEnergy(forces)
    decreases |forces|
  {
    if |forces| > 0 {
      TotalIsSumOfKinds(forces[..|forces| - 1]);
    }
  }

  /** `get_omm_energy` on a key missing from the table raises `KeyError`. */
  datatype OmmError = KeyMissing(key: string)

  /** `get_omm_energy`: the total energy for `all`, 0 for a key with no
      groups, otherwise the energy of that key's groups. */
  function GetOmmEnergy(key: string, groups: map<string, set<int>>, forces: seq<Force>): (r: Result<real, OmmError>)
    ensures key == "all" ==> r == Success(TotalEnergy(forces))
    ensures key != "all" ==> (r.Failure? <==> key !in groups)
    ensures key != "all" && key in groups ==> r == Success(GroupEnergy(forces, groups[key]))
  {
    if key == "all" then Success(TotalEnergy(forces))
    else if key !in groups then Failure(KeyMissing(key))
    else if |groups[key]| == 0 then
      GroupEnergyNoGroups(forces);
      Success(0.0)
    else Success(GroupEnergy(forces, groups[key]))
  }

  /** `build_run_measure_openmm` after the system is built: set the groups,
      read them back, and measure every key; `failed` stands for any
      exception OpenMM raises on the way, which leaves the row empty. */
  function BuildRunMeasureOpenMM(forces: seq<Force>, failed: bool): (r: map<string, map<string, real>>)
    ensures r.Keys == {"openmm"}
    ensures failed ==> r["openmm"] == map[]
    ensures !failed ==> r["openmm"].Keys == OmmKeys
  {
    if failed then map["openmm" := map[]]
    else
      var fs := SetForceGroups(forces);
      var groups := GetForceGroups(fs);
      map["openmm" := map key | key in groups :: GetOmmEnergy(key, groups, fs).value]
  }

  /** Each measured key is the energy of its own forces, plus that of any
      unrecognised force left in the key's group when the key has forces;
      `all` is the total. */
  lemma MeasuredEnergies(forces: seq<Force>, c: string)
    requires c in Categories
    ensures BuildRunMeasureOpenMM(forces, false)["openmm"]["all"] == TotalEnergy(forces)
    ensures BuildRunMeasureOpenMM(forces, false)["openmm"][c]
            == KindEnergy(forces, c) + (if HasKind(forces, c) then StrayEnergy(forces, CategoryGroup(c)) else 0.0)
  {
    var fs := SetForceGroups(forces);
    assert TotalEnergy(fs) == TotalEnergy(forces) by {
      TotalUnchangedBySet(forces);
    }
    GroupsAfterSet(forces, c);
    if HasKind(forces, c) {
      GroupEnergyAfterSet(forces, c);
    } else {
      GroupEnergyNoGroups(fs);
      KindEnergyNoKind(forces, c);
    }
  }

  /** Moving forces between groups does not change the total. */
  lemma {:induction false} TotalUnchangedBySet(forces: seq<Force>)
    ensures TotalEnergy(SetForceGroups(forces)) == TotalEnergy(forces)
    decreases |forces|
  {
    if |forces| > 0 {
      SetForceGroupsPrefix(forces);
      TotalUnchangedBySet(forces[..|forces| - 1]);
    }
  }

  /** When no unrecognised force shares a group with a canonical key, the
      four keys and the unrecognised forces account for the whole of `all`. */
  lemma MeasuredEnergiesDecompose(forces: seq<Force>)
    requires forall i :: 0 <= i < |forces| && forces[i].kind == Unrecognized ==>
               forces[i].group !in {0, 1, 11, 12}
    ensures var row := BuildRunMeasureOpenMM(forces, false)["openmm"];
            row["bond"] + row["angle"] + row["dihedral"] + row["nonbond"] + UnrecognizedEnergy(forces) == row["all"]
  {
    forall c | c in Categories ensures StrayEnergy(forces, CategoryGroup(c)) == 0.0 {
      NoStrays(forces, CategoryGroup(c));
    }
    MeasuredEnergies(forces, "bond");
    MeasuredEnergies(forces, "angle");
    MeasuredEnergies(forces, "dihedral");
    MeasuredEnergies(forces, "nonbond");
    TotalIsSumOfKinds(forces);
  }

  lemma {:induction false} NoStrays(forces: seq<Force>, g: int)
    requires forall i :: 0 <= i < |forces| && forces[i].kind == Unrecognized ==> forces[i].group != g
    ensures StrayEnergy(forces, g) == 0.0
    decreases |forces|
  {
    if |forces| > 0 {
      var init := forces[..|forces| - 1];
      forall i | 0 <= i < |init| && init[i].kind == Unrecognized ensures init[i].group != g {
        assert init[i] == forces[i];
      }
      NoStrays(init, g);
    }
  }
}
