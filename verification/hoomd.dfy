/** The HOOMD back end: sorting the simulation's forces into canonical
    keys by the module that defines them, and summing their energies. */
module Hoomd {
  import opened Wrappers

  /** A force of the running simulation: the Python module its class lives
      in (`force.__module__`), and the energy `get_energy` reports for the
      group of all particles. */
  datatype HoomdForce = HoomdForce(moduleName: string, energy: real)

  const Categories: set<string> := {"bond", "angle", "dihedral", "nonbond"}
  const HoomdKeys: set<string> := {"bond", "angle", "dihedral", "nonbond", "all"}

  /** The canonical key of a force's module; pair, special-pair and charge
      forces are all nonbonded. */
  function Category(moduleName: string): (c: Option<string>)
    ensures c.Some? ==> c.value in Categories
  {
    if moduleName == "hoomd.md.bond" then Some("bond")
    else if moduleName == "hoomd.md.angle" then Some("angle")
    else if moduleName == "hoomd.md.dihedral" then Some("dihedral")
    else if moduleName == "hoomd.md.pair" || moduleName == "hoomd.md.special_pair" || moduleName == "hoomd.md.charge"
    then Some("nonbond")
    else None
  }

  /** The forces of key `c`, in simulation order. */
  function OfCategory(forces: seq<HoomdForce>, c: string): seq<HoomdForce>
  {
    if |forces| == 0 then []
    else if Category(forces[0].moduleName) == Some(c) then [forces[0]] + OfCategory(forces[1..], c)
    else OfCategory(forces[1..], c)
  }

  /** The recognised forces, in simulation order. */
  function Recognised(forces: seq<HoomdForce>): seq<HoomdForce>
  {
    if |forces| == 0 then []
    else if Category(forces[0].moduleName).Some? then [forces[0]] + Recognised(forces[1..])
    else Recognised(forces[1..])
  }

  lemma {:induction false} OfCategoryAppend(a: seq<HoomdForce>, b: seq<HoomdForce>, c: string)
    ensures OfCategory(a + b, c) == OfCategory(a, c) + OfCategory(b, c)
    decreases |a|
  {
    if |a| == 0 {
      assert a + b == b;
    } else {
      assert (a + b)[1..] == a[1..] + b;
      OfCategoryAppend(a[1..], b, c);
    }
  }

  lemma {:induction false} RecognisedAppend(a: seq<HoomdForce>, b: seq<HoomdForce>)
    ensures Recognised(a + b) == Recognised(a) + Recognised(b)
    decreases |a|
  {
    if |a| == 0 {
      assert a + b == b;
    } else {
      assert (a + b)[1..] == a[1..] + b;
      RecognisedAppend(a[1..], b);
    }
  }

  /** The table `get_hoomd_force_groups` starts from. */
  const EmptyGroups: map<string, seq<HoomdForce>> :=
    map["bond" := [], "angle" := [], "dihedral" := [], "nonbond" := [], "all" := []]

  /** `get_hoomd_force_groups`: one pass over the forces appends each
      recognised force to its key's list and to `all`, and ignores the
      rest. */
  function GetHoomdForceGroups(forces: seq<HoomdForce>): (r: map<string, seq<HoomdForce>>)
    ensures r.Keys == HoomdKeys
    ensures forall c :: c in Categories ==> r[c] == OfCategory(forces, c)
    ensures r["all"] == Recognised(forces)
    decreases |forces|
  {
    if |forces| == 0 then EmptyGroups
    else
      var init := forces[..|forces| - 1];
      var last := forces[|forces| - 1];
      var prev := GetHoomdForceGroups(init);
      assert forces == init + [last];
      assert [last][1..] == [];
      RecognisedAppend(init, [last]);
      forall c | c in Categories
        ensures OfCategory(forces, c) == OfCategory(init, c) + (if Category(last.moduleName) == Some(c) then [last] else [])
      {
        OfCategoryAppend(init, [last], c);
      }
      match Category(last.moduleName)
      case None =>
        assert Recognised(forces) == Recognised(init) + [];
        prev
      case Some(k) =>
        var r := prev[k := prev[k] + [last]]["all" := prev["all"] + [last]];
        assert forall c :: c in Categories && c != k ==> r[c] == prev[c] && OfCategory(forces, c) == OfCategory(init, c) + [];
        r
  }

  /** A force is listed under key `c` exactly when it is a force of the
      simulation whose module belongs to `c`. */
  lemma {:induction false} OfCategoryMembers(forces: seq<HoomdForce>, c: string, f: HoomdForce)
    ensures f in OfCategory(forces, c) <==> f in forces && Category(f.moduleName) == Some(c)
    decreases |forces|
  {
    if |forces| > 0 {
      OfCategoryMembers(forces[1..], c, f);
      assert f in forces <==> f == forces[0] || f in forces[1..];
    }
  }

  /** The sum of the energies of a list of forces. */
  function SumEnergy(forces: seq<HoomdForce>): real
  {
    if |forces| == 0 then 0.0 else forces[0].energy + SumEnergy(forces[1..])
  }

  /** `all` lists every recognised force once: its length and its energy
      are those of the four keys together. */
  lemma {:induction false} AllIsSumOfKeys(forces: seq<HoomdForce>)
    ensures |Recognised(forces)| == |OfCategory(forces, "bond")| + |OfCategory(forces, "angle")|
                                    + |OfCategory(forces, "dihedral")| + |OfCategory(forces, "nonbond")|
    ensures SumEnergy(Recognised(forces)) == SumEnergy(OfCategory(forces, "bond")) + SumEnergy(OfCategory(forces, "angle"))
                                             + SumEnergy(OfCategory(forces, "dihedral")) + SumEnergy(OfCategory(forces, "nonbond"))
    decreases |forces|
  {
    if |forces| > 0 {
      AllIsSumOfKeys(forces[1..]);
    }
  }

  /** `get_hoomd_energy` on a key missing from the table raises `KeyError`. */
  datatype HoomdError = KeyMissing(key: string)

  /** `get_hoomd_energy`: the summed energy of the key's forces. */
  function GetHoomdEnergy(key: string, groups: map<string, seq<HoomdForce>>): (r: Result<real, HoomdError>)
    ensures r.Failure? <==> key !in groups
    ensures r.Success? ==> r.value == SumEnergy(groups[key])
  {
    if key in groups then Success(SumEnergy(groups[key])) else Failure(KeyMissing(key))
  }

  /** The measurement part of `build_run_measure_hoomd`, once the
      simulation has run one step: every key's energy, under `hoomd`. */
  function MeasureHoomd(forces: seq<HoomdForce>): (r: map<string, map<string, real>>)
    ensures r.Keys == {"hoomd"} && r["hoomd"].Keys == HoomdKeys
    ensures forall c :: c in Categories ==> r["hoomd"][c] == SumEnergy(OfCategory(forces, c))
    ensures r["hoomd"]["all"] == SumEnergy(Recognised(forces))
  {
    var groups := GetHoomdForceGroups(forces);
    map["hoomd" := map key | key in groups :: GetHoomdEnergy(key, groups).value]
  }

  /** The measured `all` is the sum of the four measured keys (and not the
      total potential: unrecognised forces are left out of both). */
  lemma MeasuredAllIsSumOfKeys(forces: seq<HoomdForce>)
    ensures var row := MeasureHoomd(forces)["hoomd"];
            row["all"] == row["bond"] + row["angle"] + row["dihedral"] + row["nonbond"]
  {
    AllIsSumOfKeys(forces);
  }
}
