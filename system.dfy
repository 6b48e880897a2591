/** The simulated system: its particles and molecules, the registry giving each particle name
    a kind, the interactions registered between kinds, and an externally imposed temperature. */
module LumolSystem {
  import opened Wrappers
  import opened Keys
  import opened Kinds

  /** How many degrees of freedom the simulation moves. */
  datatype DegreesOfFreedom =
    | Particles            // every particle moves on its own
    | Molecules            // every molecule moves as a rigid body
    | Frozen(frozen: nat)  // every particle moves, less `frozen` constrained degrees

  /** A particle: its name, and the kind the system gave that name. */
  datatype Particle = Particle(name: string, kind: nat)

  /** A molecule as it is added to the system: its particles, in order. */
  datatype Molecule = Molecule(particles: seq<Particle>)

  /** The potentials, each standing for its own parameters. Only the cutoffs take part in what
      the system checks. */
  datatype PairInteraction = PairInteraction(potential: string, cutoff: real)
  datatype BondPotential = BondPotential(potential: string)
  datatype AnglePotential = AnglePotential(potential: string)
  datatype DihedralPotential = DihedralPotential(potential: string)
  datatype CoulombicPotential = CoulombicPotential(potential: string, cutoff: Option<real>)
  datatype GlobalPotential = GlobalPotential(potential: string)

  /** The interactions of a system: lists of potentials keyed by the canonical tuple of the
      particle kinds they act on, at most one coulombic potential, and the global ones. */
  datatype Interactions = Interactions(
    pairs: map<(nat, nat), seq<PairInteraction>>,
    bonds: map<(nat, nat), seq<BondPotential>>,
    angles: map<(nat, nat, nat), seq<AnglePotential>>,
    dihedrals: map<(nat, nat, nat, nat), seq<DihedralPotential>>,
    coulomb: Option<CoulombicPotential>,
    globals: seq<GlobalPotential>)
  {
    /** The interactions with `potential` added for the pair of kinds `(i, j)`. */
    function AddPair(i: nat, j: nat, potential: PairInteraction): Interactions {
      this.(pairs := Append(pairs, PairKey(KindLess, i, j), potential))
    }

    /** The interactions with `potential` added for the bond between kinds `i` and `j`. */
    function AddBond(i: nat, j: nat, potential: BondPotential): Interactions {
      this.(bonds := Append(bonds, PairKey(KindLess, i, j), potential))
    }

    /** The interactions with `potential` added for the angle of kinds `(i, j, k)`. */
    function AddAngle(i: nat, j: nat, k: nat, potential: AnglePotential): Interactions {
      this.(angles := Append(angles, AngleKey(KindLess, i, j, k), potential))
    }

    /** The interactions with `potential` added for the dihedral angle of kinds
        `(i, j, k, m)`. */
    function AddDihedral(i: nat, j: nat, k: nat, m: nat, potential: DihedralPotential): Interactions {
      this.(dihedrals := Append(dihedrals, DihedralKey(KindLess, i, j, k, m), potential))
    }
  }

  const NoInteractions := Interactions(map[], map[], map[], map[], None, [])

  /** The potentials registered under `key`, none if it was never registered. */
  function Registered<K, P>(m: map<K, seq<P>>, key: K): seq<P> {
    if key in m then m[key] else []
  }

  /** `m` with `p` added at the end of the list of `key`. */
  function Append<K, P>(m: map<K, seq<P>>, key: K, p: P): map<K, seq<P>> {
    m[key := Registered(m, key) + [p]]
  }

  /** Every pair key is made of kinds below `n`, smallest first, and no list is empty. */
  ghost predicate PairsKeyed<P>(m: map<(nat, nat), seq<P>>, n: nat) {
    forall key | key in m :: key.0 <= key.1 < n && m[key] != []
  }

  /** Every angle key is made of kinds below `n`, the smaller end first, and no list is
      empty. */
  ghost predicate AnglesKeyed<P>(m: map<(nat, nat, nat), seq<P>>, n: nat) {
    forall key | key in m :: key.0 <= key.2 < n && key.1 < n && m[key] != []
  }

  /** Every dihedral key is made of kinds below `n` and is the key of its own reverse, and
      no list is empty. */
  ghost predicate DihedralsKeyed<P>(m: map<(nat, nat, nat, nat), seq<P>>, n: nat) {
    forall key | key in m ::
      && key.0 < n && key.1 < n && key.2 < n && key.3 < n && m[key] != []
      && key == DihedralKey(KindLess, key.3, key.2, key.1, key.0)
  }

  /** The registry only knows kinds below `n`, stores its keys canonically, and holds no
      empty list. */
  ghost predicate WellKeyed(interactions: Interactions, n: nat) {
    && PairsKeyed(interactions.pairs, n)
    && PairsKeyed(interactions.bonds, n)
    && AnglesKeyed(interactions.angles, n)
    && DihedralsKeyed(interactions.dihedrals, n)
  }

  /** Registering more kinds keeps the registry well keyed. */
  lemma WellKeyedGrows(interactions: Interactions, n: nat, n': nat)
    requires WellKeyed(interactions, n) && n <= n'
    ensures WellKeyed(interactions, n')
  {
  }

  /** Adding a potential for registered kinds keeps the registry well keyed. */
  lemma AddPairKeepsWellKeyed(interactions: Interactions, i: nat, j: nat, potential: PairInteraction, n: nat)
    requires WellKeyed(interactions, n) && i < n && j < n
    ensures WellKeyed(interactions.AddPair(i, j, potential), n)
  {
    KindLessIsStrictTotalOrder();
    PairKeyOrdered(KindLess, i, j);
  }

  lemma AddBondKeepsWellKeyed(interactions: Interactions, i: nat, j: nat, potential: BondPotential, n: nat)
    requires WellKeyed(interactions, n) && i < n && j < n
    ensures WellKeyed(interactions.AddBond(i, j, potential), n)
  {
    KindLessIsStrictTotalOrder();
    PairKeyOrdered(KindLess, i, j);
  }

  lemma AddAngleKeepsWellKeyed(interactions: Interactions, i: nat, j: nat, k: nat, potential: AnglePotential, n: nat)
    requires WellKeyed(interactions, n) && i < n && j < n && k < n
    ensures WellKeyed(interactions.AddAngle(i, j, k, potential), n)
  {
    KindLessIsStrictTotalOrder();
    AngleKeyOrdered(KindLess, i, j, k);
  }

  lemma AddDihedralKeepsWellKeyed(interactions: Interactions, i: nat, j: nat, k: nat, m: nat,
                                  potential: DihedralPotential, n: nat)
    requires WellKeyed(interactions, n) && i < n && j < n && k < n && m < n
    ensures WellKeyed(interactions.AddDihedral(i, j, k, m, potential), n)
  {
    KindLessIsStrictTotalOrder();
    DihedralKeyCanonical(KindLess, i, j, k, m);
  }

  /** A pair potential added for kinds `(i, j)` is found at the end of the list of `(i, j)`
      and of `(j, i)`, and every other list is unchanged. */
  lemma AddPairThenLookup(interactions: Interactions, i: nat, j: nat, potential: PairInteraction)
    ensures Registered(interactions.AddPair(i, j, potential).pairs, PairKey(KindLess, j, i))
         == Registered(interactions.pairs, PairKey(KindLess, i, j)) + [potential]
    ensures forall key | key != PairKey(KindLess, i, j) ::
      Registered(interactions.AddPair(i, j, potential).pairs, key) == Registered(interactions.pairs, key)
  {
    KindLessIsStrictTotalOrder();
    PairKeySymmetric(KindLess, i, j);
  }

  /** The same for an angle potential and the reversed angle. */
  lemma AddAngleThenLookup(interactions: Interactions, i: nat, j: nat, k: nat, potential: AnglePotential)
    ensures Registered(interactions.AddAngle(i, j, k, potential).angles, AngleKey(KindLess, k, j, i))
         == Registered(interactions.angles, AngleKey(KindLess, i, j, k)) + [potential]
    ensures forall key | key != AngleKey(KindLess, i, j, k) ::
      Registered(interactions.AddAngle(i, j, k, potential).angles, key) == Registered(interactions.angles, key)
  {
    KindLessIsStrictTotalOrder();
    AngleKeyReversal(KindLess, i, j, k);
  }

  /** The same for a bond potential and the swapped bond. */
  lemma AddBondThenLookup(interactions: Interactions, i: nat, j: nat, potential: BondPotential)
    ensures Registered(interactions.AddBond(i, j, potential).bonds, PairKey(KindLess, j, i))
         == Registered(interactions.bonds, PairKey(KindLess, i, j)) + [potential]
    ensures forall key | key != PairKey(KindLess, i, j) ::
      Registered(interactions.AddBond(i, j, potential).bonds, key) == Registered(interactions.bonds, key)
  {
    KindLessIsStrictTotalOrder();
    PairKeySymmetric(KindLess, i, j);
  }

  /** A dihedral potential added for kinds `(i, j, k, m)` is found at the end of the list of
      `(i, j, k, m)`, and at the end of the list of the reversed angle exactly when the two
      halves are not tied or the angle reads the same both ways; every other list is
      unchanged. */
  lemma AddDihedralThenLookup(interactions: Interactions, i: nat, j: nat, k: nat, m: nat,
                              potential: DihedralPotential)
    ensures Registered(interactions.AddDihedral(i, j, k, m, potential).dihedrals, DihedralKey(KindLess, i, j, k, m))
         == Registered(interactions.dihedrals, DihedralKey(KindLess, i, j, k, m)) + [potential]
    ensures Registered(interactions.AddDihedral(i, j, k, m, potential).dihedrals, DihedralKey(KindLess, m, k, j, i))
         == Registered(interactions.dihedrals, DihedralKey(KindLess, m, k, j, i)) + [potential]
        <==> !Ambiguous(KindLess, i, j, k, m) || (i, j, k, m) == (m, k, j, i)
    ensures forall key | key != DihedralKey(KindLess, i, j, k, m) ::
      Registered(interactions.AddDihedral(i, j, k, m, potential).dihedrals, key)
      == Registered(interactions.dihedrals, key)
  {
    KindLessIsStrictTotalOrder();
    DihedralKeyReversal(KindLess, i, j, k, m);
    var reversed := DihedralKey(KindLess, m, k, j, i);
    if reversed != DihedralKey(KindLess, i, j, k, m) {
      var before := Registered(interactions.dihedrals, reversed);
      assert |before + [potential]| != |before|;
    }
  }

  /** A dihedral potential registered for the kinds (0, 1, 0, 1) is not found for the
      reversed angle (1, 0, 1, 0): the tie in both halves sends the two to different keys. */
  lemma TiedDihedralNotFoundReversed(potential: DihedralPotential)
    ensures Registered(NoInteractions.AddDihedral(0, 1, 0, 1, potential).dihedrals, DihedralKey(KindLess, 1, 0, 1, 0)) == []
    ensures Registered(NoInteractions.AddDihedral(0, 1, 0, 1, potential).dihedrals, DihedralKey(KindLess, 0, 1, 0, 1)) == [potential]
  {
    assert DihedralKey(KindLess, 0, 1, 0, 1) == (1, 0, 1, 0);
    assert DihedralKey(KindLess, 1, 0, 1, 0) == (0, 1, 0, 1);
  }

  /** The result of looking up the potentials of a tuple of particles: the potentials, and,
      when there are none, the names of the tuple in the order the one-time warning gives them. */
  datatype Lookup<P, K> = Lookup(potentials: seq<P>, warning: Option<K>)

  /** The composition of a system: how many particles it holds of each kind. */
  datatype KindCounts = KindCounts(counts: map<nat, nat>) {
    function Particles(kind: nat): nat {
      if kind in counts then counts[kind] else 0
    }

    function AddParticle(kind: nat): (c: KindCounts)
      ensures c.Particles(kind) == Particles(kind) + 1
      ensures forall other: nat | other != kind :: c.Particles(other) == Particles(other)
    {
      KindCounts(counts[kind := Particles(kind) + 1])
    }
  }

  const CutoffTooLarge := "Can not add a potential with a cutoff bigger than half of the smallest cell length. Try increasing the cell size or decreasing the cutoff."
  const NegativeTemperature := "External temperature must be positive"

  /** Some cell length is shorter than twice `cutoff`. */
  function ExceedsHalfCell(lengths: seq<real>, cutoff: real): (r: bool)
    ensures r <==> exists i | 0 <= i < |lengths| :: 0.5 * lengths[i] < cutoff
  {
    if lengths == [] then false
    else
      assert forall i | 1 <= i < |lengths| :: lengths[1..][i - 1] == lengths[i];
      0.5 * lengths[0] < cutoff || ExceedsHalfCell(lengths[1..], cutoff)
  }

  /** The total of `sizes`. */
  function Sum(sizes: seq<nat>): nat
    decreases |sizes|
  {
    if sizes == [] then 0 else Sum(sizes[..|sizes| - 1]) + sizes[|sizes| - 1]
  }

  /** There are no more molecules than particles, when no molecule is empty. */
  lemma {:induction false} FewerMoleculesThanParticles(sizes: seq<nat>)
    requires forall i | 0 <= i < |sizes| :: sizes[i] > 0
    ensures |sizes| <= Sum(sizes)
    decreases |sizes|
  {
    if sizes != [] {
      FewerMoleculesThanParticles(sizes[..|sizes| - 1]);
    }
  }

  function Names(particles: seq<Particle>): (names: seq<string>)
    ensures |names| == |particles|
    ensures forall i | 0 <= i < |particles| :: names[i] == particles[i].name
  {
    seq(|particles|, i requires 0 <= i < |particles| => particles[i].name)
  }

  function KindsOf(particles: seq<Particle>): (kinds: seq<nat>)
    ensures |kinds| == |particles|
    ensures forall i | 0 <= i < |particles| :: kinds[i] == particles[i].kind
  {
    seq(|particles|, i requires 0 <= i < |particles| => particles[i].kind)
  }

  /** The particles of a molecule with the kinds `kinds` given to them. */
  function WithKinds(particles: seq<Particle>, kinds: seq<nat>): (r: seq<Particle>)
    requires |kinds| == |particles|
    ensures |r| == |particles|
    ensures forall i | 0 <= i < |particles| :: r[i] == Particle(particles[i].name, kinds[i])
  {
    seq(|particles|, i requires 0 <= i < |particles| => Particle(particles[i].name, kinds[i]))
  }

  /** Every particle carries the kind its name has in `kinds`. */
  ghost predicate KnownKinds(particles: seq<Particle>, kinds: KindMap) {
    forall i | 0 <= i < |particles| ::
      particles[i].name in kinds && kinds[particles[i].name] == particles[i].kind
  }

  /** Growing the registry keeps the kinds of the particles known. */
  lemma KnownKindsExtends(particles: seq<Particle>, kinds: KindMap, kinds': KindMap)
    requires KnownKinds(particles, kinds) && Extends(kinds, kinds')
    ensures KnownKinds(particles, kinds')
  {
  }

  lemma KnownKindsConcat(particles: seq<Particle>, added: seq<Particle>, kinds: KindMap)
    requires KnownKinds(particles, kinds) && KnownKinds(added, kinds)
    ensures KnownKinds(particles + added, kinds)
  {
  }

  /** The particles of a molecule carry, once added, the kinds of their names. */
  lemma AssignedKindsKnown(kinds: KindMap, particles: seq<Particle>)
    ensures KnownKinds(WithKinds(particles, AssignKinds(kinds, Names(particles)).1),
                       AssignKinds(kinds, Names(particles)).0)
  {
  }

  /** The molecules, none of them empty, hold `count` particles in all. */
  ghost predicate Covers(molecules: seq<nat>, count: nat) {
    && (forall i | 0 <= i < |molecules| :: molecules[i] > 0)
    && Sum(molecules) == count
  }

  lemma CoversAppend(molecules: seq<nat>, count: nat, size: nat)
    requires Covers(molecules, count) && size > 0
    ensures Covers(molecules + [size], count + size)
  {
    assert (molecules + [size])[..|molecules|] == molecules;
  }

  /** The invariant of a system: the kinds are dense, every particle carries the kind of its
      name, the molecules cover the particles, the registry only knows registered kinds, and
      an external temperature is never negative. */
  ghost predicate Consistent(kinds: KindMap, particles: seq<Particle>, molecules: seq<nat>,
                             interactions: Interactions, temperature: Option<real>)
  {
    && Dense(kinds)
    && KnownKinds(particles, kinds)
    && Covers(molecules, |particles|)
    && WellKeyed(interactions, |kinds|)
    && (temperature.Some? ==> temperature.value >= 0.0)
  }

  /** Registering a name keeps a system consistent. */
  lemma ConsistentAfterRegister(kinds: KindMap, name: string, particles: seq<Particle>, molecules: seq<nat>,
                                interactions: Interactions, temperature: Option<real>)
    requires Consistent(kinds, particles, molecules, interactions, temperature)
    ensures Consistent(Register(kinds, name).0, particles, molecules, interactions, temperature)
    ensures |kinds| <= |Register(kinds, name).0|
  {
    RegisterKeepsDense(kinds, name);
    KnownKindsExtends(particles, kinds, Register(kinds, name).0);
    WellKeyedGrows(interactions, |kinds|, |Register(kinds, name).0|);
  }

  /** Changing well-keyed interactions keeps a system consistent. */
  lemma ConsistentWithInteractions(kinds: KindMap, particles: seq<Particle>, molecules: seq<nat>,
                                   interactions: Interactions, interactions': Interactions, temperature: Option<real>)
    requires Consistent(kinds, particles, molecules, interactions, temperature)
    requires WellKeyed(interactions', |kinds|)
    ensures Consistent(kinds, particles, molecules, interactions', temperature)
  {
  }

  class System {
    /** The lengths of the unit cell. */
    var cellLengths: seq<real>
    /** The particles, molecule after molecule. */
    var particles: seq<Particle>
    /** The number of particles of each molecule, in order: a molecule's particles are
        contiguous. */
    var molecules: seq<nat>
    /** The particle-kind registry. */
    var kinds: KindMap
    var interactions: Interactions
    /** A temperature that replaces the one computed from the velocities. */
    var externalTemperature: Option<real>
    var simulatedDegreesOfFreedom: DegreesOfFreedom
    var step: nat

    ghost predicate Valid()
      reads this
    {
      Consistent(kinds, particles, molecules, interactions, externalTemperature)
    }

    /** An empty system in a cell with the given lengths, with no interactions. */
    constructor (cellLengths: seq<real>)
      ensures Valid()
      ensures this.cellLengths == cellLengths && particles == [] && molecules == []
      ensures kinds == map[] && interactions == NoInteractions
      ensures externalTemperature == None && simulatedDegreesOfFreedom == Particles && step == 0
    {
      this.cellLengths := cellLengths;
      particles := [];
      molecules := [];
      kinds := map[];
      interactions := NoInteractions;
      externalTemperature := None;
      simulatedDegreesOfFreedom := Particles;
      step := 0;
    }

    /** `get_kind`: the kind of `name`, registering it under the next kind when it is new. */
    method GetKind(name: string) returns (kind: nat)
      requires Valid()
      modifies this`kinds
      ensures Valid()
      ensures (kinds, kind) == Register(old(kinds), name)
      ensures kind < |kinds| && old(|kinds|) <= |kinds|
    {
      ConsistentAfterRegister(kinds, name, particles, molecules, interactions, externalTemperature);
      if name in kinds {
        kind := kinds[name];
      } else {
        kind := |kinds|;
        kinds := kinds[name := kind];
      }
    }

    /** The kinds of `names`, each given in turn by `GetKind`. */
    method GetKinds(names: seq<string>) returns (given: seq<nat>)
      requires Valid()
      modifies this`kinds
      ensures Valid()
      ensures (kinds, given) == AssignKinds(old(kinds), names)
      ensures forall n | 0 <= n < |given| :: given[n] < |kinds|
    {
      given := [];
      var i := 0;
      while i < |names|
        invariant 0 <= i <= |names|
        invariant Valid()
        invariant kinds == AssignKinds(old(kinds), names[..i]).0
        invariant given == AssignKinds(old(kinds), names[..i]).1
      {
        var kind := GetKind(names[i]);
        AssignKindsStep(old(kinds), names, i);
        given := given + [kind];
        i := i + 1;
      }
      assert names[..i] == names;
      forall n | 0 <= n < |given| ensures given[n] < |kinds| {
        assert names[n] in kinds;
      }
    }

    /** `add_molecule`: gives each particle of `molecule` the kind of its name, in order, and
        appends the molecule. */
    method AddMolecule(molecule: Molecule)
      requires Valid()
      requires |molecule.particles| > 0
      modifies this`kinds, this`particles, this`molecules
      ensures Valid()
      ensures kinds == AssignKinds(old(kinds), Names(molecule.particles)).0
      ensures particles == old(particles)
        + WithKinds(molecule.particles, AssignKinds(old(kinds), Names(molecule.particles)).1)
      ensures molecules == old(molecules) + [|molecule.particles|]
    {
      var given := GetKinds(Names(molecule.particles));
      var added := WithKinds(molecule.particles, given);
      AssignedKindsKnown(old(kinds), molecule.particles);
      KnownKindsConcat(particles, added, kinds);
      CoversAppend(molecules, |particles|, |added|);
      particles := particles + added;
      molecules := molecules + [|added|];
    }

    /** `composition`: counts the particles of each kind, one pass over the particles. */
    method Composition() returns (composition: KindCounts)
      ensures forall kind: nat :: composition.Particles(kind) == Occurrences(KindsOf(particles), kind)
    {
      composition := KindCounts(map[]);
      var kindsOf := KindsOf(particles);
      var i := 0;
      while i < |kindsOf|
        invariant 0 <= i <= |kindsOf|
        invariant forall kind: nat :: composition.Particles(kind) == Occurrences(kindsOf[..i], kind)
      {
        assert kindsOf[..i + 1][..i] == kindsOf[..i];
        composition := composition.AddParticle(kindsOf[i]);
        i := i + 1;
      }
      assert kindsOf[..i] == kindsOf;
    }

    /** `simulated_temperature`: sets or clears the external temperature; a negative one
        panics. */
    method SimulatedTemperature(temperature: Option<real>) returns (outcome: Outcome)
      requires Valid()
      modifies this`externalTemperature
      ensures Valid()
      ensures outcome.Panic? <==> temperature.Some? && temperature.value < 0.0
      ensures outcome.Panic? ==> outcome.message == NegativeTemperature
      ensures outcome.Panic? ==> externalTemperature == old(externalTemperature)
      ensures outcome.Pass? ==> externalTemperature == temperature
      ensures outcome.Pass? ==> (forall t: real :: Temperature(t) == if temperature.Some? then temperature.value else t)
    {
      if temperature.Some? && !(temperature.value >= 0.0) {
        return Panic(NegativeTemperature);
      }
      externalTemperature := temperature;
      outcome := Pass;
    }

    /** `temperature`: the external temperature when there is one, otherwise the one computed
        from the velocities, given as `fromVelocities`. */
    function Temperature(fromVelocities: real): (t: real)
      reads this
      ensures externalTemperature.Some? ==> t == externalTemperature.value
      ensures externalTemperature.None? ==> t == fromVelocities
      ensures Valid() && fromVelocities >= 0.0 ==> t >= 0.0
    {
      match externalTemperature
      case Some(value) => value
      case None => fromVelocities
    }

    /** `degrees_of_freedom`: three per particle, less the frozen ones, or three per rigid
        molecule. Freezing more degrees than there are is the unsigned subtraction overflow
        that panics: `None`. */
    function CountDegreesOfFreedom(): (r: Option<nat>)
      reads this
      ensures simulatedDegreesOfFreedom.Particles? ==> r == Some(3 * |particles|)
      ensures simulatedDegreesOfFreedom.Frozen? ==>
        (r.Some? <==> simulatedDegreesOfFreedom.frozen <= 3 * |particles|)
      ensures simulatedDegreesOfFreedom.Frozen? && r.Some? ==>
        r.value + simulatedDegreesOfFreedom.frozen == 3 * |particles|
      ensures simulatedDegreesOfFreedom.Molecules? ==> r == Some(3 * |molecules|)
    {
      match simulatedDegreesOfFreedom
      case Particles => Some(3 * |particles|)
      case Frozen(frozen) =>
        if frozen <= 3 * |particles| then Some(3 * |particles| - frozen) else None
      case Molecules => Some(3 * |molecules|)
    }

    /** `add_pair_potential`: panics when the cutoff exceeds half of some cell length,
        otherwise registers the potential for the kinds of `i` and `j`. */
    method AddPairPotential(i: string, j: string, potential: PairInteraction) returns (outcome: Outcome)
      requires Valid()
      modifies this`kinds, this`interactions
      ensures Valid()
      ensures outcome.Panic? <==> ExceedsHalfCell(cellLengths, potential.cutoff)
      ensures outcome.Panic? ==> outcome.message == CutoffTooLarge
      ensures outcome.Panic? ==> kinds == old(kinds) && interactions == old(interactions)
      ensures outcome.Pass? ==> kinds == AssignKinds(old(kinds), [i, j]).0
      ensures outcome.Pass? ==> interactions == old(interactions).AddPair(kinds[i], kinds[j], potential)
    {
      if ExceedsHalfCell(cellLengths, potential.cutoff) {
        return Panic(CutoffTooLarge);
      }
      var given := GetKinds([i, j]);
      assert given[0] == kinds[i] && given[1] == kinds[j];
      var interactions' := interactions.AddPair(given[0], given[1], potential);
      AddPairKeepsWellKeyed(interactions, given[0], given[1], potential, |kinds|);
      ConsistentWithInteractions(kinds, particles, molecules, interactions, interactions', externalTemperature);
      interactions := interactions';
      outcome := Pass;
    }

    /** `add_bond_potential`: registers the potential for the kinds of `i` and `j`. */
    method AddBondPotential(i: string, j: string, potential: BondPotential)
      requires Valid()
      modifies this`kinds, this`interactions
      ensures Valid()
      ensures kinds == AssignKinds(old(kinds), [i, j]).0
      ensures interactions == old(interactions).AddBond(kinds[i], kinds[j], potential)
    {
      var given := GetKinds([i, j]);
      assert given[0] == kinds[i] && given[1] == kinds[j];
      var interactions' := interactions.AddBond(given[0], given[1], potential);
      AddBondKeepsWellKeyed(interactions, given[0], given[1], potential, |kinds|);
      ConsistentWithInteractions(kinds, particles, molecules, interactions, interactions', externalTemperature);
      interactions := interactions';
    }

    /** `add_angle_potential`: registers the potential for the kinds of `i`, `j` and `k`. */
    method AddAnglePotential(i: string, j: string, k: string, potential: AnglePotential)
      requires Valid()
      modifies this`kinds, this`interactions
      ensures Valid()
      ensures kinds == AssignKinds(old(kinds), [i, j, k]).0
      ensures interactions == old(interactions).AddAngle(kinds[i], kinds[j], kinds[k], potential)
    {
      var given := GetKinds([i, j, k]);
      assert given[0] == kinds[i] && given[1] == kinds[j] && given[2] == kinds[k];
      var interactions' := interactions.AddAngle(given[0], given[1], given[2], potential);
      AddAngleKeepsWellKeyed(interactions, given[0], given[1], given[2], potential, |kinds|);
      ConsistentWithInteractions(kinds, particles, molecules, interactions, interactions', externalTemperature);
      interactions := interactions';
    }

    /** `add_dihedral_potential`: registers the potential for the kinds of `i`, `j`, `k`
        and `m`. */
    method AddDihedralPotential(i: string, j: string, k: string, m: string, potential: DihedralPotential)
      requires Valid()
      modifies this`kinds, this`interactions
      ensures Valid()
      ensures kinds == AssignKinds(old(kinds), [i, j, k, m]).0
      ensures interactions == old(interactions).AddDihedral(kinds[i], kinds[j], kinds[k], kinds[m], potential)
    {
      var given := GetKinds([i, j, k, m]);
      assert given[0] == kinds[i] && given[1] == kinds[j] && given[2] == kinds[k] && given[3] == kinds[m];
      var interactions' := interactions.AddDihedral(given[0], given[1], given[2], given[3], potential);
      AddDihedralKeepsWellKeyed(interactions, given[0], given[1], given[2], given[3], potential, |kinds|);
      ConsistentWithInteractions(kinds, particles, molecules, interactions, interactions', externalTemperature);
      interactions := interactions';
    }

    /** `set_coulomb_potential`: a potential with a cutoff exceeding half of some cell length
        panics; otherwise it replaces the coulombic potential. */
    method SetCoulombPotential(potential: CoulombicPotential) returns (outcome: Outcome)
      requires Valid()
      modifies this`interactions
      ensures Valid()
      ensures outcome.Panic? <==>
        potential.cutoff.Some? && ExceedsHalfCell(cellLengths, potential.cutoff.value)
      ensures outcome.Panic? ==> outcome.message == CutoffTooLarge
      ensures outcome.Panic? ==> interactions == old(interactions)
      ensures outcome.Pass? ==> interactions == old(interactions).(coulomb := Some(potential))
    {
      if potential.cutoff.Some? && ExceedsHalfCell(cellLengths, potential.cutoff.value) {
        return Panic(CutoffTooLarge);
      }
      interactions := interactions.(coulomb := Some(potential));
      outcome := Pass;
    }

    /** `add_global_potential`: appends a global potential. */
    method AddGlobalPotential(potential: GlobalPotential)
      requires Valid()
      modifies this`interactions
      ensures Valid()
      ensures interactions == old(interactions).(globals := old(interactions.globals) + [potential])
    {
      interactions := interactions.(globals := interactions.globals + [potential]);
    }

    /** `pair_potentials`: the pair potentials between the particles at `i` and `j`. */
    function PairPotentials(i: nat, j: nat): (r: Lookup<PairInteraction, (string, string)>)
      reads this
      requires Valid()
      requires i < |particles| && j < |particles|
      ensures r.potentials
        == Registered(interactions.pairs, PairKey(KindLess, particles[i].kind, particles[j].kind))
      ensures r.warning.Some?
        <==> PairKey(KindLess, particles[i].kind, particles[j].kind) !in interactions.pairs
      ensures r.warning.Some? ==> (r.potentials == []
        && r.warning.value == PairKey(NameLess, particles[i].name, particles[j].name))
    {
      var pairs := Registered(interactions.pairs, PairKey(KindLess, particles[i].kind, particles[j].kind));
      if pairs == [] then Lookup(pairs, Some(PairKey(NameLess, particles[i].name, particles[j].name)))
      else Lookup(pairs, None)
    }

    /** `bond_potentials`: the bond potentials between the particles at `i` and `j`. */
    function BondPotentials(i: nat, j: nat): (r: Lookup<BondPotential, (string, string)>)
      reads this
      requires Valid()
      requires i < |particles| && j < |particles|
      ensures r.potentials
        == Registered(interactions.bonds, PairKey(KindLess, particles[i].kind, particles[j].kind))
      ensures r.warning.Some?
        <==> PairKey(KindLess, particles[i].kind, particles[j].kind) !in interactions.bonds
      ensures r.warning.Some? ==> (r.potentials == []
        && r.warning.value == PairKey(NameLess, particles[i].name, particles[j].name))
    {
      var bonds := Registered(interactions.bonds, PairKey(KindLess, particles[i].kind, particles[j].kind));
      if bonds == [] then Lookup(bonds, Some(PairKey(NameLess, particles[i].name, particles[j].name)))
      else Lookup(bonds, None)
    }

    /** `angle_potentials`: the angle potentials of the particles at `i`, `j` and `k`. */
    function AnglePotentials(i: nat, j: nat, k: nat): (r: Lookup<AnglePotential, (string, string, string)>)
      reads this
      requires Valid()
      requires i < |particles| && j < |particles| && k < |particles|
      ensures r.potentials == Registered(interactions.angles,
        AngleKey(KindLess, particles[i].kind, particles[j].kind, particles[k].kind))
      ensures r.warning.Some? <==>
        AngleKey(KindLess, particles[i].kind, particles[j].kind, particles[k].kind) !in interactions.angles
      ensures r.warning.Some? ==> (r.potentials == []
        && r.warning.value == AngleKey(NameLess, particles[i].name, particles[j].name, particles[k].name))
    {
      var angles := Registered(interactions.angles,
        AngleKey(KindLess, particles[i].kind, particles[j].kind, particles[k].kind));
      if angles == [] then
        Lookup(angles, Some(AngleKey(NameLess, particles[i].name, particles[j].name, particles[k].name)))
      else Lookup(angles, None)
    }

    /** `dihedral_potentials`: the dihedral potentials of the particles at `i`, `j`, `k`
        and `m`. */
    function DihedralPotentials(i: nat, j: nat, k: nat, m: nat)
      : (r: Lookup<DihedralPotential, (string, string, string, string)>)
      reads this
      requires Valid()
      requires i < |particles| && j < |particles| && k < |particles| && m < |particles|
      ensures r.potentials == Registered(interactions.dihedrals,
        DihedralKey(KindLess, particles[i].kind, particles[j].kind, particles[k].kind, particles[m].kind))
      ensures r.warning.Some? <==> DihedralKey(KindLess, particles[i].kind, particles[j].kind,
        particles[k].kind, particles[m].kind) !in interactions.dihedrals
      ensures r.warning.Some? ==> (r.potentials == []
        && r.warning.value == DihedralKey(NameLess, particles[i].name, particles[j].name,
             particles[k].name, particles[m].name))
    {
      var dihedrals := Registered(interactions.dihedrals,
        DihedralKey(KindLess, particles[i].kind, particles[j].kind, particles[k].kind, particles[m].kind));
      if dihedrals == [] then
        Lookup(dihedrals, Some(DihedralKey(NameLess, particles[i].name, particles[j].name,
          particles[k].name, particles[m].name)))
      else Lookup(dihedrals, None)
    }
  }

  /** The pair potentials, and the warning, do not depend on the order of the two particles. */
  lemma PairPotentialsSymmetric(system: System, i: nat, j: nat)
    requires system.Valid()
    requires i < |system.particles| && j < |system.particles|
    ensures system.PairPotentials(i, j) == system.PairPotentials(j, i)
  {
    KindLessIsStrictTotalOrder();
    NameLessIsStrictTotalOrder();
    var p := system.particles;
    PairKeySymmetric(KindLess, p[i].kind, p[j].kind);
    PairKeySymmetric(NameLess, p[i].name, p[j].name);
  }

  /** The bond potentials, and the warning, do not depend on the order of the two particles. */
  lemma BondPotentialsSymmetric(system: System, i: nat, j: nat)
    requires system.Valid()
    requires i < |system.particles| && j < |system.particles|
    ensures system.BondPotentials(i, j) == system.BondPotentials(j, i)
  {
    KindLessIsStrictTotalOrder();
    NameLessIsStrictTotalOrder();
    var p := system.particles;
    PairKeySymmetric(KindLess, p[i].kind, p[j].kind);
    PairKeySymmetric(NameLess, p[i].name, p[j].name);
  }

  /** The angle potentials, and the warning, are the same for an angle and its reverse. */
  lemma AnglePotentialsReversal(system: System, i: nat, j: nat, k: nat)
    requires system.Valid()
    requires i < |system.particles| && j < |system.particles| && k < |system.particles|
    ensures system.AnglePotentials(i, j, k) == system.AnglePotentials(k, j, i)
  {
    KindLessIsStrictTotalOrder();
    NameLessIsStrictTotalOrder();
    var p := system.particles;
    AngleKeyReversal(KindLess, p[i].kind, p[j].kind, p[k].kind);
    AngleKeyReversal(NameLess, p[i].name, p[j].name, p[k].name);
  }

  /** In a valid system two particles have the same name exactly when they have the same
      kind, so the halves of a dihedral angle are tied in kinds exactly when they are tied
      in names. */
  lemma TiedKindsIffTiedNames(system: System, i: nat, j: nat, k: nat, m: nat)
    requires system.Valid()
    requires i < |system.particles| && j < |system.particles| && k < |system.particles| && m < |system.particles|
    ensures Ambiguous(KindLess, system.particles[i].kind, system.particles[j].kind,
                      system.particles[k].kind, system.particles[m].kind)
        <==> Ambiguous(NameLess, system.particles[i].name, system.particles[j].name,
                       system.particles[k].name, system.particles[m].name)
  {
    KindLessIsStrictTotalOrder();
    NameLessIsStrictTotalOrder();
    var p := system.particles;
    AmbiguousIffSameHalves(KindLess, p[i].kind, p[j].kind, p[k].kind, p[m].kind);
    AmbiguousIffSameHalves(NameLess, p[i].name, p[j].name, p[k].name, p[m].name);
    forall x, y | x in {i, j, k, m} && y in {i, j, k, m}
      ensures p[x].kind == p[y].kind <==> p[x].name == p[y].name
    {
      assert p[x].name in system.kinds && p[y].name in system.kinds;
    }
  }

  /** The dihedral potentials, and the warning, are the same for a dihedral angle and its
      reverse, unless the two halves of the angle hold the same two kinds. */
  lemma DihedralPotentialsReversal(system: System, i: nat, j: nat, k: nat, m: nat)
    requires system.Valid()
    requires i < |system.particles| && j < |system.particles| && k < |system.particles| && m < |system.particles|
    requires !Ambiguous(KindLess, system.particles[i].kind, system.particles[j].kind,
                        system.particles[k].kind, system.particles[m].kind)
    ensures system.DihedralPotentials(i, j, k, m) == system.DihedralPotentials(m, k, j, i)
  {
    TiedKindsIffTiedNames(system, i, j, k, m);
    KindLessIsStrictTotalOrder();
    NameLessIsStrictTotalOrder();
    var p := system.particles;
    DihedralKeyReversal(KindLess, p[i].kind, p[j].kind, p[k].kind, p[m].kind);
    DihedralKeyReversal(NameLess, p[i].name, p[j].name, p[k].name, p[m].name);
  }

  /** In a system without interactions every lookup finds nothing and reports the tuple. */
  lemma NothingRegisteredNothingFound(system: System, i: nat, j: nat, k: nat, m: nat)
    requires system.Valid() && system.interactions == NoInteractions
    requires i < |system.particles| && j < |system.particles| && k < |system.particles| && m < |system.particles|
    ensures system.PairPotentials(i, j).potentials == [] && system.PairPotentials(i, j).warning.Some?
    ensures system.BondPotentials(i, j).potentials == [] && system.BondPotentials(i, j).warning.Some?
    ensures system.AnglePotentials(i, j, k).potentials == [] && system.AnglePotentials(i, j, k).warning.Some?
    ensures system.DihedralPotentials(i, j, k, m).potentials == []
         && system.DihedralPotentials(i, j, k, m).warning.Some?
  {
  }

  /** Counting the particles kind by kind over all registered kinds counts each particle
      exactly once. */
  lemma CompositionCountsEachParticleOnce(system: System)
    requires system.Valid()
    ensures OccurrencesBelow(KindsOf(system.particles), |system.kinds|) == |system.particles|
  {
    var kindsOf := KindsOf(system.particles);
    forall i | 0 <= i < |kindsOf| ensures kindsOf[i] < |system.kinds| {
      assert system.particles[i].name in system.kinds;
    }
    OccurrencesBelowAll(kindsOf, |system.kinds|);
  }

  /** Moving rigid molecules never simulates more degrees of freedom than moving every
      particle. */
  lemma RigidMoleculesHaveFewerDegrees(system: System)
    requires system.Valid()
    ensures 3 * |system.molecules| <= 3 * |system.particles|
  {
    FewerMoleculesThanParticles(system.molecules);
  }

  /** A water molecule H, O, H added to an empty system gets the kinds 0, 1, 0. */
  method WaterMolecule() returns (system: System)
    ensures fresh(system) && system.Valid()
    ensures system.kinds == map["H" := 0, "O" := 1]
    ensures system.particles == [Particle("H", 0), Particle("O", 1), Particle("H", 0)]
    ensures system.interactions == NoInteractions && system.cellLengths == [10.0, 10.0, 10.0]
  {
    system := new System([10.0, 10.0, 10.0]);
    var water := Molecule([Particle("H", 0), Particle("O", 0), Particle("H", 0)]);
    assert Names(water.particles) == ["H", "O", "H"];
    WaterKinds();
    system.AddMolecule(water);
  }

  /** In that water molecule, a pair potential registered for (O, H) is found for the pair
      (H, O) in either order, and the missing (H, H) pair is reported under its names. */
  method WaterPairExample() returns (system: System)
    ensures system.Valid() && |system.particles| == 3
    ensures system.PairPotentials(0, 1).potentials == [PairInteraction("lj", 2.0)]
    ensures system.PairPotentials(1, 0).potentials == [PairInteraction("lj", 2.0)]
    ensures system.PairPotentials(0, 2) == Lookup([], Some(("H", "H")))
  {
    system := WaterMolecule();
    assert !ExceedsHalfCell([10.0, 10.0, 10.0], 2.0);
    AssignKnownNames(system.kinds, ["O", "H"]);
    var outcome := system.AddPairPotential("O", "H", PairInteraction("lj", 2.0));
    assert outcome.Pass? && system.kinds == map["H" := 0, "O" := 1];
    assert PairKey(KindLess, 1, 0) == (0, 1);
    assert system.interactions.pairs == Append(map[], (0, 1), PairInteraction("lj", 2.0));
    PairPotentialsSymmetric(system, 0, 1);
  }
}
