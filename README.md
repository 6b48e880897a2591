# Lumol: the system's kind registry and input validation, in Dafny

This project models three parts of Lumol, a molecular simulation engine.

- **The simulated `System`** (`system.dfy`, with `kinds.dfy` and `keys.dfy`). This covers:
  - The registry that gives every particle name a dense integer kind, in the order names are first seen.
  - Adding molecules, which gives their particles those kinds.
  - Registering pair, bond, angle, dihedral, coulombic and global potentials. Pair and coulombic cutoffs larger than half a cell length are refused.
  - Looking potentials up for a tuple of particles, and the canonical order of the names in the warning for a missing interaction.
  - The composition of the system.
  - The external temperature.
  - The number of simulated degrees of freedom.

  The system is a class whose methods update its fields. Every method keeps the invariant `Valid`:
  - the kinds are exactly `0 .. |kinds| - 1`, one name each;
  - every particle carries the kind of its name;
  - the molecules cover the particles;
  - the interaction registry only knows registered kinds, stored under canonical keys: pairs smallest first, angles smaller end first, and every dihedral key is the key of its own reverse;
  - an external temperature is never negative.

  The lookups find a potential registered for a pair, bond or angle for that tuple in either order. For dihedral angles this fails only when the two halves are tied and the angle does not read the same both ways. Take (A, B, A, B), whose halves both hold A and B. The key rule at `lumol-core/src/sys/system.rs:286-298` sends it and its reverse (B, A, B, A) to different keys. So a potential registered for one is not found for the other, and the two warnings name the tuple in different orders (`LumolSystem.AddDihedralThenLookup`, `LumolSystem.TiedDihedralNotFoundReversed`). Tied angles that read the same both ways, such as (C, C, C, C) or (H, C, C, H), are their own reverse and are found.

  The registry, the key rules and the counting are also specified as functions on values (`Kinds.Register`, `Kinds.AssignKinds`, `Keys.PairKey`, …). The methods are proved against them.
- **The system table of an input file** (`input_system.dfy`):
  - the single `[[systems]]` table;
  - its `cell` entry, read into a unit cell;
  - its `guess_bonds` flag.
- **The TOML key extractors** (`extract.dfy`): `table`, `str`, `number`, `slice` and `typ`. Each returns the value at a key, or one of two error messages (missing key, then wrong type).

`wrappers.dfy` holds `Option`, `Result` and `Outcome`. A Rust `panic!` or `assert!` failure is modelled as the outcome `Panic(message)`, with the state left unchanged. `toml.dfy` holds the TOML value tree.

## Model

| member | source | states |
|---|---|---|
| Extract.MissingKeyIsNotTypeError | src/input/src/extract.rs:10-15 | a missing-key message never equals a wrong-type message, so the two error cases can be told apart |
| Extract.Table | src/input/src/extract.rs:9-16 | the missing-key error exactly when the key is absent; success exactly when it maps to a table, returning that table; otherwise the "must be a table" error |
| Extract.Str | src/input/src/extract.rs:20-27 | the missing-key error exactly when the key is absent; success exactly when it maps to a string, returning it; otherwise the "must be a string" error |
| Extract.Number | src/input/src/extract.rs:31-42 | the missing-key error exactly when the key is absent; an integer is returned as a real, a float as it is; every other value gives the "must be a number" error |
| Extract.Slice | src/input/src/extract.rs:46-53 | the missing-key error exactly when the key is absent; success exactly when it maps to an array, returning its items; otherwise the "must be an array" error |
| Extract.Typ | src/input/src/extract.rs:56-63 | the missing-key error for `type` exactly when it is absent; success exactly when it is a string; otherwise the "'type' key must be a string" error |
| Extract.TypIsStrOfType | src/input/src/extract.rs:56-63 | `typ` succeeds exactly when `str` on `type` does, with the same value and the same missing-key error; only the type-error wording differs |
| Extract.AbsentKeyIsNeverATypeError | src/input/src/extract.rs:9-63 | for an absent key every extractor reports the missing key, never a type error |
| InputSystem.SystemTable | src/input/src/simulations/system.rs:64-80 | success exactly when `systems` is an array holding exactly one table, returning it; the missing key, a non-array, an empty array, several entries and a non-table entry each give their own error |
| InputSystem.GetCellNumber | src/input/src/simulations/system.rs:163-171 | an integer gives itself as a real, a float gives itself, anything else gives "Values must be numbers in 'cell' array" |
| InputSystem.CellNumbers | src/input/src/simulations/system.rs:90-103 | reading the items of a cell array succeeds exactly when every item is a number, giving each item's number in order; otherwise the cell-number error |
| InputSystem.CellFromValue | src/input/src/simulations/system.rs:85-116 | an empty array gives the infinite cell; 3 or 6 numbers give an orthorhombic or triclinic cell from those numbers in order; other array sizes give the size error; an integer or float gives a cubic cell; any other value gives the type error |
| InputSystem.ReadCell | src/input/src/simulations/system.rs:82-120 | errors of the system table come first; no `cell` key gives no cell; otherwise the result is the cell the value describes, or its error |
| InputSystem.ReadCellRoundTrip | src/input/src/simulations/system.rs:82-120 | reading back a cell written in the input format gives the same cell, whatever else the system table holds |
| InputSystem.CellNumberIsExtractNumber | src/input/src/simulations/system.rs:163-171 | a cell number is read exactly as `extract::number` reads a number |
| InputSystem.GuessBonds | src/input/src/simulations/system.rs:38-42 | `false` when the key is absent, the boolean when it is one, and the `guess_bonds` error exactly when it is present and not a boolean |
| Keys.NameLessIrreflexive | lumol-core/src/sys/system.rs:209-213 | no name is smaller than itself |
| Keys.NameLessTransitive | lumol-core/src/sys/system.rs:209-213 | the name order is transitive |
| Keys.NameLessTotal | lumol-core/src/sys/system.rs:209-213 | of two different names one is smaller |
| Keys.NameLessIsStrictTotalOrder | lumol-core/src/sys/system.rs:209-213 | the comparison of names used to order the warning is a strict total order |
| Keys.KindLessIsStrictTotalOrder | lumol-core/src/sys/system.rs:201-204 | the comparison of kinds is a strict total order |
| Keys.PairKey | lumol-core/src/sys/system.rs:209-213 | a pair key is the pair or its swap |
| Keys.AngleKey | lumol-core/src/sys/system.rs:256-260 | an angle key is the angle or its reverse |
| Keys.DihedralKey | lumol-core/src/sys/system.rs:286-298 | a dihedral key is the dihedral angle or its reverse |
| Keys.PairKeyOrdered | lumol-core/src/sys/system.rs:209-213 | a pair key holds the smaller element first |
| Keys.AngleKeyOrdered | lumol-core/src/sys/system.rs:256-260 | an angle key holds the smaller end first |
| Keys.DihedralKeyOrdered | lumol-core/src/sys/system.rs:286-298 | a dihedral key holds first the half with the smaller maximum and, on equal maxima, the half with the smaller minimum; when both halves hold the same two values the key is the reversed tuple |
| Keys.AmbiguousIffSameHalves | lumol-core/src/sys/system.rs:286-292 | the two halves tie on both maximum and minimum exactly when they hold the same two values, in either order |
| Keys.DihedralKeyCanonical | lumol-core/src/sys/system.rs:286-298 | the key of a dihedral angle, read backwards, has itself as key: keys are fixed representatives of an angle and its reverse |
| Keys.MaxMinSymmetric | lumol-core/src/sys/system.rs:286-287 | `max` and `min` do not depend on argument order, and together they are the two arguments |
| Keys.PairKeySymmetric | lumol-core/src/sys/system.rs:209-213 | swapping a pair does not change its key |
| Keys.AngleKeyReversal | lumol-core/src/sys/system.rs:256-260 | reversing an angle does not change its key |
| Keys.DihedralKeyReversal | lumol-core/src/sys/system.rs:286-298 | reversing a dihedral angle keeps its key exactly when the comparison can pick a direction or the angle reads the same both ways |
| Keys.DihedralKeyNotReversalInvariant | lumol-core/src/sys/system.rs:286-298 | (A, B, A, B) and its reverse (B, A, B, A) get different keys |
| Kinds.Register | lumol-core/src/sys/system.rs:82-90 | a known name keeps the registry and gets its kind; a new name gets kind `|kinds|` and is the only entry added; existing entries never change |
| Kinds.RegisterKeepsDense | lumol-core/src/sys/system.rs:86-88 | handing out a kind keeps the kinds exactly `0 .. |kinds| - 1`, one name each, and a new name grows the registry by one |
| Kinds.AssignKinds | lumol-core/src/sys/system.rs:93-98 | after giving kinds to the names in order, the registry extends the old one, holds exactly the old and the new names, and each particle has its name's kind |
| Kinds.AssignKindsStep | lumol-core/src/sys/system.rs:94-96 | giving a kind to one more name registers it after the others |
| Kinds.AssignKindsKeepsDense | lumol-core/src/sys/system.rs:93-98 | adding particles keeps the kinds dense |
| Kinds.AssignKnownNames | lumol-core/src/sys/system.rs:82-85 | names already registered leave the registry unchanged and get their registered kinds |
| Kinds.SameNameSameKind | lumol-core/src/sys/system.rs:93-97 | two particles with the same name get the same kind |
| Kinds.DifferentNamesDifferentKinds | lumol-core/src/sys/system.rs:93-97 | particles with different names get different kinds |
| Kinds.WaterKinds | lumol-core/src/sys/system.rs:444-454 | H, O, H added to an empty registry get the kinds 0, 1, 0 |
| Kinds.OccurrencesBelowAppend | lumol-core/src/sys/system.rs:101-105 | counting kind by kind, one more particle adds one exactly when its kind is counted |
| Kinds.OccurrencesBelowAll | lumol-core/src/sys/system.rs:101-105 | counting kind by kind over all the kinds in use counts every particle exactly once |
| Kinds.OccurrencesBelowEmpty | lumol-core/src/sys/system.rs:101-105 | no particles give a zero count |
| LumolSystem.KindCounts.AddParticle | lumol-core/src/sys/system.rs:103-104 | adding a particle raises the count of its kind by one and leaves every other count unchanged |
| LumolSystem.ExceedsHalfCell | lumol-core/src/sys/system.rs:135 | true exactly when some cell length is less than twice the cutoff |
| LumolSystem.FewerMoleculesThanParticles | lumol-core/src/sys/system.rs:331-337 | when no molecule is empty there are no more molecules than particles |
| LumolSystem.WellKeyedGrows | lumol-core/src/sys/system.rs:86-88 | registering more kinds keeps the interaction registry well keyed |
| LumolSystem.AddPairKeepsWellKeyed | lumol-core/src/sys/system.rs:134-145 | adding a pair potential for registered kinds keeps the registry well keyed |
| LumolSystem.AddBondKeepsWellKeyed | lumol-core/src/sys/system.rs:148-152 | the same for a bond potential |
| LumolSystem.AddAngleKeepsWellKeyed | lumol-core/src/sys/system.rs:155-165 | the same for an angle potential |
| LumolSystem.AddDihedralKeepsWellKeyed | lumol-core/src/sys/system.rs:168-179 | the same for a dihedral potential |
| LumolSystem.AddPairThenLookup | lumol-core/src/sys/system.rs:144 | a pair potential added for kinds (i, j) is found at the end of the list of (j, i), and every other list is unchanged |
| LumolSystem.AddAngleThenLookup | lumol-core/src/sys/system.rs:163 | an angle potential added for (i, j, k) is found at the end of the list of (k, j, i), and every other list is unchanged |
| LumolSystem.AddBondThenLookup | lumol-core/src/sys/system.rs:151 | a bond potential added for kinds (i, j) is found at the end of the list of (j, i), and every other list is unchanged |
| LumolSystem.AddDihedralThenLookup | lumol-core/src/sys/system.rs:177 | a dihedral potential added for (i, j, k, m) is found at the end of its list; it is found at the end of the list of (m, k, j, i) exactly when the halves are not tied or the angle reads the same both ways; every other list is unchanged |
| LumolSystem.TiedDihedralNotFoundReversed | lumol-core/src/sys/system.rs:286-298 | a dihedral potential registered for the kinds (0, 1, 0, 1) is found under its own key but the reversed angle (1, 0, 1, 0) finds nothing |
| LumolSystem.KnownKindsExtends | lumol-core/src/sys/system.rs:82-90 | growing the registry keeps every particle's kind that of its name |
| LumolSystem.KnownKindsConcat | lumol-core/src/sys/system.rs:93-98 | appending particles with known kinds keeps every particle's kind that of its name |
| LumolSystem.AssignedKindsKnown | lumol-core/src/sys/system.rs:93-98 | the particles of an added molecule carry the kinds of their names |
| LumolSystem.CoversAppend | lumol-core/src/sys/system.rs:93-98 | appending a non-empty molecule keeps the molecules covering the particles |
| LumolSystem.ConsistentAfterRegister | lumol-core/src/sys/system.rs:82-90 | registering a name keeps the system invariant and never shrinks the registry |
| LumolSystem.ConsistentWithInteractions | lumol-core/src/sys/system.rs:134-197 | replacing the interactions by well-keyed ones keeps the system invariant |
| LumolSystem.System.constructor | lumol-core/src/sys/system.rs:64-80 | a new system has the given cell, no particles, molecules, kinds or interactions, no external temperature, particle degrees of freedom and step 0, and is valid |
| LumolSystem.System.GetKind | lumol-core/src/sys/system.rs:82-90 | the registry and kind are those of `Register`; the kind is below the registry size; the system stays valid |
| LumolSystem.System.GetKinds | lumol-core/src/sys/system.rs:94-96 | calling `get_kind` on each name in turn leaves the registry and the kinds of `AssignKinds` |
| LumolSystem.System.AddMolecule | lumol-core/src/sys/system.rs:93-98 | the registry becomes that of `AssignKinds`; the molecule's particles, with their kinds, are appended; the molecule's size is appended; the system stays valid |
| LumolSystem.System.Composition | lumol-core/src/sys/system.rs:101-105 | the count of every kind is the number of particles of that kind |
| LumolSystem.System.SimulatedTemperature | lumol-core/src/sys/system.rs:118-123 | panics with "External temperature must be positive" exactly for a negative temperature, leaving it unchanged; otherwise stores it, after which `temperature` returns it, or the computed one for `None` |
| LumolSystem.System.Temperature | lumol-core/src/sys/system.rs:355-360 | the external temperature when there is one, otherwise the one computed from the velocities; never negative in a valid system when the computed one is not |
| LumolSystem.System.CountDegreesOfFreedom | lumol-core/src/sys/system.rs:331-337 | three per particle; three per particle less the frozen ones, defined exactly when they do not exceed them; three per molecule |
| LumolSystem.System.AddPairPotential | lumol-core/src/sys/system.rs:134-145 | panics with the cutoff message exactly when some cell length is less than twice the cutoff, changing nothing; otherwise registers both names in order and appends the potential under the canonical key of their kinds |
| LumolSystem.System.AddBondPotential | lumol-core/src/sys/system.rs:148-152 | registers both names in order and appends the potential under the canonical pair key of their kinds |
| LumolSystem.System.AddAnglePotential | lumol-core/src/sys/system.rs:155-165 | registers the three names in order and appends the potential under the canonical angle key of their kinds |
| LumolSystem.System.AddDihedralPotential | lumol-core/src/sys/system.rs:168-179 | registers the four names in order and appends the potential under the canonical dihedral key of their kinds |
| LumolSystem.System.SetCoulombPotential | lumol-core/src/sys/system.rs:181-192 | panics exactly when the potential has a cutoff exceeding half of some cell length, changing nothing; otherwise replaces the coulombic potential |
| LumolSystem.System.AddGlobalPotential | lumol-core/src/sys/system.rs:195-197 | appends the potential to the global ones |
| LumolSystem.System.PairPotentials | lumol-core/src/sys/system.rs:201-217 | the potentials registered under the canonical key of the two kinds; a warning exactly when there are none, naming the pair smallest name first |
| LumolSystem.System.BondPotentials | lumol-core/src/sys/system.rs:226-242 | the same for bonds |
| LumolSystem.System.AnglePotentials | lumol-core/src/sys/system.rs:246-264 | the same for angles, the warning keeping the middle name and putting the smaller end first |
| LumolSystem.System.DihedralPotentials | lumol-core/src/sys/system.rs:268-302 | the same for dihedral angles, the warning giving the tuple or its reverse by the dihedral rule |
| LumolSystem.PairPotentialsSymmetric | lumol-core/src/sys/system.rs:201-217 | the pair potentials and the warning do not depend on the order of the two particles |
| LumolSystem.BondPotentialsSymmetric | lumol-core/src/sys/system.rs:226-242 | the bond potentials and the warning do not depend on the order of the two particles |
| LumolSystem.AnglePotentialsReversal | lumol-core/src/sys/system.rs:246-264 | an angle and its reverse find the same potentials and the same warning |
| LumolSystem.TiedKindsIffTiedNames | lumol-core/src/sys/system.rs:82-98 | in a valid system the halves of a dihedral angle are tied in kinds exactly when they are tied in names, since names and kinds correspond one to one |
| LumolSystem.DihedralPotentialsReversal | lumol-core/src/sys/system.rs:268-302 | a dihedral angle and its reverse find the same potentials and warning, unless its halves hold the same two kinds |
| LumolSystem.NothingRegisteredNothingFound | lumol-core/src/sys/system.rs:474-485 | in a system without interactions every lookup is empty and gives a warning, without failing |
| LumolSystem.CompositionCountsEachParticleOnce | lumol-core/src/sys/system.rs:101-105 | counting over all registered kinds counts every particle exactly once |
| LumolSystem.RigidMoleculesHaveFewerDegrees | lumol-core/src/sys/system.rs:331-337 | rigid molecules never give more degrees of freedom than free particles |
| LumolSystem.WaterMolecule | lumol-core/src/sys/system.rs:93-98 | an illustration of `add_molecule`: one molecule H, O, H added to an empty system gives the kinds 0, 1, 0 to its particles, in order |
| LumolSystem.WaterPairExample | lumol-core/src/sys/system.rs:201-217 | a pair potential registered for (O, H) is found for the particles H, O in either order; the missing (H, H) pair is empty and warned about as ("H", "H") |

## Left out

- The unit cell is not part of this model. The system keeps only the cell lengths, which is all the cutoff check reads. `read_cell` records which cell constructor it calls, with which numbers.
- `Interactions` is not part of this model. Its registry is modelled as maps from canonical kind tuples to lists. The key rules are assumed to be the ones the lookups use for the warning names, as the source's comment says. The calls `interactions.add_*` (lines 144, 151, 163, 177) become `Interactions.AddPair`, `AddBond`, `AddAngle` and `AddDihedral`. The calls `interactions.pairs` and the others (lines 204, 229, 250, 279) become `Registered` under the key of the particles' kinds. The `Add*ThenLookup` lemmas state what that assumed rule gives.
- `Configuration` is not part of this model. It holds the particles and molecules. The model keeps the particles, with their names and kinds, and the size of each molecule. Bonds, positions, velocities and the merging of molecules through bonds are left out.
- `composition` also counts molecules by their hash. The molecule hash is not part of this model, so only the particle counts are modelled.
- The warnings are global logging. A lookup returns the names it would warn about instead. The "only once" state is left out.
- The physical properties (kinetic, potential and total energy, volume, virial, pressure, stress, forces) are left out. They are floating-point computations in a module that is not part of this model. `temperature` takes the value computed from the velocities as a parameter.
- `read_system`, `read_potentials` and `init_velocities` are left out. They read files and build systems through code that is not part of this model. Only the `guess_bonds` parse from `read_system` is modelled.
- `energy_evaluator`, `interactions`, `coulomb_potential`, `global_potentials`, `maximum_cutoff`, `new` and the `Deref` to the configuration are left out. They are getters or forwarding to code that is not part of this model.
- Potentials are opaque values that carry a name. Only the cutoffs of pair and coulombic potentials take part in what the system checks.
- Floating point is modelled by `real`. There is no NaN, no rounding, and an integer cell or number converts to a real exactly, also beyond 2^53.
- LumolSystem.System.CountDegreesOfFreedom: freezing more degrees than there are is an unsigned underflow in the source. It panics in debug builds and wraps in release builds. The model returns no value.
- Kinds.Register: a kind is a 32-bit integer in the source. The model does not truncate a registry of more than 2^32 names.
- LumolSystem.System.PairPotentials: an index out of range panics in the source. The model requires valid indices, as do the other three lookups.
- LumolSystem.System.AddMolecule: a molecule in the source always holds at least one particle. The model requires that.
- The ordering of names is lexicographic by character. For UTF-8 text this is the byte order Rust uses to compare strings.
