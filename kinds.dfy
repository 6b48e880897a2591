/** The particle-kind registry, as values: which kind each particle name gets, and how many
    particles a sequence of kinds holds of each kind. */
module Kinds {

  /** Particle names to particle kinds. */
  type KindMap = map<string, nat>

  /** The kinds handed out so far are exactly 0, 1, ..., |kinds| - 1, one name each. */
  ghost predicate Dense(kinds: KindMap) {
    && (forall name | name in kinds :: kinds[name] < |kinds|)
    && (forall a, b | a in kinds && b in kinds && kinds[a] == kinds[b] :: a == b)
    && (forall k: nat | k < |kinds| :: k in kinds.Values)
  }

  /** Every name of `kinds` keeps its kind in `kinds'`. */
  ghost predicate Extends(kinds: KindMap, kinds': KindMap) {
    forall name | name in kinds :: name in kinds' && kinds'[name] == kinds[name]
  }

  /** `get_kind` on the registry `kinds`: the kind of `name`, handing out the next free kind
      to a name seen for the first time. Returns the new registry and the kind. */
  function Register(kinds: KindMap, name: string): (r: (KindMap, nat))
    ensures name in r.0 && r.0[name] == r.1
    ensures name in kinds ==> r.0 == kinds
    ensures name !in kinds ==> r.1 == |kinds| && r.0 == kinds[name := |kinds|]
    ensures Extends(kinds, r.0)
  {
    if name in kinds then (kinds, kinds[name]) else (kinds[name := |kinds|], |kinds|)
  }

  /** Handing out a kind keeps the registry dense: a new name gets the one kind that was
      still free, and the count of names grows by one. */
  lemma RegisterKeepsDense(kinds: KindMap, name: string)
    requires Dense(kinds)
    ensures Dense(Register(kinds, name).0)
    ensures |Register(kinds, name).0| == if name in kinds then |kinds| else |kinds| + 1
  {
    if name !in kinds {
      var kinds' := kinds[name := |kinds|];
      assert |kinds'| == |kinds| + 1;
      forall k: nat | k < |kinds'| ensures k in kinds'.Values {
        if k < |kinds| {
          assert k in kinds.Values;
          var other :| other in kinds && kinds[other] == k;
          assert kinds'[other] == k;
        } else {
          assert kinds'[name] == k;
        }
      }
    }
  }

  /** The kinds given, one after the other, to the particle names of `names`: the registry
      afterwards and the kind of each particle. */
  function AssignKinds(kinds: KindMap, names: seq<string>): (r: (KindMap, seq<nat>))
    ensures |r.1| == |names|
    ensures Extends(kinds, r.0)
    ensures forall n :: n in r.0 <==> n in kinds || n in names
    ensures forall i | 0 <= i < |names| :: names[i] in r.0 && r.1[i] == r.0[names[i]]
    decreases |names|
  {
    if names == [] then (kinds, [])
    else
      var last := |names| - 1;
      var before := AssignKinds(kinds, names[..last]);
      var registered := Register(before.0, names[last]);
      assert names == names[..last] + [names[last]];
      (registered.0, before.1 + [registered.1])
  }

  /** Assigning kinds to one more name registers that name after the others. */
  lemma AssignKindsStep(kinds: KindMap, names: seq<string>, i: nat)
    requires i < |names|
    ensures AssignKinds(kinds, names[..i + 1]).0 == Register(AssignKinds(kinds, names[..i]).0, names[i]).0
    ensures AssignKinds(kinds, names[..i + 1]).1
         == AssignKinds(kinds, names[..i]).1 + [Register(AssignKinds(kinds, names[..i]).0, names[i]).1]
  {
    assert names[..i + 1][..i] == names[..i];
  }

  /** Adding particles keeps the registry dense. */
  lemma {:induction false} AssignKindsKeepsDense(kinds: KindMap, names: seq<string>)
    requires Dense(kinds)
    ensures Dense(AssignKinds(kinds, names).0)
    decreases |names|
  {
    if names != [] {
      var last := |names| - 1;
      AssignKindsKeepsDense(kinds, names[..last]);
      RegisterKeepsDense(AssignKinds(kinds, names[..last]).0, names[last]);
    }
  }

  /** Names already registered keep the registry as it is, and get their registered kinds. */
  lemma {:induction false} AssignKnownNames(kinds: KindMap, names: seq<string>)
    requires forall i | 0 <= i < |names| :: names[i] in kinds
    ensures AssignKinds(kinds, names).0 == kinds
    ensures forall i | 0 <= i < |names| :: AssignKinds(kinds, names).1[i] == kinds[names[i]]
    decreases |names|
  {
    if names != [] {
      AssignKnownNames(kinds, names[..|names| - 1]);
    }
  }

  /** Two particles with the same name get the same kind. */
  lemma SameNameSameKind(kinds: KindMap, names: seq<string>, i: nat, j: nat)
    requires i < |names| && j < |names| && names[i] == names[j]
    ensures AssignKinds(kinds, names).1[i] == AssignKinds(kinds, names).1[j]
  {
  }

  /** Particles of different names get different kinds, as long as the registry is dense. */
  lemma DifferentNamesDifferentKinds(kinds: KindMap, names: seq<string>, i: nat, j: nat)
    requires Dense(kinds)
    requires i < |names| && j < |names| && names[i] != names[j]
    ensures AssignKinds(kinds, names).1[i] != AssignKinds(kinds, names).1[j]
  {
    AssignKindsKeepsDense(kinds, names);
  }

  /** H, O, H added to an empty registry get kinds 0, 1, 0. */
  lemma WaterKinds()
    ensures AssignKinds(map[], ["H", "O", "H"]) == (map["H" := 0, "O" := 1], [0, 1, 0])
  {
    var empty: KindMap := map[];
    var names := ["H", "O", "H"];
    assert names[..1][..0] == [] && names[..2][..1] == names[..1] && names[..3] == names;
    var none := AssignKinds(empty, names[..1][..0]);
    assert none == (empty, []);
    var first := AssignKinds(empty, names[..1]);
    assert first == (Register(empty, "H").0, [] + [Register(empty, "H").1]);
    assert Register(empty, "H") == (map["H" := 0], 0);
    var noKinds: seq<nat> := [];
    assert noKinds + [0] == [0];
    assert first == (map["H" := 0], [0]);
    var second := AssignKinds(empty, names[..2]);
    assert second == (Register(first.0, "O").0, first.1 + [Register(first.0, "O").1]);
    assert |first.0| == 1;
    assert Register(first.0, "O") == (map["H" := 0, "O" := 1], 1);
    assert [0] + [1] == [0, 1];
    assert second == (map["H" := 0, "O" := 1], [0, 1]);
    assert Register(second.0, "H") == (second.0, 0);
    assert [0, 1] + [0] == [0, 1, 0];
    assert AssignKinds(empty, names) == (second.0, second.1 + [0]);
  }

  /** The number of times `kind` occurs in `kinds`. */
  function Occurrences(kinds: seq<nat>, kind: nat): nat
    decreases |kinds|
  {
    if kinds == [] then 0
    else Occurrences(kinds[..|kinds| - 1], kind) + (if kinds[|kinds| - 1] == kind then 1 else 0)
  }

  /** The number of entries of `kinds` whose kind is below `n`, counted kind by kind. */
  function OccurrencesBelow(kinds: seq<nat>, n: nat): nat {
    if n == 0 then 0 else OccurrencesBelow(kinds, n - 1) + Occurrences(kinds, n - 1)
  }

  lemma {:induction false} OccurrencesBelowAppend(kinds: seq<nat>, x: nat, n: nat)
    ensures OccurrencesBelow(kinds + [x], n) == OccurrencesBelow(kinds, n) + (if x < n then 1 else 0)
  {
    assert (kinds + [x])[..|kinds|] == kinds;
    if n > 0 {
      OccurrencesBelowAppend(kinds, x, n - 1);
    }
  }

  /** Counting kind by kind over all the kinds in use counts every entry exactly once. */
  lemma {:induction false} OccurrencesBelowAll(kinds: seq<nat>, n: nat)
    requires forall i | 0 <= i < |kinds| :: kinds[i] < n
    ensures OccurrencesBelow(kinds, n) == |kinds|
    decreases |kinds|
  {
    if kinds == [] {
      OccurrencesBelowEmpty(n);
    } else {
      var last := |kinds| - 1;
      OccurrencesBelowAll(kinds[..last], n);
      OccurrencesBelowAppend(kinds[..last], kinds[last], n);
      assert kinds[..last] + [kinds[last]] == kinds;
    }
  }

  lemma {:induction false} OccurrencesBelowEmpty(n: nat)
    ensures OccurrencesBelow([], n) == 0
  {
    if n > 0 {
      OccurrencesBelowEmpty(n - 1);
    }
  }
}
