/**
 * The seeding sweep shared by the three lineage builders. Candidates (entity versions) are visited
 * newest first; a candidate whose key is already claimed by some tree is skipped; otherwise a tree
 * is seeded from it and linked, linking claims a set of entity versions, and the tree is kept only
 * when linking succeeds. The builders differ in how a new tree gets its id: FileForest draws one from
 * a counter on every seed, the two list-based forests use the number of trees kept so far.
 */
module Lineage {

  /** How a newly seeded tree gets its id. */
  datatype IdPolicy =
    | EverySeed  // a counter incremented on every seed, kept or not
    | KeptOnly   // the number of trees kept so far

  /** What linking a seeded tree reports: whether it succeeded and which keys it claimed. */
  datatype LinkOutcome<K, V> = LinkOutcome(ok: bool, claims: map<K, V>)

  /** A kept tree: the candidate it was seeded from and its id. */
  datatype Kept<V> = Kept(seed: V, id: nat)

  /** The sweep's state: the claim table, the kept trees in order and the id counter. */
  datatype Sweep<K, V> = Sweep(claimed: map<K, V>, kept: seq<Kept<V>>, nextId: nat)

  /** One candidate of the sweep. */
  function Step<K, V>(
    s: Sweep<K, V>, c: V, key: V -> K, link: (V, map<K, V>) -> LinkOutcome<K, V>, policy: IdPolicy): Sweep<K, V>
  {
    if key(c) in s.claimed then s
    else
      var o := link(c, s.claimed);
      var id := if policy == EverySeed then s.nextId else |s.kept|;
      var next := if policy == EverySeed then s.nextId + 1 else s.nextId;
      Sweep(s.claimed + o.claims, if o.ok then s.kept + [Kept(c, id)] else s.kept, next)
  }

  /** The sweep over the candidates cs, in order. */
  function Run<K, V>(
    s: Sweep<K, V>, cs: seq<V>, key: V -> K, link: (V, map<K, V>) -> LinkOutcome<K, V>, policy: IdPolicy): Sweep<K, V>
  {
    if cs == [] then s
    else Step(Run(s, cs[..|cs| - 1], key, link, policy), cs[|cs| - 1], key, link, policy)
  }

  /** Extending the candidates by one is one more step. */
  lemma RunSnoc<K, V>(
    s: Sweep<K, V>, cs: seq<V>, c: V, key: V -> K, link: (V, map<K, V>) -> LinkOutcome<K, V>, policy: IdPolicy)
    ensures Run(s, cs + [c], key, link, policy) == Step(Run(s, cs, key, link, policy), c, key, link, policy)
  {
    assert (cs + [c])[..|cs|] == cs;
  }

  /** Sweeping a concatenation sweeps the second part from where the first left off. */
  lemma {:induction false} RunAppend<K, V>(
    s: Sweep<K, V>, a: seq<V>, b: seq<V>, key: V -> K, link: (V, map<K, V>) -> LinkOutcome<K, V>, policy: IdPolicy)
    ensures Run(s, a + b, key, link, policy) == Run(Run(s, a, key, link, policy), b, key, link, policy)
    decreases |b|
  {
    if b == [] {
      assert a + b == a;
    } else {
      var n := |b| - 1;
      assert (a + b)[..|a + b| - 1] == a + b[..n];
      assert (a + b)[|a + b| - 1] == b[n];
      RunAppend(s, a, b[..n], key, link, policy);
    }
  }

  /** Claims are never withdrawn, and the trees kept so far are never changed or dropped. */
  lemma {:induction false} RunExtends<K, V>(
    s: Sweep<K, V>, cs: seq<V>, key: V -> K, link: (V, map<K, V>) -> LinkOutcome<K, V>, policy: IdPolicy, i: nat)
    requires i <= |cs|
    ensures Run(s, cs[..i], key, link, policy).claimed.Keys <= Run(s, cs, key, link, policy).claimed.Keys
    ensures Run(s, cs[..i], key, link, policy).kept <= Run(s, cs, key, link, policy).kept
    decreases |cs|
  {
    if i < |cs| {
      var init := cs[..|cs| - 1];
      assert init[..i] == cs[..i];
      RunExtends(s, init, key, link, policy, i);
    } else {
      assert cs[..i] == cs;
    }
  }

  /**
   * Claim before seed: every tree the sweep adds was seeded from a candidate whose key was not yet
   * claimed when the sweep reached it, and whose linking succeeded.
   */
  lemma {:induction false} SeedsWereUnclaimed<K, V>(
    s: Sweep<K, V>, cs: seq<V>, key: V -> K, link: (V, map<K, V>) -> LinkOutcome<K, V>, policy: IdPolicy, j: nat)
    requires |s.kept| <= j < |Run(s, cs, key, link, policy).kept|
    ensures exists i :: (0 <= i < |cs|
      && Run(s, cs, key, link, policy).kept[j].seed == cs[i]
      && key(cs[i]) !in Run(s, cs[..i], key, link, policy).claimed
      && link(cs[i], Run(s, cs[..i], key, link, policy).claimed).ok)
    decreases |cs|
  {
    var n := |cs| - 1;
    var init := cs[..n];
    var before := Run(s, init, key, link, policy);
    if j < |before.kept| {
      SeedsWereUnclaimed(s, init, key, link, policy, j);
      var i :| 0 <= i < |init| && before.kept[j].seed == init[i]
        && key(init[i]) !in Run(s, init[..i], key, link, policy).claimed
        && link(init[i], Run(s, init[..i], key, link, policy).claimed).ok;
      assert init[..i] == cs[..i];
      assert Run(s, cs, key, link, policy).kept[j] == before.kept[j];
    } else {
      assert Run(s, cs, key, link, policy).kept[j].seed == cs[n];
      assert cs[..n] == init;
    }
  }

  /** With ids drawn from the kept count, every kept tree's id is its index among the kept trees. */
  lemma {:induction false} KeptOnlyIdIsIndex<K, V>(
    s: Sweep<K, V>, cs: seq<V>, key: V -> K, link: (V, map<K, V>) -> LinkOutcome<K, V>)
    requires forall j :: 0 <= j < |s.kept| ==> s.kept[j].id == j
    ensures forall j :: 0 <= j < |Run(s, cs, key, link, KeptOnly).kept| ==> Run(s, cs, key, link, KeptOnly).kept[j].id == j
    ensures Run(s, cs, key, link, KeptOnly).nextId == s.nextId
    decreases |cs|
  {
    if cs != [] {
      KeptOnlyIdIsIndex(s, cs[..|cs| - 1], key, link);
    }
  }

  /** The number of candidates the sweep seeded a tree from: those unclaimed when reached. */
  function Seeds<K, V>(
    s: Sweep<K, V>, cs: seq<V>, key: V -> K, link: (V, map<K, V>) -> LinkOutcome<K, V>, policy: IdPolicy): nat
  {
    if cs == [] then 0
    else
      var init := cs[..|cs| - 1];
      Seeds(s, init, key, link, policy)
        + (if key(cs[|cs| - 1]) in Run(s, init, key, link, policy).claimed then 0 else 1)
  }

  predicate IdsIncreasingBelow<V>(kept: seq<Kept<V>>, bound: nat) {
    && (forall a, b :: 0 <= a < b < |kept| ==> kept[a].id < kept[b].id)
    && (forall a :: 0 <= a < |kept| ==> kept[a].id < bound)
  }

  /**
   * With ids drawn from a counter on every seed, the counter advances by the number of seeds, the
   * kept trees' ids are strictly increasing (so distinct) and below the counter, and the sweep keeps
   * no more trees than it seeded.
   */
  lemma {:induction false} EverySeedIdsIncrease<K, V>(
    s: Sweep<K, V>, cs: seq<V>, key: V -> K, link: (V, map<K, V>) -> LinkOutcome<K, V>)
    requires IdsIncreasingBelow(s.kept, s.nextId)
    ensures IdsIncreasingBelow(Run(s, cs, key, link, EverySeed).kept, Run(s, cs, key, link, EverySeed).nextId)
    ensures Run(s, cs, key, link, EverySeed).nextId == s.nextId + Seeds(s, cs, key, link, EverySeed)
    ensures |Run(s, cs, key, link, EverySeed).kept| <= |s.kept| + Seeds(s, cs, key, link, EverySeed)
    decreases |cs|
  {
    if cs != [] {
      EverySeedIdsIncrease(s, cs[..|cs| - 1], key, link);
    }
  }

  /**
   * If linking always claims the seed itself, no two kept trees share a seed key, and no kept tree
   * was seeded from a key claimed before the sweep started.
   */
  lemma {:induction false} SeedsDistinct<K, V>(
    s: Sweep<K, V>, cs: seq<V>, key: V -> K, link: (V, map<K, V>) -> LinkOutcome<K, V>, policy: IdPolicy)
    requires forall c, m :: key(c) in link(c, m).claims
    requires s.kept == []
    ensures forall a, b :: 0 <= a < b < |Run(s, cs, key, link, policy).kept| ==>
      key(Run(s, cs, key, link, policy).kept[a].seed) != key(Run(s, cs, key, link, policy).kept[b].seed)
    ensures forall a :: 0 <= a < |Run(s, cs, key, link, policy).kept| ==>
      key(Run(s, cs, key, link, policy).kept[a].seed) in Run(s, cs, key, link, policy).claimed
      && key(Run(s, cs, key, link, policy).kept[a].seed) !in s.claimed
    decreases |cs|
  {
    if cs != [] {
      var init := cs[..|cs| - 1];
      var c := cs[|cs| - 1];
      var before := Run(s, init, key, link, policy);
      SeedsDistinct(s, init, key, link, policy);
      if key(c) !in before.claimed {
        var after := Run(s, cs, key, link, policy);
        var o := link(c, before.claimed);
        assert key(c) in o.claims;
        assert after.claimed == before.claimed + o.claims;
        if o.ok {
          assert after.kept == before.kept + [Kept(c, after.kept[|after.kept| - 1].id)];
          forall a | 0 <= a < |after.kept| - 1
            ensures key(after.kept[a].seed) != key(c)
          {
            assert after.kept[a] == before.kept[a];
          }
          SeedIsUnclaimedBefore(s, init, key, link, policy);
        }
      }
    }
  }

  /** Every key claimed before the sweep stays claimed. */
  lemma {:induction false} SeedIsUnclaimedBefore<K, V>(
    s: Sweep<K, V>, cs: seq<V>, key: V -> K, link: (V, map<K, V>) -> LinkOutcome<K, V>, policy: IdPolicy)
    ensures s.claimed.Keys <= Run(s, cs, key, link, policy).claimed.Keys
  {
    RunExtends(s, cs, key, link, policy, 0);
    assert cs[..0] == [];
  }

  /** The kept trees as a table from id to seed, as a map keyed by tree id records them. */
  function SeedTable<V>(kept: seq<Kept<V>>): map<int, V> {
    if kept == [] then map[]
    else SeedTable(kept[..|kept| - 1])[kept[|kept| - 1].id := kept[|kept| - 1].seed]
  }

  lemma SeedTableSnoc<V>(kept: seq<Kept<V>>, k: Kept<V>)
    ensures SeedTable(kept + [k]) == SeedTable(kept)[k.id := k.seed]
  {
    assert (kept + [k])[..|kept|] == kept;
  }

  /** With distinct increasing ids the table loses no tree: it holds exactly the kept ids, each with its seed. */
  lemma {:induction false} SeedTableOfIncreasing<V>(kept: seq<Kept<V>>, bound: nat)
    requires IdsIncreasingBelow(kept, bound)
    ensures forall j :: 0 <= j < |kept| ==> kept[j].id in SeedTable(kept) && SeedTable(kept)[kept[j].id] == kept[j].seed
    ensures forall id :: id in SeedTable(kept) ==> exists j :: 0 <= j < |kept| && kept[j].id == id
    ensures |SeedTable(kept)| == |kept|
  {
    if kept != [] {
      var n := |kept| - 1;
      var init := kept[..n];
      assert IdsIncreasingBelow(init, bound);
      SeedTableOfIncreasing(init, bound);
      var t := SeedTable(init);
      assert forall j :: 0 <= j < |init| ==> init[j].id != kept[n].id;
      assert kept[n].id !in t;
      forall j | 0 <= j < |kept|
        ensures kept[j].id in SeedTable(kept) && SeedTable(kept)[kept[j].id] == kept[j].seed
      {
        if j < n {
          assert init[j] == kept[j];
          assert kept[j].id < kept[n].id;
        }
      }
      forall id | id in SeedTable(kept)
        ensures exists j :: 0 <= j < |kept| && kept[j].id == id
      {
        if id != kept[n].id {
          assert id in t;
          var j :| 0 <= j < |init| && init[j].id == id;
          assert kept[j].id == id;
        }
      }
    }
  }

  function Identity(x: int): int {
    x
  }

  /** A linker that claims the seed and succeeds exactly on the seed b. */
  function SucceedsOn(b: int): (int, map<int, int>) -> LinkOutcome<int, int> {
    (c: int, m: map<int, int>) => LinkOutcome(c == b, map[c := c])
  }

  /**
   * Ids drawn on every seed leave gaps: when the first of two fresh seeds fails to link and the
   * second succeeds, the one kept tree has id 1, not 0.
   */
  lemma EverySeedLeavesGaps(a: int, b: int)
    requires a != b
    ensures Run(Sweep(map[], [], 0), [a, b], Identity, SucceedsOn(b), EverySeed).kept == [Kept(b, 1)]
  {
    var s0: Sweep<int, int> := Sweep(map[], [], 0);
    assert [a, b][..1] == [a];
    assert [a][..0] == [];
    assert map[] + map[a := a] == map[a := a];
    assert Run(s0, [a], Identity, SucceedsOn(b), EverySeed) == Sweep(map[a := a], [], 1);
  }

  /** With ids drawn from the kept count, the same two seeds leave the kept tree with id 0: the failed seed's id is reused. */
  lemma KeptOnlyReusesRejectedId(a: int, b: int)
    requires a != b
    ensures Run(Sweep(map[], [], 0), [a, b], Identity, SucceedsOn(b), KeptOnly).kept == [Kept(b, 0)]
  {
    var s0: Sweep<int, int> := Sweep(map[], [], 0);
    assert [a, b][..1] == [a];
    assert [a][..0] == [];
    assert map[] + map[a := a] == map[a := a];
    assert Run(s0, [a], Identity, SucceedsOn(b), KeptOnly) == Sweep(map[a := a], [], 0);
  }
}
