/**
 * Entity locations: the identity of every entity version. A file version is addressed by its
 * revision position and its index in that revision; nested entities extend the address of their
 * container. Locations are ordered by revision position first, so iterating a location-keyed
 * table from the greatest key down visits the newest versions first.
 */
module Locations {

  datatype FileLocation = FileLocation(revIdx: nat, fileIdx: nat)

  datatype DeclLocation = DeclLocation(fileLoc: FileLocation, idx: nat)

  datatype MethodLocation = MethodLocation(declLoc: DeclLocation, idx: nat)

  datatype FieldLocation = FieldLocation(declLoc: DeclLocation, idx: nat)

  /** The order of the location-keyed tables: by revision position, then by file index. */
  predicate Before(a: FileLocation, b: FileLocation) {
    a.revIdx < b.revIdx || (a.revIdx == b.revIdx && a.fileIdx < b.fileIdx)
  }

  predicate StrictlyDescending(s: seq<FileLocation>) {
    forall i, j :: 0 <= i < j < |s| ==> Before(s[j], s[i])
  }

  predicate IsGreatest(m: FileLocation, keys: set<FileLocation>) {
    m in keys && forall k :: k in keys && k != m ==> Before(k, m)
  }

  lemma {:induction false} GreatestExists(keys: set<FileLocation>)
    requires keys != {}
    ensures exists m :: IsGreatest(m, keys)
    decreases |keys|
  {
    var x :| x in keys;
    if keys == {x} {
      assert IsGreatest(x, keys);
    } else {
      GreatestExists(keys - {x});
      var m :| IsGreatest(m, keys - {x});
      if Before(x, m) {
        assert IsGreatest(m, keys);
      } else {
        assert x != m && Before(m, x);
        forall k | k in keys && k != x
          ensures Before(k, x)
        {
          assert k in keys - {x};
        }
        assert IsGreatest(x, keys);
      }
    }
  }

  /**
   * The keys of a location-keyed table in the order its descending view iterates them: every key
   * exactly once, newest first.
   */
  function Descending(keys: set<FileLocation>): (s: seq<FileLocation>)
    ensures StrictlyDescending(s)
    ensures forall x :: x in s <==> x in keys
    ensures |s| == |keys|
    decreases |keys|
  {
    if keys == {} then []
    else
      GreatestExists(keys);
      var m :| IsGreatest(m, keys);
      [m] + Descending(keys - {m})
  }

  /** A strictly descending enumeration of a set is unique: the descending view has one order only. */
  lemma {:induction false} DescendingUnique(s: seq<FileLocation>, t: seq<FileLocation>)
    requires StrictlyDescending(s) && StrictlyDescending(t)
    requires forall x :: x in s <==> x in t
    ensures s == t
    decreases |s|
  {
    if s != [] {
      assert s[0] in s;
    }
    if t != [] {
      assert t[0] in t;
    }
    if s != [] {
      var i :| 0 <= i < |t| && t[i] == s[0];
      var j :| 0 <= j < |s| && s[j] == t[0];
      var s0, t0 := s[0], t[0];
      assert i > 0 ==> Before(s0, t0);
      assert j > 0 ==> Before(t0, s0);
      assert s0 == t0;
      forall x
        ensures x in s[1..] <==> x in t[1..]
      {
        if x in s[1..] {
          var a :| 1 <= a < |s| && s[a] == x;
          assert Before(s[a], s[0]);
          assert x in s && x in t;
          var k :| 0 <= k < |t| && t[k] == x;
          assert k != 0;
          assert t[1..][k - 1] == x;
        }
        if x in t[1..] {
          var a :| 1 <= a < |t| && t[a] == x;
          assert Before(t[a], t[0]);
          assert x in t && x in s;
          var k :| 0 <= k < |s| && s[k] == x;
          assert k != 0;
          assert s[1..][k - 1] == x;
        }
      }
      DescendingUnique(s[1..], t[1..]);
    }
  }
}
