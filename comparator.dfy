/**
 * Environment equality as `EnvComparator.Compare` is exercised by
 * agent/pkg/util/comparator/comparator_test.go. The comparator's own body
 * is not part of this model, so `Compare` is a specification: the scalar
 * fields that identify a logical state must agree, and the activity
 * lists must hold the same activities regardless of order, where two
 * activities are the same when they agree on name, status and the sets
 * of target and live images.
 */
module Comparator {
  import opened Wrappers
  import opened Codefresh

  /** The scalar fields that identify one logical state of an environment. */
  predicate SameScalars(a: Environment, b: Environment)
  {
    && a.name == b.name
    && a.healthStatus == b.healthStatus
    && a.syncStatus == b.syncStatus
    && a.historyId == b.historyId
    && a.syncRevision == b.syncRevision
    && a.repoUrl == b.repoUrl
    && a.finishedAt == b.finishedAt
  }

  /** What identifies an activity for equality; replica counts play no part. */
  datatype ActivityKey = ActivityKey(
    name: string, status: string, targetImages: set<string>, liveImages: set<string>)

  function Key(a: EnvironmentActivity): ActivityKey
  {
    ActivityKey(a.name, a.status, set x | x in a.targetImages, set x | x in a.liveImages)
  }

  function Keys(s: seq<EnvironmentActivity>): seq<ActivityKey>
  {
    seq(|s|, k requires 0 <= k < |s| => Key(s[k]))
  }

  /** Equal scalars, and activity lists with the same keys up to reordering. */
  predicate Compare(a: Environment, b: Environment)
  {
    SameScalars(a, b) && multiset(Keys(a.activities)) == multiset(Keys(b.activities))
  }

  lemma KeysAppend(s: seq<EnvironmentActivity>, t: seq<EnvironmentActivity>)
    ensures Keys(s + t) == Keys(s) + Keys(t)
  {
  }

  /** Lists that are permutations of each other have permuted keys. */
  lemma {:induction false} KeysPermutation(s: seq<EnvironmentActivity>, t: seq<EnvironmentActivity>)
    requires multiset(s) == multiset(t)
    ensures multiset(Keys(s)) == multiset(Keys(t))
    decreases |s|
  {
    if s == [] {
      assert |t| == |multiset(t)| == 0;
    } else {
      var x := s[0];
      assert x in multiset(t);
      var j :| 0 <= j < |t| && t[j] == x;
      var rest := t[..j] + t[j + 1..];
      assert t == t[..j] + [x] + t[j + 1..];
      assert s == [x] + s[1..];
      assert multiset(t) == multiset(t[..j]) + multiset{x} + multiset(t[j + 1..]) by {
        assert t == (t[..j] + [x]) + t[j + 1..];
      }
      assert multiset(s) == multiset{x} + multiset(s[1..]);
      assert multiset(rest) == multiset(t[..j]) + multiset(t[j + 1..]);
      calc {
        multiset(s[1..]);
        multiset(s) - multiset{x};
        multiset(t) - multiset{x};
        multiset(rest);
      }
      KeysPermutation(s[1..], rest);
      KeysAppend([x], s[1..]);
      KeysAppend(t[..j] + [x], t[j + 1..]);
      KeysAppend(t[..j], [x]);
      KeysAppend(t[..j], t[j + 1..]);
    }
  }

  /** `s` with the elements at positions `i` and `j` exchanged. */
  function Swap<T>(s: seq<T>, i: nat, j: nat): seq<T>
    requires i < |s| && j < |s|
  {
    s[i := s[j]][j := s[i]]
  }

  /** A value compares equal to itself (first test). */
  lemma CompareReflexive(a: Environment)
    ensures Compare(a, a)
  {
  }

  /** Exchanging two activities does not change the verdict (second test). */
  lemma SwappedActivitiesEqual(e: Environment, i: nat, j: nat)
    requires i < |e.activities| && j < |e.activities|
    ensures Compare(e, e.(activities := Swap(e.activities, i, j)))
  {
    KeysPermutation(e.activities, Swap(e.activities, i, j));
  }

  /** Any reordering of the activities keeps the environments equal. */
  lemma ReorderedActivitiesEqual(e: Environment, acts: seq<EnvironmentActivity>)
    requires multiset(acts) == multiset(e.activities)
    ensures Compare(e, e.(activities := acts))
  {
    KeysPermutation(e.activities, acts);
  }

  /** Activity lists of different sizes are never equal (third test). */
  lemma DifferentSizeUnequal(a: Environment, b: Environment)
    requires |a.activities| != |b.activities|
    ensures !Compare(a, b)
  {
    assert |multiset(Keys(a.activities))| == |a.activities|;
    assert |multiset(Keys(b.activities))| == |b.activities|;
  }

  /**
   * Replacing one activity by one with a different key (another name,
   * status or image set) makes the environments unequal.
   */
  lemma {:induction false} ChangedActivityUnequal(e: Environment, i: nat, x: EnvironmentActivity)
    requires i < |e.activities| && Key(e.activities[i]) != Key(x)
    ensures !Compare(e, e.(activities := e.activities[i := x]))
  {
    var s := e.activities;
    assert Keys(s[i := x]) == Keys(s)[i := Key(x)];
    var ks := Keys(s);
    assert multiset(ks[i := Key(x)]) == multiset(ks) - multiset{ks[i]} + multiset{Key(x)};
    assert multiset(ks[i := Key(x)])[Key(x)] == multiset(ks)[Key(x)] + 1;
  }

  /**
   * Replacing one activity by one with the same key (other replica
   * counts, images in another order or repeated) keeps them equal.
   */
  lemma ActivityDetailsIgnored(e: Environment, i: nat, x: EnvironmentActivity)
    requires i < |e.activities| && Key(e.activities[i]) == Key(x)
    ensures Compare(e, e.(activities := e.activities[i := x]))
  {
    assert Keys(e.activities[i := x]) == Keys(e.activities);
  }

  /** A different history id makes the environments unequal (fourth test). */
  lemma DifferentHistoryIdUnequal(a: Environment, b: Environment)
    requires a.historyId != b.historyId
    ensures !Compare(a, b)
  {
  }

  // The fixtures of the four tests: every scalar field is the same except
  // the history id, and the activity lists vary.

  function Fixture(historyId: Int64, activities: seq<EnvironmentActivity>): Environment
  {
    Environment(
      finishedAt := "",
      healthStatus := "HEALTH",
      syncStatus := "OUT_OF_SYNC",
      historyId := historyId,
      syncRevision := "123",
      name := "Test",
      activities := activities,
      repoUrl := "https://google.com",
      commit := Commit(None, None),
      syncPolicy := SyncPolicy(false),
      date := "")
  }

  function FixtureActivity(name: string, status: string): EnvironmentActivity
  {
    var zero := ReplicaState(0, 0);
    EnvironmentActivity(name, [], status, [], EnvironmentActivityRS(zero, zero))
  }

  lemma SameEnvTest()
    ensures Compare(Fixture(12, []), Fixture(12, []))
  {
    CompareReflexive(Fixture(12, []));
  }

  lemma SameEnvAndActivitiesTest()
    ensures var act1, act2 := FixtureActivity("test", "test"), FixtureActivity("test2", "test2");
      Compare(Fixture(12, [act1, act2]), Fixture(12, [act2, act1]))
  {
    var act1, act2 := FixtureActivity("test", "test"), FixtureActivity("test2", "test2");
    SwappedActivitiesEqual(Fixture(12, [act1, act2]), 0, 1);
    assert Swap([act1, act2], 0, 1) == [act2, act1];
  }

  lemma SameEnvAndDifferentActivitiesTest()
    ensures var act1, act2 := FixtureActivity("test", "test"), FixtureActivity("test", "test4");
      !Compare(Fixture(12, [act1, act2]), Fixture(12, [act1]))
  {
    var act1, act2 := FixtureActivity("test", "test"), FixtureActivity("test", "test4");
    DifferentSizeUnequal(Fixture(12, [act1, act2]), Fixture(12, [act1]));
  }

  lemma DiffEnvTest()
    ensures !Compare(Fixture(123, []), Fixture(12, []))
  {
    DifferentHistoryIdUnequal(Fixture(123, []), Fixture(12, []));
  }
}
