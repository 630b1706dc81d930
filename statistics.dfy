/**
 * `countTreesByUser` of src/pages/Statistics.tsx: the trees are folded into
 * an object counting registrations per `createdBy`, and the object's entries
 * become the statistics list.
 */
module Statistics {
  import opened TreeModel

  /** One row of the statistics screen. */
  datatype UserStat = UserStat(user: string, treesRegistered: nat)

  /**
   * The `Record<string, number>` the fold builds: its keys in insertion order
   * (`users`) and the count stored under each key.
   */
  datatype Tally = Tally(users: seq<string>, counts: map<string, nat>)

  /** Keys are listed once each, exactly the keys of the map, and every stored count is positive. */
  ghost predicate WellFormed(t: Tally) {
    && (forall i, j :: 0 <= i < j < |t.users| ==> t.users[i] != t.users[j])
    && (set u | u in t.users) == t.counts.Keys
    && (forall u :: u in t.counts ==> t.counts[u] >= 1)
  }

  /** The distinct `createdBy` values of a tree list. */
  ghost function Creators(trees: seq<Tree>): set<string> {
    set t | t in trees :: t.fields.createdBy
  }

  /** The number of trees whose `createdBy` is `user`: the independent definition of a count. */
  function Count(trees: seq<Tree>, user: string): nat {
    if trees == [] then 0
    else Count(trees[..|trees| - 1], user) + (if trees[|trees| - 1].fields.createdBy == user then 1 else 0)
  }

  /** One step of the fold: `acc[user] = (acc[user] || 0) + 1`, a new key going to the end. */
  function Add(t: Tally, user: string): Tally {
    Tally(if user in t.counts then t.users else t.users + [user],
          t.counts[user := (if user in t.counts then t.counts[user] else 0) + 1])
  }

  /** The object the `reduce` over `trees` returns, starting from `{}`. */
  function TallyOf(trees: seq<Tree>): (t: Tally)
    ensures WellFormed(t)
    ensures t.counts.Keys == Creators(trees)
  {
    if trees == [] then Tally([], map[])
    else
      var init := trees[..|trees| - 1];
      var last := trees[|trees| - 1];
      assert Creators(trees) == Creators(init) + {last.fields.createdBy} by {
        assert forall t :: t in trees <==> t in init || t == last;
      }
      Add(TallyOf(init), last.fields.createdBy)
  }

  /** Each stored count is the number of trees registered by that user. */
  lemma {:induction false} TallyCounts(trees: seq<Tree>)
    ensures forall u :: u in TallyOf(trees).counts ==> TallyOf(trees).counts[u] == Count(trees, u)
  {
    if trees != [] {
      TallyCounts(trees[..|trees| - 1]);
      var init := trees[..|trees| - 1];
      forall u | u in TallyOf(trees).counts ensures TallyOf(trees).counts[u] == Count(trees, u) {
        if u !in TallyOf(init).counts {
          CountOfStranger(init, u);
        }
      }
    }
  }

  /** A user who registered no tree has count zero. */
  lemma {:induction false} CountOfStranger(trees: seq<Tree>, user: string)
    requires user !in Creators(trees)
    ensures Count(trees, user) == 0
  {
    if trees != [] {
      var init := trees[..|trees| - 1];
      assert Creators(init) <= Creators(trees) by {
        assert forall t :: t in init ==> t in trees;
      }
      CountOfStranger(init, user);
      assert trees[|trees| - 1] in trees;
    }
  }

  /** The sum of the counts stored under `users`. */
  function SumOf(users: seq<string>, counts: map<string, nat>): nat
    requires forall u :: u in users ==> u in counts
  {
    if users == [] then 0
    else SumOf(users[..|users| - 1], counts) + counts[users[|users| - 1]]
  }

  /** Changing the count of a key that is not listed does not change the sum. */
  lemma {:induction false} SumOfUnlisted(users: seq<string>, counts: map<string, nat>, u: string, c: nat)
    requires forall v :: v in users ==> v in counts
    requires u !in users
    ensures SumOf(users, counts[u := c]) == SumOf(users, counts)
  {
    if users != [] {
      SumOfUnlisted(users[..|users| - 1], counts, u, c);
    }
  }

  /** Changing the count of a key listed once changes the sum by the difference. */
  lemma {:induction false} SumOfListed(users: seq<string>, counts: map<string, nat>, u: string, c: nat)
    requires forall v :: v in users ==> v in counts
    requires forall i, j :: 0 <= i < j < |users| ==> users[i] != users[j]
    requires u in users
    ensures SumOf(users, counts[u := c]) + counts[u] == SumOf(users, counts) + c
  {
    var init := users[..|users| - 1];
    if users[|users| - 1] == u {
      assert u !in init;
      SumOfUnlisted(init, counts, u, c);
    } else {
      assert u in init;
      SumOfListed(init, counts, u, c);
    }
  }

  /** The counts add up to the number of trees. */
  lemma {:induction false} TallySum(trees: seq<Tree>)
    ensures SumOf(TallyOf(trees).users, TallyOf(trees).counts) == |trees|
  {
    if trees != [] {
      var init := trees[..|trees| - 1];
      var u := trees[|trees| - 1].fields.createdBy;
      var t := TallyOf(init);
      TallySum(init);
      if u in t.counts {
        SumOfListed(t.users, t.counts, u, t.counts[u] + 1);
      } else {
        SumOfUnlisted(t.users, t.counts, u, 1);
        assert (t.users + [u])[..|t.users|] == t.users;
      }
    }
  }

  /** The result depends on the trees' `createdBy` fields only. */
  lemma {:induction false} TallyOnlyReadsCreatedBy(a: seq<Tree>, b: seq<Tree>)
    requires |a| == |b|
    requires forall i :: 0 <= i < |a| ==> a[i].fields.createdBy == b[i].fields.createdBy
    ensures TallyOf(a) == TallyOf(b)
  {
    if a != [] {
      TallyOnlyReadsCreatedBy(a[..|a| - 1], b[..|b| - 1]);
    }
  }

  /** The rows listed for the keys `users`, each with its stored count. */
  function Rows(users: seq<string>, counts: map<string, nat>): (r: seq<UserStat>)
    requires forall u :: u in users ==> u in counts
    ensures |r| == |users|
    ensures forall i :: 0 <= i < |r| ==> r[i].user == users[i] && r[i].treesRegistered == counts[users[i]]
  {
    seq(|users|, i requires 0 <= i < |users| => UserStat(users[i], counts[users[i]]))
  }

  /** The total of the reported counts. */
  function Total(stats: seq<UserStat>): nat {
    if stats == [] then 0 else Total(stats[..|stats| - 1]) + stats[|stats| - 1].treesRegistered
  }

  lemma {:induction false} TotalOfRows(users: seq<string>, counts: map<string, nat>)
    requires forall u :: u in users ==> u in counts
    ensures Total(Rows(users, counts)) == SumOf(users, counts)
    decreases |users|
  {
    if users != [] {
      var init := users[..|users| - 1];
      TotalOfRows(init, counts);
      assert Rows(users, counts)[..|users| - 1] == Rows(init, counts);
    }
  }

  /** The listed entries name each key of the object once. */
  lemma StatsUsers(t: Tally)
    requires WellFormed(t)
    ensures var r := Rows(t.users, t.counts);
      (forall i, j :: 0 <= i < j < |r| ==> r[i].user != r[j].user) &&
      (set s | s in r :: s.user) == t.counts.Keys
  {
    var r := Rows(t.users, t.counts);
    forall u | u in t.users ensures u in (set s | s in r :: s.user) {
      var i :| 0 <= i < |t.users| && t.users[i] == u;
      assert r[i] in r;
    }
    assert (set s | s in r :: s.user) == (set u | u in t.users);
  }

  /**
   * `Object.entries(userCounts).map(([user, treesRegistered]) => ({ user, treesRegistered }))`:
   * one row per key of the object, naming each key once with the count stored
   * under it, the rows adding up to the stored counts.
   */
  function StatsOf(t: Tally): (r: seq<UserStat>)
    requires WellFormed(t)
    ensures |r| == |t.users|
    ensures forall i :: 0 <= i < |r| ==> r[i].user in t.counts && r[i].treesRegistered == t.counts[r[i].user]
    ensures forall i, j :: 0 <= i < j < |r| ==> r[i].user != r[j].user
    ensures (set s | s in r :: s.user) == t.counts.Keys
    ensures Total(r) == SumOf(t.users, t.counts)
  {
    StatsUsers(t);
    TotalOfRows(t.users, t.counts);
    Rows(t.users, t.counts)
  }

  /** A list without repetitions has as many distinct elements as entries. */
  lemma {:induction false} DistinctCardinality(users: seq<string>)
    requires forall i, j :: 0 <= i < j < |users| ==> users[i] != users[j]
    ensures |set u | u in users| == |users|
  {
    if users != [] {
      var init := users[..|users| - 1];
      DistinctCardinality(init);
      assert (set u | u in users) == (set u | u in init) + {users[|users| - 1]};
    }
  }

  /**
   * What the statistics screen lists: one row per distinct `createdBy`, each
   * with the number of trees that user registered (at least one), the rows
   * adding up to the number of trees. The row order is not stated.
   */
  function UserStatistics(trees: seq<Tree>): (r: seq<UserStat>)
    ensures forall i :: 0 <= i < |r| ==> r[i].treesRegistered == Count(trees, r[i].user)
    ensures forall i :: 0 <= i < |r| ==> r[i].treesRegistered >= 1
    ensures forall i, j :: 0 <= i < j < |r| ==> r[i].user != r[j].user
    ensures (set s | s in r :: s.user) == Creators(trees)
    ensures |r| == |Creators(trees)|
    ensures Total(r) == |trees|
    ensures trees == [] ==> r == []
  {
    StatsRows(trees);
    StatsCardinality(trees);
    StatsTotal(trees);
    StatsOf(TallyOf(trees))
  }

  /** There are as many rows as distinct `createdBy` values. */
  lemma StatsCardinality(trees: seq<Tree>)
    ensures |StatsOf(TallyOf(trees))| == |Creators(trees)|
  {
    var t := TallyOf(trees);
    DistinctCardinality(t.users);
  }

  /** The rows' counts add up to the number of trees. */
  lemma StatsTotal(trees: seq<Tree>)
    ensures Total(StatsOf(TallyOf(trees))) == |trees|
  {
    TallySum(trees);
  }

  /** Each row of the listed entries carries that user's count, which is positive. */
  lemma StatsRows(trees: seq<Tree>)
    ensures var r := StatsOf(TallyOf(trees));
      forall i :: 0 <= i < |r| ==> r[i].treesRegistered == Count(trees, r[i].user) && r[i].treesRegistered >= 1
  {
    var t := TallyOf(trees);
    TallyCounts(trees);
    var r := StatsOf(t);
    forall i | 0 <= i < |r|
      ensures r[i].treesRegistered == Count(trees, r[i].user) && r[i].treesRegistered >= 1
    {
      assert r[i].user in t.counts;
    }
  }

  /** Changing any field of a tree other than `createdBy` leaves the statistics unchanged. */
  lemma StatisticsOnlyReadCreatedBy(a: seq<Tree>, b: seq<Tree>)
    requires |a| == |b|
    requires forall i :: 0 <= i < |a| ==> a[i].fields.createdBy == b[i].fields.createdBy
    ensures UserStatistics(a) == UserStatistics(b)
  {
    TallyOnlyReadsCreatedBy(a, b);
  }

  /** The body of the `reduce` callback: `acc[user] = (acc[user] || 0) + 1`, in place. */
  method Increment(users: seq<string>, counts: map<string, nat>, user: string)
    returns (users': seq<string>, counts': map<string, nat>)
    ensures Tally(users', counts') == Add(Tally(users, counts), user)
  {
    users', counts' := users, counts;
    var seen: nat := 0;
    if user in counts' {
      seen := counts'[user];
    } else {
      users' := users' + [user];
    }
    counts' := counts'[user := seen + 1];
  }

  /** `countTreesByUser`: the `reduce` updates the accumulator tree by tree, then its entries are listed. */
  method CountTreesByUser(trees: seq<Tree>) returns (stats: seq<UserStat>)
    ensures stats == UserStatistics(trees)
    ensures forall i :: 0 <= i < |stats| ==> stats[i].treesRegistered == Count(trees, stats[i].user)
    ensures Total(stats) == |trees|
  {
    var users: seq<string> := [];
    var counts: map<string, nat> := map[];
    for i := 0 to |trees|
      invariant Tally(users, counts) == TallyOf(trees[..i])
    {
      assert trees[..i + 1][..i] == trees[..i];
      users, counts := Increment(users, counts, trees[i].fields.createdBy);
    }
    assert trees[..|trees|] == trees;
    stats := StatsOf(Tally(users, counts));
  }
}
