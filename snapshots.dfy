/**
 * A keyed collection of the realtime database, as a listener or a one-shot
 * read delivers it. `snapshot.val()` is either null (the collection has no
 * children) or an object; the object is modelled by its entries, in the order
 * `Object.entries` enumerates them.
 */
module Snapshots {
  import opened Optional

  /** The entries of a snapshot object: (key, value) pairs in enumeration order. */
  type Entries<V> = seq<(string, V)>

  /** The keys of a snapshot object. */
  function KeySet<V>(s: Entries<V>): set<string> {
    set i | 0 <= i < |s| :: s[i].0
  }

  /** The keys of an object are distinct; every snapshot the database delivers has this property. */
  predicate DistinctKeys<V>(s: Entries<V>) {
    forall i, j :: 0 <= i < j < |s| ==> s[i].0 != s[j].0
  }

  /** JavaScript's `Object.fromEntries`: a later entry for the same key replaces an earlier one. */
  function FromEntries<V>(s: Entries<V>): (m: map<string, V>)
    ensures m.Keys == KeySet(s)
  {
    if s == [] then map[]
    else
      var init := s[..|s| - 1];
      assert KeySet(s) == KeySet(init) + {s[|s| - 1].0} by {
        forall k | k in KeySet(s) ensures k in KeySet(init) + {s[|s| - 1].0} {
          var i :| 0 <= i < |s| && s[i].0 == k;
          if i < |s| - 1 { assert init[i].0 == k; }
        }
      }
      FromEntries(init)[s[|s| - 1].0 := s[|s| - 1].1]
  }

  /** With distinct keys, every entry survives `Object.fromEntries` with its own value. */
  lemma {:induction false} FromEntriesLookup<V>(s: Entries<V>)
    requires DistinctKeys(s)
    ensures forall i :: 0 <= i < |s| ==> s[i].0 in FromEntries(s) && FromEntries(s)[s[i].0] == s[i].1
  {
    if s != [] {
      var init := s[..|s| - 1];
      assert DistinctKeys(init);
      FromEntriesLookup(init);
      forall i | 0 <= i < |s|
        ensures s[i].0 in FromEntries(s) && FromEntries(s)[s[i].0] == s[i].1
      {
        if i < |s| - 1 {
          assert init[i] == s[i];
          assert s[i].0 != s[|s| - 1].0;
        }
      }
    }
  }

  /** Distinct keys: there are exactly as many keys as entries. */
  lemma {:induction false} DistinctKeyCount<V>(s: Entries<V>)
    requires DistinctKeys(s)
    ensures |KeySet(s)| == |s|
  {
    if s != [] {
      var init := s[..|s| - 1];
      assert DistinctKeys(init);
      DistinctKeyCount(init);
      assert KeySet(s) == KeySet(init) + {s[|s| - 1].0} by {
        forall k | k in KeySet(s) ensures k in KeySet(init) + {s[|s| - 1].0} {
          var i :| 0 <= i < |s| && s[i].0 == k;
          if i < |s| - 1 { assert init[i].0 == k; }
        }
      }
      assert s[|s| - 1].0 !in KeySet(init);
    }
  }

  /** `Object.entries(item).map(([key, value]) => [key, f(value)])`: same keys, projected values. */
  function MapValues<V, W>(s: Entries<V>, f: V -> W): (r: Entries<W>)
    ensures |r| == |s|
    ensures forall i :: 0 <= i < |s| ==> r[i] == (s[i].0, f(s[i].1))
  {
    seq(|s|, i requires 0 <= i < |s| => (s[i].0, f(s[i].1)))
  }

  /**
   * The table `Object.fromEntries` builds from projected entries: it has the
   * snapshot's keys and, with distinct keys, one entry per snapshot entry,
   * holding the projection of that entry's value.
   */
  lemma ProjectedTable<V, W>(s: Entries<V>, f: V -> W)
    ensures FromEntries(MapValues(s, f)).Keys == KeySet(s)
    ensures DistinctKeys(s) ==>
      |FromEntries(MapValues(s, f))| == |s| &&
      forall i :: 0 <= i < |s| ==> FromEntries(MapValues(s, f))[s[i].0] == f(s[i].1)
  {
    var r := MapValues(s, f);
    assert KeySet(r) == KeySet(s) by {
      assert forall i :: 0 <= i < |s| ==> r[i].0 == s[i].0;
    }
    if DistinctKeys(s) {
      assert DistinctKeys(r);
      FromEntriesLookup(r);
      DistinctKeyCount(s);
    }
  }

  /** Property access `table[key]` on a table built from a snapshot: absent keys give `undefined`. */
  function Lookup<V>(table: map<string, V>, key: string): (r: Option<V>)
    ensures r.Some? <==> key in table
    ensures r.Some? ==> r.value == table[key]
  {
    if key in table then Some(table[key]) else None
  }
}
