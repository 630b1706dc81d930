/**
 * The trees/species/sectors join of src/hooks/useFetchTrees.ts: each species
 * or sectors emission rebuilds a lookup table; each trees emission joins the
 * trees to the current tables and publishes the list into the screen's state.
 */
module FetchTrees {
  import opened Optional
  import opened Snapshots
  import opened TreeModel

  /** The six species fields the table keeps. */
  function ProjectSpecies(v: RawSpecies): Species {
    Species(v.commonName, v.scientificName, v.foliage, v.color, v.description, v.imageUrl)
  }

  /** The two sector fields the table keeps. */
  function ProjectSector(v: RawSector): Sector {
    Sector(v.name, v.polygon)
  }

  /** The species table one species emission yields; a null snapshot gives the empty table. */
  function SpeciesTable(item: Option<Entries<RawSpecies>>): (t: map<string, Species>)
    ensures item.None? ==> t == map[]
    ensures item.Some? ==> t.Keys == KeySet(item.value)
    ensures item.Some? && DistinctKeys(item.value) ==>
      |t| == |item.value| &&
      forall i :: 0 <= i < |item.value| ==> t[item.value[i].0] == ProjectSpecies(item.value[i].1)
  {
    match item
    case None => map[]
    case Some(s) =>
      ProjectedTable(s, ProjectSpecies);
      FromEntries(MapValues(s, ProjectSpecies))
  }

  /** The sector table one sectors emission yields; a null snapshot gives the empty table. */
  function SectorTable(item: Option<Entries<RawSector>>): (t: map<string, Sector>)
    ensures item.None? ==> t == map[]
    ensures item.Some? ==> t.Keys == KeySet(item.value)
    ensures item.Some? && DistinctKeys(item.value) ==>
      |t| == |item.value| &&
      forall i :: 0 <= i < |item.value| ==> t[item.value[i].0] == ProjectSector(item.value[i].1)
  {
    match item
    case None => map[]
    case Some(s) =>
      ProjectedTable(s, ProjectSector);
      FromEntries(MapValues(s, ProjectSector))
  }

  /** One joined record: the stored fields, then `id: key`, then the looked-up species and sector. */
  function JoinTree(key: string, raw: RawTree, species: map<string, Species>, sectors: map<string, Sector>): Tree {
    Tree(key, raw.fields, Lookup(species, raw.fields.speciesId), Lookup(sectors, raw.fields.sectorId))
  }

  /**
   * The list a trees emission publishes: one record per snapshot entry, in
   * enumeration order; the key overrides any stored `id`, every stored field is
   * kept, and species and sector are present exactly when their key is in the table.
   */
  function Join(trees: Entries<RawTree>, species: map<string, Species>, sectors: map<string, Sector>): (r: seq<Tree>)
    ensures |r| == |trees|
    ensures forall i :: 0 <= i < |trees| ==>
      r[i].id == trees[i].0 && r[i].fields == trees[i].1.fields
    ensures forall i :: 0 <= i < |trees| ==>
      (r[i].species.Some? <==> trees[i].1.fields.speciesId in species) &&
      (r[i].species.Some? ==> r[i].species.value == species[trees[i].1.fields.speciesId])
    ensures forall i :: 0 <= i < |trees| ==>
      (r[i].sector.Some? <==> trees[i].1.fields.sectorId in sectors) &&
      (r[i].sector.Some? ==> r[i].sector.value == sectors[trees[i].1.fields.sectorId])
  {
    seq(|trees|, i requires 0 <= i < |trees| => JoinTree(trees[i].0, trees[i].1, species, sectors))
  }

  /** The ids of the joined list, in order. */
  function Ids(r: seq<Tree>): seq<string> {
    seq(|r|, i requires 0 <= i < |r| => r[i].id)
  }

  /** The ids of the joined list are the snapshot's keys, in enumeration order, hence distinct. */
  lemma JoinIdsAreKeys(trees: Entries<RawTree>, species: map<string, Species>, sectors: map<string, Sector>)
    requires DistinctKeys(trees)
    ensures var r := Join(trees, species, sectors);
      Ids(r) == seq(|trees|, i requires 0 <= i < |trees| => trees[i].0) &&
      (set t | t in r :: t.id) == KeySet(trees) &&
      forall i, j :: 0 <= i < j < |r| ==> r[i].id != r[j].id
  {
    var r := Join(trees, species, sectors);
    forall k | k in KeySet(trees) ensures k in (set t | t in r :: t.id) {
      var i :| 0 <= i < |trees| && trees[i].0 == k;
      assert r[i] in r;
    }
  }

  /**
   * A tree removed from a collection that still holds other trees leaves no
   * residual entry in the list joined from the next (non-null) snapshot.
   */
  lemma DeletedTreeAbsent(trees: Entries<RawTree>, species: map<string, Species>, sectors: map<string, Sector>, key: string)
    requires key !in KeySet(trees)
    ensures forall t :: t in Join(trees, species, sectors) ==> t.id != key
  {
    var r := Join(trees, species, sectors);
    forall t | t in r ensures t.id != key {
      var i :| 0 <= i < |r| && r[i] == t;
      assert trees[i].0 in KeySet(trees);
    }
  }

  /**
   * End to end: joined against the table of a species snapshot, a tree's
   * species is the projection of the snapshot entry its `speciesId` names, and
   * absent when no entry has that key (in particular when the snapshot is null).
   */
  lemma SpeciesResolvedFromSnapshot(speciesItem: Option<Entries<RawSpecies>>, sectors: map<string, Sector>,
                                    trees: Entries<RawTree>, i: nat, j: nat)
    requires speciesItem.Some? ==> DistinctKeys(speciesItem.value)
    requires i < |trees|
    ensures var r := Join(trees, SpeciesTable(speciesItem), sectors);
      (r[i].species.None? <==> speciesItem.None? || trees[i].1.fields.speciesId !in KeySet(speciesItem.value)) &&
      (speciesItem.Some? && j < |speciesItem.value| && speciesItem.value[j].0 == trees[i].1.fields.speciesId ==>
         r[i].species == Some(ProjectSpecies(speciesItem.value[j].1)))
  {
  }

  /** The same for sectors. */
  lemma SectorResolvedFromSnapshot(sectorItem: Option<Entries<RawSector>>, species: map<string, Species>,
                                   trees: Entries<RawTree>, i: nat, j: nat)
    requires sectorItem.Some? ==> DistinctKeys(sectorItem.value)
    requires i < |trees|
    ensures var r := Join(trees, species, SectorTable(sectorItem));
      (r[i].sector.None? <==> sectorItem.None? || trees[i].1.fields.sectorId !in KeySet(sectorItem.value)) &&
      (sectorItem.Some? && j < |sectorItem.value| && sectorItem.value[j].0 == trees[i].1.fields.sectorId ==>
         r[i].sector == Some(ProjectSector(sectorItem.value[j].1)))
  {
  }

  /**
   * Worked example: species s1 "Tajibo", sector k1 "Centro" and one tree t1 of
   * that species and sector join into one record carrying both; with a null
   * species snapshot, the same tree's species is absent.
   */
  lemma TajiboExample(raw: RawSpecies, sector: RawSector, fields: TreeFields)
    requires raw.commonName == "Tajibo" && sector.name == "Centro"
    requires fields.speciesId == "s1" && fields.sectorId == "k1" && fields.code == "TAJ-01"
    ensures var r := Join([("t1", RawTree(None, fields))],
                          SpeciesTable(Some([("s1", raw)])), SectorTable(Some([("k1", sector)])));
      |r| == 1 && r[0].id == "t1" && r[0].fields.code == "TAJ-01" &&
      r[0].species.Some? && r[0].species.value.commonName == "Tajibo" &&
      r[0].sector.Some? && r[0].sector.value.name == "Centro"
    ensures Join([("t1", RawTree(None, fields))], SpeciesTable(None), map[])[0].species.None?
  {
    var sp: Entries<RawSpecies> := [("s1", raw)];
    var sc: Entries<RawSector> := [("k1", sector)];
    assert DistinctKeys(sp) && DistinctKeys(sc);
  }

  // ---------------------------------------------------------------------------
  // The listener callbacks as state transitions.

  /** The three channels the hook listens on. */
  datatype Channel = SpeciesChannel | SectorsChannel | TreesChannel

  /** One listener callback invocation: a value on a channel, or a listen error on it. */
  datatype Emission =
    | SpeciesValue(speciesItem: Option<Entries<RawSpecies>>)
    | SectorsValue(sectorItem: Option<Entries<RawSector>>)
    | TreesValue(treesItem: Option<Entries<RawTree>>)
    | ListenError(channel: Channel)

  /** The hook's state: the current lookup tables and the list last published with `setTrees`. */
  datatype FeedState = FeedState(species: map<string, Species>, sectors: map<string, Sector>, trees: seq<Tree>)

  /**
   * One callback. A species or sectors value replaces that table; a non-null
   * trees value publishes the join against the current tables; a null trees
   * value and any listen error only log, so nothing changes.
   */
  function Step(st: FeedState, e: Emission): (r: FeedState)
    ensures e.ListenError? ==> r == st
    ensures !e.TreesValue? || e.treesItem.None? ==> r.trees == st.trees
    ensures e.TreesValue? ==> r.species == st.species && r.sectors == st.sectors
    ensures e.TreesValue? && e.treesItem.Some? ==> |r.trees| == |e.treesItem.value|
    ensures e.SpeciesValue? ==> r.species == SpeciesTable(e.speciesItem) && r.sectors == st.sectors
    ensures e.SectorsValue? ==> r.sectors == SectorTable(e.sectorItem) && r.species == st.species
  {
    match e
    case SpeciesValue(item) => st.(species := SpeciesTable(item))
    case SectorsValue(item) => st.(sectors := SectorTable(item))
    case TreesValue(item) =>
      if item.Some? then st.(trees := Join(item.value, st.species, st.sectors)) else st
    case ListenError(_) => st
  }

  /** A sequence of callbacks, in delivery order. */
  function Run(st: FeedState, es: seq<Emission>): FeedState
    decreases |es|
  {
    if es == [] then st else Run(Step(st, es[0]), es[1..])
  }

  lemma {:induction false} RunSnoc(st: FeedState, es: seq<Emission>, e: Emission)
    ensures Run(st, es + [e]) == Step(Run(st, es), e)
    decreases |es|
  {
    if es == [] {
      assert Run(Step(st, e), []) == Step(st, e);
    } else {
      assert (es + [e])[1..] == es[1..] + [e];
      RunSnoc(Step(st, es[0]), es[1..], e);
    }
  }

  /** Listen errors, however many and on whichever channel, never publish nor change a table. */
  lemma {:induction false} ListenErrorsChangeNothing(st: FeedState, es: seq<Emission>)
    requires forall k :: 0 <= k < |es| ==> es[k].ListenError?
    ensures Run(st, es) == st
    decreases |es|
  {
    if es != [] {
      ListenErrorsChangeNothing(st, es[1..]);
    }
  }

  /** Only a non-null trees value publishes: without one, the published list stays as it was. */
  lemma {:induction false} PublishOnlyOnTreesValue(st: FeedState, es: seq<Emission>)
    requires forall k :: 0 <= k < |es| ==> !es[k].TreesValue? || es[k].treesItem.None?
    ensures Run(st, es).trees == st.trees
    decreases |es|
  {
    if es != [] {
      PublishOnlyOnTreesValue(Step(st, es[0]), es[1..]);
    }
  }

  /** The species table after some callbacks: that of the most recent species value, if any. */
  function LatestSpecies(initial: map<string, Species>, es: seq<Emission>): map<string, Species> {
    if es == [] then initial
    else if es[|es| - 1].SpeciesValue? then SpeciesTable(es[|es| - 1].speciesItem)
    else LatestSpecies(initial, es[..|es| - 1])
  }

  /** The sector table after some callbacks: that of the most recent sectors value, if any. */
  function LatestSectors(initial: map<string, Sector>, es: seq<Emission>): map<string, Sector> {
    if es == [] then initial
    else if es[|es| - 1].SectorsValue? then SectorTable(es[|es| - 1].sectorItem)
    else LatestSectors(initial, es[..|es| - 1])
  }

  /** The tables always come from the most recently observed snapshots, never an earlier one. */
  lemma {:induction false} TablesAreLatest(st: FeedState, es: seq<Emission>)
    ensures Run(st, es).species == LatestSpecies(st.species, es)
    ensures Run(st, es).sectors == LatestSectors(st.sectors, es)
    decreases |es|
  {
    if es != [] {
      var init := es[..|es| - 1];
      assert init + [es[|es| - 1]] == es;
      RunSnoc(st, init, es[|es| - 1]);
      TablesAreLatest(st, init);
    }
  }

  /**
   * A trees value published after some callbacks is joined against the tables
   * of the most recent species and sectors values.
   */
  lemma PublishedJoinUsesLatestTables(st: FeedState, es: seq<Emission>, trees: Entries<RawTree>)
    ensures Run(st, es + [TreesValue(Some(trees))]).trees ==
            Join(trees, LatestSpecies(st.species, es), LatestSectors(st.sectors, es))
  {
    RunSnoc(st, es, TreesValue(Some(trees)));
    TablesAreLatest(st, es);
  }

  /** The callbacks of one pass through the nested listeners: species, then sectors, then trees. */
  function NestedPass(sp: Option<Entries<RawSpecies>>, sc: Option<Entries<RawSector>>,
                      trees: Entries<RawTree>): seq<Emission> {
    [SpeciesValue(sp), SectorsValue(sc), TreesValue(Some(trees))]
  }

  /**
   * One nested pass leaves the tables of its species and sectors snapshots and
   * publishes the join of the three snapshots, whatever the state was before.
   */
  lemma NestedPassPublishesJoin(st: FeedState, sp: Option<Entries<RawSpecies>>,
                                sc: Option<Entries<RawSector>>, trees: Entries<RawTree>)
    ensures Run(st, NestedPass(sp, sc, trees)) ==
            FeedState(SpeciesTable(sp), SectorTable(sc), Join(trees, SpeciesTable(sp), SectorTable(sc)))
  {
    var es := NestedPass(sp, sc, trees);
    var s1 := Step(st, es[0]);
    var s2 := Step(s1, es[1]);
    var s3 := Step(s2, es[2]);
    assert es[1..][1..][1..] == [];
    assert Run(s2, es[1..][1..]) == Run(s3, []);
    assert Run(s1, es[1..]) == Run(s2, es[1..][1..]);
  }

  /** Delivering the same three snapshots twice publishes structurally equal lists. */
  lemma RedeliveryIsIdempotent(st: FeedState, sp: Option<Entries<RawSpecies>>,
                               sc: Option<Entries<RawSector>>, trees: Entries<RawTree>)
    ensures var once := Run(st, NestedPass(sp, sc, trees));
      Run(once, NestedPass(sp, sc, trees)) == once
  {
    var once := Run(st, NestedPass(sp, sc, trees));
    NestedPassPublishesJoin(st, sp, sc, trees);
    NestedPassPublishesJoin(once, sp, sc, trees);
  }

  /**
   * Deleting the last tree leaves it on screen: the collection becomes null,
   * a null trees value publishes nothing, and the list joined from the earlier
   * snapshot, which still holds the deleted tree, stays published.
   */
  lemma LastDeletionLeavesStaleTree(st: FeedState, key: string, raw: RawTree)
    ensures var r := Run(st, [TreesValue(Some([(key, raw)])), TreesValue(None)]).trees;
      |r| == 1 && r[0].id == key && r[0].fields == raw.fields
  {
    var es := [TreesValue(Some([(key, raw)])), TreesValue(None)];
    var s1 := Step(st, es[0]);
    var s2 := Step(s1, es[1]);
    assert es[1..][1..] == [];
    assert Run(s1, es[1..]) == Run(s2, es[1..][1..]);
  }

  /** The hook's mutable state: the two tables and the list published into the screen. */
  class TreeFeed {
    var species: map<string, Species>
    var sectors: map<string, Sector>
    var trees: seq<Tree>

    function State(): FeedState
      reads this
    {
      FeedState(species, sectors, trees)
    }

    /** Before any emission the tables are empty and the screen holds `initial` (`useState([])`). */
    constructor (initial: seq<Tree>)
      ensures State() == FeedState(map[], map[], initial)
    {
      species := map[];
      sectors := map[];
      trees := initial;
    }

    /** The species listener's callback. */
    method OnSpecies(item: Option<Entries<RawSpecies>>)
      modifies this
      ensures State() == Step(old(State()), SpeciesValue(item))
    {
      species := SpeciesTable(item);
    }

    /** The sectors listener's callback. */
    method OnSectors(item: Option<Entries<RawSector>>)
      modifies this
      ensures State() == Step(old(State()), SectorsValue(item))
    {
      sectors := SectorTable(item);
    }

    /** The trees listener's callback: publishes only a non-null snapshot. */
    method OnTrees(item: Option<Entries<RawTree>>) returns (published: bool)
      modifies this
      ensures published <==> item.Some?
      ensures State() == Step(old(State()), TreesValue(item))
    {
      published := item.Some?;
      if published {
        trees := Join(item.value, species, sectors);
      }
    }

    /** An error callback: it only logs. */
    method OnListenError(channel: Channel)
      ensures State() == Step(old(State()), ListenError(channel))
    {
    }
  }
}
