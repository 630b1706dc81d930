/**
 * The state rules of the tree list screen, src/pages/TreeList.tsx: the
 * species filter, the species list loaded for the selector, and the
 * confirm-then-delete flow with its local removal and error alert.
 */
module TreeList {
  import opened Optional
  import opened Snapshots
  import opened TreeModel

  /** `Array.prototype.filter`: the elements `keep` accepts, in their order. */
  function Filter<T(!new)>(s: seq<T>, keep: T -> bool): (r: seq<T>)
    ensures |r| <= |s|
  {
    if s == [] then []
    else if keep(s[|s| - 1]) then Filter(s[..|s| - 1], keep) + [s[|s| - 1]]
    else Filter(s[..|s| - 1], keep)
  }

  /** The filter keeps exactly the accepted elements, each as often as it occurs. */
  lemma {:induction false} FilterMultiplicity<T(!new)>(s: seq<T>, keep: T -> bool)
    ensures forall x :: multiset(Filter(s, keep))[x] == if keep(x) then multiset(s)[x] else 0
  {
    if s != [] {
      var init := s[..|s| - 1];
      var last := s[|s| - 1];
      assert s == init + [last];
      FilterMultiplicity(init, keep);
    }
  }

  /** Filtering commutes with concatenation, so the kept elements stay in their original order. */
  lemma {:induction false} FilterAppend<T(!new)>(a: seq<T>, b: seq<T>, keep: T -> bool)
    ensures Filter(a + b, keep) == Filter(a, keep) + Filter(b, keep)
    decreases |b|
  {
    if b == [] {
      assert a + b == a;
    } else {
      var init := b[..|b| - 1];
      assert (a + b)[..|a + b| - 1] == a + init;
      assert (a + b)[|a + b| - 1] == b[|b| - 1];
      FilterAppend(a, init, keep);
    }
  }

  /** A filter that accepts every element returns the sequence itself. */
  lemma {:induction false} FilterKeepsAll<T(!new)>(s: seq<T>, keep: T -> bool)
    requires forall i :: 0 <= i < |s| ==> keep(s[i])
    ensures Filter(s, keep) == s
  {
    if s != [] {
      var init := s[..|s| - 1];
      assert forall i :: 0 <= i < |init| ==> init[i] == s[i];
      FilterKeepsAll(init, keep);
      assert s == init + [s[|s| - 1]];
    }
  }

  /**
   * `filteredTrees`: the empty selection (falsy) shows every tree; any other
   * selection shows exactly the trees of that species.
   */
  function FilteredTrees(trees: seq<Tree>, selectedSpecies: string): (r: seq<Tree>)
    ensures selectedSpecies == "" ==> r == trees
    ensures |r| <= |trees|
    ensures selectedSpecies != "" ==>
      forall t :: multiset(r)[t] == if t.fields.speciesId == selectedSpecies then multiset(trees)[t] else 0
  {
    if selectedSpecies == "" then trees
    else
      FilterMultiplicity(trees, (t: Tree) => t.fields.speciesId == selectedSpecies);
      Filter(trees, (t: Tree) => t.fields.speciesId == selectedSpecies)
  }

  /** The filtered list keeps the original order: filtering a concatenation filters each part. */
  lemma FilteredTreesKeepOrder(a: seq<Tree>, b: seq<Tree>, selectedSpecies: string)
    ensures FilteredTrees(a + b, selectedSpecies) == FilteredTrees(a, selectedSpecies) + FilteredTrees(b, selectedSpecies)
  {
    if selectedSpecies != "" {
      FilterAppend(a, b, (t: Tree) => t.fields.speciesId == selectedSpecies);
    }
  }

  /** The local list after a successful remove: `prevTrees.filter(tree => tree.id !== treeId)`. */
  function WithoutTree(trees: seq<Tree>, treeId: string): (r: seq<Tree>)
    ensures forall t :: t in r ==> t.id != treeId
    ensures forall t: Tree :: t.id != treeId ==> multiset(r)[t] == multiset(trees)[t]
    ensures |r| <= |trees|
  {
    FilterMultiplicity(trees, (t: Tree) => t.id != treeId);
    var r := Filter(trees, (t: Tree) => t.id != treeId);
    assert forall t :: t in r ==> multiset(r)[t] > 0;
    r
  }

  /** Removal keeps the other trees in their original order. */
  lemma WithoutTreeKeepsOrder(a: seq<Tree>, b: seq<Tree>, treeId: string)
    ensures WithoutTree(a + b, treeId) == WithoutTree(a, treeId) + WithoutTree(b, treeId)
  {
    FilterAppend(a, b, (t: Tree) => t.id != treeId);
  }

  /** Removing an id no tree carries leaves the list as it was. */
  lemma WithoutAbsentTree(trees: seq<Tree>, treeId: string)
    requires forall t :: t in trees ==> t.id != treeId
    ensures WithoutTree(trees, treeId) == trees
  {
    assert forall i :: 0 <= i < |trees| ==> trees[i] in trees;
    FilterKeepsAll(trees, (t: Tree) => t.id != treeId);
  }

  /** An entry of the species selector: `{ id: key, ...speciesData[key] }`. */
  datatype SpeciesOption = SpeciesOption(id: string, species: RawSpecies)

  /**
   * The selector's list built from a species snapshot: one entry per key, in
   * order, carrying the stored record; the key is its id unless the record
   * stores an `id` of its own, which the spread writes over the key.
   */
  function SpeciesOptions(s: Entries<RawSpecies>): (r: seq<SpeciesOption>)
    ensures |r| == |s|
    ensures forall i :: 0 <= i < |s| ==> r[i].species == s[i].1
    ensures forall i :: 0 <= i < |s| ==> s[i].1.storedId.None? ==> r[i].id == s[i].0
    ensures forall i :: 0 <= i < |s| ==> s[i].1.storedId.Some? ==> r[i].id == s[i].1.storedId.value
  {
    seq(|s|, i requires 0 <= i < |s| => SpeciesOption(s[i].1.storedId.GetOr(s[i].0), s[i].1))
  }

  /** When no record stores an id that differs from its key, the selector's ids are the keys, once each. */
  lemma SpeciesOptionIdsAreKeys(s: Entries<RawSpecies>)
    requires DistinctKeys(s)
    requires forall i :: 0 <= i < |s| ==> s[i].1.storedId.None? || s[i].1.storedId.value == s[i].0
    ensures var r := SpeciesOptions(s);
      (forall i, j :: 0 <= i < j < |r| ==> r[i].id != r[j].id) &&
      (set o | o in r :: o.id) == KeySet(s)
  {
    var r := SpeciesOptions(s);
    assert forall i :: 0 <= i < |r| ==> r[i].id == s[i].0;
    forall k | k in KeySet(s) ensures k in (set o | o in r :: o.id) {
      var i :| 0 <= i < |s| && s[i].0 == k;
      assert r[i] in r;
    }
  }

  /** How the awaited `remove` of the tree ended. */
  datatype RemoveOutcome = Removed | RemoveFailed

  /** How the awaited one-shot `get` of the species ended: rejected, or a snapshot that may not exist. */
  datatype SpeciesRead = ReadFailed | ReadDone(item: Option<Entries<RawSpecies>>)

  /** The message shown when removing a tree fails. */
  const DeleteErrorMessage: string := "Error al eliminar el árbol. Inténtalo de nuevo."

  /** The screen's component state. */
  datatype ScreenState = ScreenState(
    trees: seq<Tree>,
    showAlert: bool,
    showErrorAlert: bool,
    treeToDelete: Option<string>,
    errorMessage: string,
    selectedSpecies: string,
    speciesList: seq<SpeciesOption>)

  /**
   * `handleDeleteTree`: after a successful remove the tree leaves the local
   * list and nothing else changes; a failed remove leaves the list and sets
   * the fixed error message and the error alert.
   */
  function AfterDelete(st: ScreenState, treeId: string, outcome: RemoveOutcome): (r: ScreenState)
    ensures outcome == Removed ==>
      (forall t :: t in r.trees ==> t.id != treeId) &&
      (forall t: Tree :: t.id != treeId ==> multiset(r.trees)[t] == multiset(st.trees)[t]) &&
      r.(trees := st.trees) == st
    ensures outcome == RemoveFailed ==>
      r.trees == st.trees && r.errorMessage == DeleteErrorMessage && r.showErrorAlert &&
      r.(errorMessage := st.errorMessage, showErrorAlert := st.showErrorAlert) == st
  {
    match outcome
    case Removed => st.(trees := WithoutTree(st.trees, treeId))
    case RemoveFailed => st.(errorMessage := DeleteErrorMessage, showErrorAlert := true)
  }

  /** `if (treeToDelete)`: a pending id is acted on only when present and non-empty. */
  function PendingDelete(pending: Option<string>): (r: Option<string>)
    ensures r.Some? <==> pending.Some? && pending.value != ""
    ensures r.Some? ==> r == pending
  {
    if pending.Some? && pending.value != "" then pending else None
  }

  /** The "Eliminar" button: the pending tree, if any, is deleted, and the pending id is cleared. */
  function AfterConfirm(st: ScreenState, outcome: RemoveOutcome): (r: ScreenState)
    ensures r.treeToDelete.None?
    ensures PendingDelete(st.treeToDelete).None? ==> r == st.(treeToDelete := None)
    ensures PendingDelete(st.treeToDelete).Some? ==>
      r == AfterDelete(st, st.treeToDelete.value, outcome).(treeToDelete := None)
  {
    match PendingDelete(st.treeToDelete)
    case Some(id) => AfterDelete(st, id, outcome).(treeToDelete := None)
    case None => st.(treeToDelete := None)
  }

  /** The mutable screen: each handler updates the component state. */
  class TreeListScreen {
    var trees: seq<Tree>
    var showAlert: bool
    var showErrorAlert: bool
    var treeToDelete: Option<string>
    var errorMessage: string
    var selectedSpecies: string
    var speciesList: seq<SpeciesOption>

    function State(): ScreenState
      reads this
    {
      ScreenState(trees, showAlert, showErrorAlert, treeToDelete, errorMessage, selectedSpecies, speciesList)
    }

    /** The trees shown: `filteredTrees` of the current state. */
    function Shown(): (r: seq<Tree>)
      reads this
      ensures selectedSpecies == "" ==> r == trees
      ensures selectedSpecies != "" ==> forall t :: t in r <==> t in trees && t.fields.speciesId == selectedSpecies
    {
      FilteredTrees(trees, selectedSpecies)
    }

    /** The initial `useState` values. */
    constructor ()
      ensures State() == ScreenState([], false, false, None, "", "", [])
    {
      trees := [];
      showAlert := false;
      showErrorAlert := false;
      treeToDelete := None;
      errorMessage := "";
      selectedSpecies := "";
      speciesList := [];
    }

    /** `setTrees`, as called by the trees hook with a published list. */
    method SetTrees(list: seq<Tree>)
      modifies this
      ensures State() == old(State()).(trees := list)
    {
      trees := list;
    }

    /** The selector's `onIonChange`. */
    method SelectSpecies(value: string)
      modifies this
      ensures State() == old(State()).(selectedSpecies := value)
    {
      selectedSpecies := value;
    }

    /** `loadSpecies`: only an existing snapshot replaces the list; a missing one or a failed read keeps it. */
    method LoadSpecies(read: SpeciesRead)
      modifies this
      ensures read.ReadDone? && read.item.Some? ==>
        State() == old(State()).(speciesList := SpeciesOptions(read.item.value))
      ensures read.ReadFailed? || read.item.None? ==> State() == old(State())
    {
      if read.ReadDone? && read.item.Some? {
        speciesList := SpeciesOptions(read.item.value);
      }
    }

    /** `handleDeleteTree`, given how `remove` ended. */
    method HandleDeleteTree(treeId: string, outcome: RemoveOutcome)
      modifies this
      ensures State() == AfterDelete(old(State()), treeId, outcome)
    {
      if outcome == Removed {
        trees := WithoutTree(trees, treeId);
      } else {
        errorMessage := DeleteErrorMessage;
        showErrorAlert := true;
      }
    }

    /** `confirmDeleteTree`: remembers the tree and opens the confirmation; nothing is deleted. */
    method ConfirmDeleteTree(treeId: string)
      modifies this
      ensures State() == old(State()).(treeToDelete := Some(treeId), showAlert := true)
    {
      treeToDelete := Some(treeId);
      showAlert := true;
    }

    /** The "Cancelar" button: clears the pending id and deletes nothing. */
    method CancelDelete()
      modifies this
      ensures State() == old(State()).(treeToDelete := None)
    {
      treeToDelete := None;
    }

    /**
     * The "Eliminar" button: `removed` is the id handed to `remove` (none when
     * nothing is pending); the pending id is cleared either way.
     */
    method ConfirmDelete(outcome: RemoveOutcome) returns (removed: Option<string>)
      modifies this
      ensures removed == PendingDelete(old(treeToDelete))
      ensures State() == AfterConfirm(old(State()), outcome)
    {
      removed := PendingDelete(treeToDelete);
      if removed.Some? {
        HandleDeleteTree(removed.value, outcome);
      }
      treeToDelete := None;
    }

    /** The confirmation alert's `onDidDismiss`. */
    method DismissAlert()
      modifies this
      ensures State() == old(State()).(showAlert := false)
    {
      showAlert := false;
    }

    /** The error alert's `onDidDismiss`. */
    method DismissErrorAlert()
      modifies this
      ensures State() == old(State()).(showErrorAlert := false)
    {
      showErrorAlert := false;
    }
  }
}
