/** The fold directive: a panel that folds and unfolds, remembers its state in
    session storage under `'folding_' + id`, and can be switched off. */
module Folding {
  import opened Records

  /** An attribute that is present and either empty or evaluates truthy
      (`angular.isDefined(attr) && (!attr || $eval(attr))`). */
  predicate AttrOn(attr: Option<string>, evaluated: bool)
  {
    attr.Some? && (attr.value == "" || evaluated)
  }

  function StorageKey(id: string): string
  {
    "folding_" + id
  }

  /** `getFolding` over a storage map: nothing when forgetful or when nothing is stored. */
  function ReadFolding(storage: map<string, bool>, key: string, forgetful: bool): (r: Option<bool>)
    ensures r.Some? <==> !forgetful && key in storage
    ensures r.Some? ==> r.value == storage[key]
  {
    if forgetful || key !in storage then None else Some(storage[key])
  }

  /** `setFolding` over a storage map: the value under `key`, unless forgetful. */
  function WriteFolding(storage: map<string, bool>, key: string, forgetful: bool, folded: bool): (r: map<string, bool>)
    ensures forgetful ==> r == storage
    ensures !forgetful ==> key in r && r[key] == folded
    ensures forall k :: k != key ==> (k in r <==> k in storage) && (k in r ==> r[k] == storage[k])
  {
    if forgetful then storage else storage[key := folded]
  }

  /** `restoreFolding`'s decision: the stored value, or the `closed` attribute when none. */
  function Restored(got: Option<bool>, closed: bool): bool
  {
    if got.Some? then got.value else closed
  }

  /** What is written is read back, and restoring after a write gives the value
      written; a forgetful panel reads nothing and restores from `closed`. */
  lemma FoldingRoundTrip(storage: map<string, bool>, key: string, forgetful: bool, folded: bool, closed: bool)
    ensures ReadFolding(WriteFolding(storage, key, forgetful, folded), key, forgetful)
         == if forgetful then None else Some(folded)
    ensures Restored(ReadFolding(WriteFolding(storage, key, forgetful, folded), key, forgetful), closed)
         == if forgetful then closed else folded
  {
  }

  /** `toggleFold(state)` on a foldable panel folds iff `state` is not an explicit
      false and the panel is not folded. */
  function ToggleTarget(state: Option<bool>, folded: bool): (r: bool)
    ensures state == Some(false) ==> !r
    ensures folded ==> !r
    ensures state != Some(false) && !folded ==> r
  {
    !((state.Some? && !state.value) || folded)
  }

  class Fold {
    const id: string
    /** The `forget` attribute and what it evaluates to. */
    const forget: Option<string>
    const forgetEval: bool
    /** Whether the `closed` attribute is present. */
    const closed: bool
    var foldable: bool
    var folded: bool
    var storage: map<string, bool>
    /** Classes on the element: `foldable`, `folded`, `always_folded`. */
    var foldableClass: bool
    var foldedClass: bool
    var alwaysFoldedClass: bool
    /** `folder` on the `[folder]` descendants and `fold` on the `[folded]` descendants. */
    var folderClass: bool
    var foldClass: bool

    /** The `folded` class is on the element exactly when the panel is folded and foldable. */
    ghost predicate Valid()
      reads this
    {
      foldedClass == (folded && foldable)
    }

    predicate IsForgetful()
      reads this
    {
      AttrOn(forget, forgetEval)
    }

    function GetFolding(): Option<bool>
      reads this
    {
      ReadFolding(storage, StorageKey(id), IsForgetful())
    }

    /** `link`: enabled iff the `fold` attribute is on, then the stored state
        (or `closed`) restored. */
    constructor(id: string, forget: Option<string>, forgetEval: bool, closed: bool,
                foldAttr: Option<string>, foldEval: bool, storage: map<string, bool>)
      ensures Valid()
      ensures this.id == id && this.forget == forget && this.forgetEval == forgetEval && this.closed == closed
      ensures foldable == AttrOn(foldAttr, foldEval)
      ensures folded == Restored(ReadFolding(storage, StorageKey(id), AttrOn(forget, forgetEval)), closed)
      ensures this.storage == WriteFolding(storage, StorageKey(id), AttrOn(forget, forgetEval), folded)
      ensures foldableClass == foldable && folderClass == foldable && foldClass == foldable
      ensures alwaysFoldedClass == !foldable
    {
      this.id := id;
      this.forget := forget;
      this.forgetEval := forgetEval;
      this.closed := closed;
      this.storage := storage;
      foldable := true;
      folded := false;
      foldableClass := false;
      foldedClass := false;
      alwaysFoldedClass := false;
      folderClass := false;
      foldClass := false;
      new;
      if AttrOn(foldAttr, foldEval) {
        EnableFold();
      } else {
        DisableFold();
      }
      RestoreFolding();
    }

    /** `setFolding`. */
    method SetFolding()
      modifies this
      ensures storage == WriteFolding(old(storage), StorageKey(id), IsForgetful(), folded)
      ensures foldable == old(foldable) && folded == old(folded) && foldedClass == old(foldedClass)
      ensures foldableClass == old(foldableClass) && alwaysFoldedClass == old(alwaysFoldedClass)
      ensures folderClass == old(folderClass) && foldClass == old(foldClass)
    {
      if !IsForgetful() {
        storage := storage[StorageKey(id) := folded];
      }
    }

    /** `fold`: folded, the class added only when foldable, the state stored. */
    method Fold()
      requires Valid()
      modifies this
      ensures Valid() && folded && foldedClass == foldable
      ensures storage == WriteFolding(old(storage), StorageKey(id), IsForgetful(), true)
      ensures !IsForgetful() ==> GetFolding() == Some(true)
      ensures foldable == old(foldable) && foldableClass == old(foldableClass)
      ensures alwaysFoldedClass == old(alwaysFoldedClass) && folderClass == old(folderClass) && foldClass == old(foldClass)
    {
      folded := true;
      if foldable {
        foldedClass := true;
      }
      SetFolding();
    }

    /** `unfold`: unfolded, the class removed whatever `foldable` is, the state stored. */
    method Unfold()
      requires Valid()
      modifies this
      ensures Valid() && !folded && !foldedClass
      ensures storage == WriteFolding(old(storage), StorageKey(id), IsForgetful(), false)
      ensures !IsForgetful() ==> GetFolding() == Some(false)
      ensures foldable == old(foldable) && foldableClass == old(foldableClass)
      ensures alwaysFoldedClass == old(alwaysFoldedClass) && folderClass == old(folderClass) && foldClass == old(foldClass)
    {
      folded := false;
      foldedClass := false;
      SetFolding();
    }

    /** `toggleFold(state)`: nothing unless foldable. */
    method ToggleFold(state: Option<bool>)
      requires Valid()
      modifies this
      ensures Valid() && foldable == old(foldable)
      ensures !old(foldable) ==> folded == old(folded) && storage == old(storage)
      ensures old(foldable) ==> folded == ToggleTarget(state, old(folded))
      ensures old(foldable) ==> storage == WriteFolding(old(storage), StorageKey(id), IsForgetful(), folded)
      ensures foldableClass == old(foldableClass) && alwaysFoldedClass == old(alwaysFoldedClass)
      ensures folderClass == old(folderClass) && foldClass == old(foldClass)
    {
      if foldable {
        if (state.Some? && !state.value) || folded {
          Unfold();
        } else {
          Fold();
        }
      }
    }

    /** `restoreFolding`: fold iff the stored value, or `closed` when none, says so. */
    method RestoreFolding()
      requires Valid()
      modifies this
      ensures Valid() && foldable == old(foldable)
      ensures folded == Restored(old(GetFolding()), closed)
      ensures storage == WriteFolding(old(storage), StorageKey(id), IsForgetful(), folded)
      ensures foldableClass == old(foldableClass) && alwaysFoldedClass == old(alwaysFoldedClass)
      ensures folderClass == old(folderClass) && foldClass == old(foldClass)
    {
      var gotFolded := GetFolding();
      var target := if gotFolded.Some? then gotFolded.value else closed;
      if target {
        Fold();
      } else {
        Unfold();
      }
    }

    /** `enableFold`: foldable again, its classes added, the state restored. */
    method EnableFold()
      modifies this
      ensures Valid() && foldable && foldableClass && folderClass && foldClass
      ensures alwaysFoldedClass == old(alwaysFoldedClass)
      ensures folded == Restored(old(GetFolding()), closed)
      ensures storage == WriteFolding(old(storage), StorageKey(id), IsForgetful(), folded)
    {
      foldable := true;
      foldableClass := true;
      folderClass := true;
      foldClass := true;
      // Not a step of `enableFold`: it re-establishes Valid() for RestoreFolding,
      // which sets the `folded` class itself right after, so it cannot be observed.
      foldedClass := folded;
      RestoreFolding();
    }

    /** `disableFold`: not foldable, `foldable` and `folded` classes off,
        `always_folded` on. The `fold` class is taken off the `[folder]`
        descendants, so the `[folded]` ones keep it. */
    method DisableFold()
      modifies this
      ensures Valid() && !foldable && !foldableClass && !foldedClass && !folderClass && alwaysFoldedClass
      ensures foldClass == old(foldClass)
      ensures folded == old(folded) && storage == old(storage)
    {
      foldable := false;
      foldableClass := false;
      foldedClass := false;
      folderClass := false;
      alwaysFoldedClass := true;
    }
  }
}
