/** The scroll position the grid saves before opening a project and the modal
    restores after closing it, carried in the session store (a string-to-string
    map standing for `sessionStorage`). */
module ScrollMemory {

  import opened Wrappers
  import opened Text

  type Store = map<string, string>

  const ScrollKey: string := "scrollPosition"

  /** The call `window.scrollTo(0, parseInt(saved))` makes: to a parsed offset,
      or with a string the model does not interpret as an integer. */
  datatype ScrollCall = ScrollTo(y: int) | ScrollToUnparsed(raw: string)

  /** The store after a restore, and the scroll call it made, if any. */
  datatype Restored = Restored(store: Store, scroll: Option<ScrollCall>)

  /** `sessionStorage.setItem('scrollPosition', scrollY.toString())`. */
  function Save(store: Store, scrollY: int): (r: Store)
    ensures ScrollKey in r && ParseInt(r[ScrollKey]) == Some(scrollY)
    ensures forall k :: k != ScrollKey ==> (k in r <==> k in store)
    ensures forall k :: k != ScrollKey && k in store ==> r[k] == store[k]
  {
    ParseShowInt(scrollY);
    store[ScrollKey := ShowInt(scrollY)]
  }

  /** Reads the saved position; when it is a non-empty string, scrolls to its
      integer value and deletes the key, otherwise does nothing. */
  function Restore(store: Store): (r: Restored)
    ensures r.scroll.Some? <==> ScrollKey in store && store[ScrollKey] != ""
    ensures r.scroll.Some? ==> r.store == store - {ScrollKey}
    ensures r.scroll.None? ==> r.store == store
    ensures r.scroll.Some? && ParseInt(store[ScrollKey]).Some? ==>
              r.scroll.value == ScrollTo(ParseInt(store[ScrollKey]).value)
  {
    if ScrollKey in store && store[ScrollKey] != "" then
      var saved := store[ScrollKey];
      var call := match ParseInt(saved)
        case Some(y) => ScrollTo(y)
        case None => ScrollToUnparsed(saved);
      Restored(store - {ScrollKey}, Some(call))
    else
      Restored(store, None)
  }

  /** A restore after a save scrolls back to the saved position and leaves the
      store as it was apart from the key. */
  lemma SaveThenRestore(store: Store, scrollY: int)
    ensures Restore(Save(store, scrollY)) == Restored(store - {ScrollKey}, Some(ScrollTo(scrollY)))
  {
  }

  /** Restoring at most once: a second restore makes no call and changes nothing. */
  lemma RestoreTwiceIsRestoreOnce(store: Store)
    ensures var once := Restore(store);
            Restore(once.store) == Restored(once.store, None)
  {
  }
}
