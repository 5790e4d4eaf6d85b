/** The checkpoint store: the number of the last version replayed, kept in
    `storage_data.json` as `{"last_version": n}` between runs. */
module Checkpoint {
  import opened Wrappers

  /** `saved` is `None` while the checkpoint file does not exist. */
  datatype Store = Store(saved: Option<int>)

  const Empty: Store := Store(None)

  /** Reading the checkpoint: the saved number, or 0 when nothing was saved. */
  function Load(store: Store): (last: int)
    ensures store == Empty ==> last == 0
    ensures store != Empty ==> store == Store(Some(last))
  {
    store.saved.GetOr(0)
  }

  /** Writing the checkpoint overwrites whatever was there. */
  function Save(store: Store, version: int): (r: Store)
    ensures Load(r) == version
    ensures r != Empty
  {
    Store(Some(version))
  }

  /** Only the last of several saves is visible to a later load. */
  lemma LastSaveWins(store: Store, first: int, second: int)
    ensures Save(Save(store, first), second) == Save(store, second)
  {
  }
}
