/**
 * The batch-update descriptions the collection view hands to the layout, and
 * the order in which the layout passes them on: by the item index each one
 * has after the update, with items that have none (deletions) first.
 */
module UpdateItems {
  import opened Wrappers
  import opened LayoutTypes

  datatype UpdateAction = Insert | Delete | Reload | Move | NoAction

  datatype UpdateItem = UpdateItem(indexPathBeforeUpdate: Option<ItemPath>,
                                   indexPathAfterUpdate: Option<ItemPath>,
                                   updateAction: UpdateAction)

  /** The sort key: the after-update item index, or -1 when there is none. */
  function SortKey(u: UpdateItem): (k: int)
    ensures k >= -1
    ensures k == -1 <==> u.indexPathAfterUpdate.None?
    ensures u.indexPathAfterUpdate.Some? ==> k == u.indexPathAfterUpdate.value.item
  {
    match u.indexPathAfterUpdate
    case Some(path) => path.item
    case None => -1
  }

  predicate Sorted(us: seq<UpdateItem>)
  {
    forall i, j :: 0 <= i < j < |us| ==> SortKey(us[i]) <= SortKey(us[j])
  }

  /** Put `u` in front of the first element with a larger key. */
  function InsertByKey(u: UpdateItem, us: seq<UpdateItem>): (r: seq<UpdateItem>)
    decreases |us|
  {
    if |us| == 0 || SortKey(u) <= SortKey(us[0]) then [u] + us
    else [us[0]] + InsertByKey(u, us[1..])
  }

  /** The update items in the order the layout processes them. */
  function SortedByAfterItem(us: seq<UpdateItem>): (r: seq<UpdateItem>)
    decreases |us|
  {
    if |us| == 0 then [] else InsertByKey(us[0], SortedByAfterItem(us[1..]))
  }

  /** Every key of `us` is at least `k`. */
  predicate AllAtLeast(k: int, us: seq<UpdateItem>)
  {
    forall i :: 0 <= i < |us| ==> k <= SortKey(us[i])
  }

  lemma {:induction false} InsertKeepsLowerBound(k: int, u: UpdateItem, us: seq<UpdateItem>)
    requires AllAtLeast(k, us) && k <= SortKey(u)
    ensures AllAtLeast(k, InsertByKey(u, us))
    decreases |us|
  {
    if |us| > 0 && SortKey(u) > SortKey(us[0]) {
      InsertKeepsLowerBound(k, u, us[1..]);
    }
  }

  lemma SortedCons(x: UpdateItem, us: seq<UpdateItem>)
    requires Sorted(us) && AllAtLeast(SortKey(x), us)
    ensures Sorted([x] + us)
  {
    var r := [x] + us;
    forall i, j | 0 <= i < j < |r| ensures SortKey(r[i]) <= SortKey(r[j]) {
      assert r[j] == us[j - 1];
      if i > 0 { assert r[i] == us[i - 1]; }
    }
  }

  lemma {:induction false} InsertByKeyFacts(u: UpdateItem, us: seq<UpdateItem>)
    requires Sorted(us)
    ensures Sorted(InsertByKey(u, us))
    ensures multiset(InsertByKey(u, us)) == multiset(us) + multiset{u}
    decreases |us|
  {
    if |us| == 0 || SortKey(u) <= SortKey(us[0]) {
      SortedCons(u, us);
    } else {
      var tail := us[1..];
      InsertByKeyFacts(u, tail);
      assert us == [us[0]] + tail;
      assert Sorted(tail);
      InsertKeepsLowerBound(SortKey(us[0]), u, tail);
      SortedCons(us[0], InsertByKey(u, tail));
    }
  }

  /**
   * The order the layout processes updates in: sorted by the after-update
   * item index, and holding exactly the updates it was given.
   */
  lemma {:induction false} SortedByAfterItemFacts(us: seq<UpdateItem>)
    ensures Sorted(SortedByAfterItem(us))
    ensures multiset(SortedByAfterItem(us)) == multiset(us)
    decreases |us|
  {
    if |us| > 0 {
      SortedByAfterItemFacts(us[1..]);
      InsertByKeyFacts(us[0], SortedByAfterItem(us[1..]));
      assert us == [us[0]] + us[1..];
    }
  }

  /** In the processed order, every update without an after-update path comes before every update with one. */
  lemma DeletionsComeFirst(us: seq<UpdateItem>, i: nat, j: nat)
    requires i < |SortedByAfterItem(us)| && j < |SortedByAfterItem(us)|
    requires SortedByAfterItem(us)[i].indexPathAfterUpdate.Some?
    requires SortedByAfterItem(us)[j].indexPathAfterUpdate.None?
    ensures j < i
  {
    SortedByAfterItemFacts(us);
    var r := SortedByAfterItem(us);
    assert SortKey(r[j]) < SortKey(r[i]);
  }
}
