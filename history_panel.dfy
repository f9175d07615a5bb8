/** `deleteItem` of components/HistoryPanel.tsx. */
module HistoryPanel {
  import opened Lists
  import opened Voices

  /** The history without the items whose id is `id`. */
  function DeleteItem(history: seq<HistoryItem>, id: string): (r: seq<HistoryItem>)
  {
    Filter(history, (item: HistoryItem) => item.id != id)
  }

  /** After a deletion no item with that id remains, every other item is kept
      as often as it was and in its original order, and the list never grows. */
  lemma DeleteItemSpec(history: seq<HistoryItem>, id: string)
    ensures var r := DeleteItem(history, id);
      && |r| <= |history|
      && (forall i :: 0 <= i < |r| ==> r[i].id != id)
      && (forall x: HistoryItem :: x.id != id ==> multiset(r)[x] == multiset(history)[x])
      && IsSubsequence(r, history)
  {
    FilterIsSubsequence(history, (item: HistoryItem) => item.id != id);
  }

  /** Deleting an id that no item carries leaves the list as it was. */
  lemma DeleteAbsent(history: seq<HistoryItem>, id: string)
    requires forall i :: 0 <= i < |history| ==> history[i].id != id
    ensures DeleteItem(history, id) == history
  {
    FilterKeepsAll(history, (item: HistoryItem) => item.id != id);
  }

  /** Deleting the same id twice is deleting it once. */
  lemma DeleteIdempotent(history: seq<HistoryItem>, id: string)
    ensures DeleteItem(DeleteItem(history, id), id) == DeleteItem(history, id)
  {
    FilterIdempotent(history, (item: HistoryItem) => item.id != id);
  }
}
