/** The gallery's fetch keeps one row per id
    (project/src/components/Gallery.tsx:23-27). The rows arrive sorted by
    their `order` column, ascending (lines 15-18). */
module Gallery {
  import opened Wrappers
  import opened Dedupe

  /** A row of the `gallery_items` table (project/src/types/supabase.ts:73-82). */
  datatype GalleryItem = GalleryItem(
    id: int, createdAt: string, title: string, description: string,
    imageUrl: string, category: string, order: int)

  function ItemId(item: GalleryItem): int { item.id }

  /** The fetched rows keyed by id in a Map, read back as its values. */
  function UniqueItems(data: seq<GalleryItem>): (items: seq<GalleryItem>)
    ensures Distinct(Ids(items, ItemId))
    ensures forall k :: k in Ids(data, ItemId) <==> k in Ids(items, ItemId)
    ensures |items| <= |data|
    ensures |items| == |data| <==> Distinct(Ids(data, ItemId))
    ensures forall i :: 0 <= i < |items| ==> LastWith(data, ItemId, items[i].id) == Some(items[i])
    ensures forall i, j :: 0 <= i < j < |items| ==>
      FirstIndex(Ids(data, ItemId), items[i].id) < FirstIndex(Ids(data, ItemId), items[j].id)
  {
    DedupeUniqueIds(data, ItemId);
    DedupeCoversIds(data, ItemId);
    DedupeLength(data, ItemId);
    DedupeKeepsLast(data, ItemId);
    DedupeFirstOrder(data, ItemId);
    DedupeById(data, ItemId)
  }

  predicate SortedByOrder(items: seq<GalleryItem>) {
    forall i, j :: 0 <= i < j < |items| ==> items[i].order <= items[j].order
  }

  /** Rows that already have distinct ids come through unchanged, so the
      query's `order` sort survives the de-duplication. */
  lemma DistinctItemsKeepSortOrder(data: seq<GalleryItem>)
    requires Distinct(Ids(data, ItemId)) && SortedByOrder(data)
    ensures UniqueItems(data) == data && SortedByOrder(UniqueItems(data))
  {
    DistinctUnchanged(data, ItemId);
  }

  /** With a repeated id the sort need not survive: the later row's value
      lands at the earlier row's place. Rows ordered 1, 2, 3 whose first and
      last share an id come out ordered 3, 2. */
  lemma RepeatedIdCanBreakSortOrder()
    ensures var data := [Row(1, 1), Row(2, 2), Row(1, 3)];
      SortedByOrder(data) && UniqueItems(data) == [Row(1, 3), Row(2, 2)] &&
      !SortedByOrder(UniqueItems(data))
  {
    var data := [Row(1, 1), Row(2, 2), Row(1, 3)];
    assert data[..2][..1] == [Row(1, 1)] && data[..2][..1][..0] == [];
    assert data[..2] == [Row(1, 1), Row(2, 2)];
    var m1 := OrderedMap([1], map[1 := Row(1, 1)]);
    assert Build(data[..2][..1], ItemId) == m1;
    var m2 := OrderedMap([1, 2], map[1 := Row(1, 1), 2 := Row(2, 2)]);
    assert Build(data[..2], ItemId) == m2;
    var m3 := OrderedMap([1, 2], map[1 := Row(1, 3), 2 := Row(2, 2)]);
    assert Build(data, ItemId) == m3;
    assert Values(m3) == [Row(1, 3), Row(2, 2)];
  }

  function Row(id: int, order: int): GalleryItem {
    GalleryItem(id, "", "", "", "", "", order)
  }

  /** De-duplicating the result again changes nothing. */
  lemma UniqueItemsIdempotent(data: seq<GalleryItem>)
    ensures UniqueItems(UniqueItems(data)) == UniqueItems(data)
  {
    DedupeIdempotent(data, ItemId);
  }
}
