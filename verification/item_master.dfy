/**
  The item master page: a table of catalog items with a search box, an add/edit
  dialog and a delete action. New items get the next id after the largest one;
  saving in edit mode rewrites the item with the edited id; ids stay unique.
 */
module ItemMaster {
  import opened Optional
  import opened Seqs
  import opened Catalog

  /** No two items share an id. */
  ghost predicate IdsUnique(items: seq<Item>) {
    Pairwise(items, (a: Item, b: Item) => a.id != b.id)
  }

  /** The largest id of a non-empty list (`Math.max` over the ids). */
  function MaxId(items: seq<Item>): (m: int)
    requires |items| > 0
    ensures forall i :: 0 <= i < |items| ==> items[i].id <= m
    ensures exists i :: 0 <= i < |items| && items[i].id == m
    decreases |items|
  {
    if |items| == 1 then items[0].id
    else
      var rest := MaxId(items[1..]);
      assert forall i :: 1 <= i < |items| ==> items[i] == items[1..][i - 1];
      if items[0].id > rest then items[0].id else rest
  }

  /** The id a new item receives: one more than the largest id, or 1 for an empty list. */
  function NextId(items: seq<Item>): (id: int)
    ensures forall i :: 0 <= i < |items| ==> items[i].id < id
    ensures items == [] ==> id == 1
    ensures items != [] ==> exists i :: 0 <= i < |items| && items[i].id == id - 1
  {
    if |items| > 0 then MaxId(items) + 1 else 1
  }

  /** The list after adding `data`: the old items, then `data` under the next id. */
  function AddItem(items: seq<Item>, data: Item): seq<Item> {
    items + [data.(id := NextId(items))]
  }

  /** The list after saving `data` over the item with id `editId`: that item takes the new fields, keeping its id. */
  function SaveEdited(items: seq<Item>, editId: int, data: Item): (r: seq<Item>)
    ensures |r| == |items|
    ensures forall i :: 0 <= i < |items| ==> r[i].id == items[i].id
    ensures forall i :: 0 <= i < |items| && items[i].id != editId ==> r[i] == items[i]
    ensures forall i :: 0 <= i < |items| && items[i].id == editId ==> r[i] == data.(id := editId)
  {
    seq(|items|, i requires 0 <= i < |items| =>
      if items[i].id == editId then data.(id := items[i].id) else items[i])
  }

  /** The list after deleting id `id`. */
  function DeleteItem(items: seq<Item>, id: int): (r: seq<Item>)
    ensures forall x :: x in r <==> x in items && x.id != id
  {
    Filter(items, (x: Item) => x.id != id)
  }

  /** Adding appends one item whose id no existing item has, and keeps ids unique. */
  lemma AddKeepsIdsUnique(items: seq<Item>, data: Item)
    requires IdsUnique(items)
    ensures var r := AddItem(items, data);
            && |r| == |items| + 1 && r[..|items|] == items
            && r[|items|] == data.(id := NextId(items))
            && (forall i :: 0 <= i < |items| ==> items[i].id != r[|items|].id)
            && IdsUnique(r)
  {
    var r := AddItem(items, data);
    assert r[..|items|] == items;
    forall i, j | 0 <= i < j < |r| ensures r[i].id != r[j].id {
      if j < |items| {
        assert r[i] == items[i] && r[j] == items[j];
      } else {
        assert r[i] == items[i];
      }
    }
  }

  /** Saving an edit keeps every id, so ids stay unique. */
  lemma SaveEditedKeepsIdsUnique(items: seq<Item>, editId: int, data: Item)
    requires IdsUnique(items)
    ensures IdsUnique(SaveEdited(items, editId, data))
  {
    var r := SaveEdited(items, editId, data);
    forall i, j | 0 <= i < j < |r| ensures r[i].id != r[j].id {
      assert r[i].id == items[i].id && r[j].id == items[j].id;
    }
  }

  /** With unique ids, saving over item `k` replaces exactly that item, under its own id. */
  lemma SaveEditedReplacesOne(items: seq<Item>, k: nat, data: Item)
    requires IdsUnique(items) && k < |items|
    ensures var r := SaveEdited(items, items[k].id, data);
            && r[k] == data.(id := items[k].id)
            && forall j :: 0 <= j < |items| && j != k ==> r[j] == items[j]
  {
    forall j | 0 <= j < |items| && j != k ensures items[j].id != items[k].id {
      if j < k {
        assert items[j].id != items[k].id;
      } else {
        assert items[k].id != items[j].id;
      }
    }
  }

  /** Deleting keeps ids unique. */
  lemma DeleteKeepsIdsUnique(items: seq<Item>, id: int)
    requires IdsUnique(items)
    ensures IdsUnique(DeleteItem(items, id))
  {
    FilterPairwise(items, (x: Item) => x.id != id, (a: Item, b: Item) => a.id != b.id);
  }

  /** Deleting from a concatenation deletes from each part: the remaining items keep their order. */
  lemma DeleteKeepsOrder(a: seq<Item>, b: seq<Item>, id: int)
    ensures DeleteItem(a + b, id) == DeleteItem(a, id) + DeleteItem(b, id)
  {
    FilterAppend(a, b, (x: Item) => x.id != id);
  }

  /** The page state: the item list, the dialog, the search term and the item being edited. */
  class ItemMasterPage {
    var items: seq<Item>
    var openAddModal: bool
    var searchTerm: string
    var editItem: Option<Item>

    ghost predicate Valid()
      reads this
    {
      IdsUnique(items)
    }

    constructor ()
      ensures Valid()
      ensures items == DummyItems && !openAddModal && searchTerm == "" && editItem == None
    {
      items := DummyItems;
      openAddModal := false;
      searchTerm := "";
      editItem := None;
    }

    /** The rows shown in the table. */
    function FilteredItems(): (r: seq<Item>)
      reads this
      ensures forall x :: x in r <==> x in items && MatchesSearch(x, searchTerm)
      ensures r == SearchItems(items, searchTerm)
    {
      SearchItems(items, searchTerm)
    }

    method SetSearchTerm(term: string)
      modifies this
      ensures searchTerm == term
      ensures items == old(items) && openAddModal == old(openAddModal) && editItem == old(editItem)
    {
      searchTerm := term;
    }

    method HandleAddItem(data: Item)
      requires Valid()
      modifies this
      ensures Valid()
      ensures items == AddItem(old(items), data)
      ensures openAddModal == old(openAddModal) && searchTerm == old(searchTerm) && editItem == old(editItem)
    {
      AddKeepsIdsUnique(items, data);
      items := AddItem(items, data);
    }

    /** The edit action of a row: remember the item and open the dialog. */
    method HandleEditItem(item: Item)
      modifies this
      ensures editItem == Some(item) && openAddModal
      ensures items == old(items) && searchTerm == old(searchTerm)
    {
      editItem := Some(item);
      openAddModal := true;
    }

    /** The "Add Item" button: leave edit mode and open the dialog. */
    method OpenAddDialog()
      modifies this
      ensures editItem == None && openAddModal
      ensures items == old(items) && searchTerm == old(searchTerm)
    {
      editItem := None;
      openAddModal := true;
    }

    method CloseDialog()
      modifies this
      ensures !openAddModal
      ensures items == old(items) && searchTerm == old(searchTerm) && editItem == old(editItem)
    {
      openAddModal := false;
    }

    /** The dialog's submit: in edit mode rewrite the edited item and leave edit mode, otherwise add. */
    method HandleSaveItem(data: Item)
      requires Valid()
      modifies this
      ensures Valid()
      ensures old(editItem).Some? ==> items == SaveEdited(old(items), old(editItem).value.id, data)
      ensures old(editItem).None? ==> items == AddItem(old(items), data)
      ensures editItem == None
      ensures openAddModal == old(openAddModal) && searchTerm == old(searchTerm)
    {
      if editItem.Some? {
        SaveEditedKeepsIdsUnique(items, editItem.value.id, data);
        items := SaveEdited(items, editItem.value.id, data);
        editItem := None;
      } else {
        HandleAddItem(data);
      }
    }

    method HandleDeleteItem(id: int)
      requires Valid()
      modifies this
      ensures Valid()
      ensures items == DeleteItem(old(items), id)
      ensures openAddModal == old(openAddModal) && searchTerm == old(searchTerm) && editItem == old(editItem)
    {
      DeleteKeepsIdsUnique(items, id);
      items := DeleteItem(items, id);
    }
  }
}
