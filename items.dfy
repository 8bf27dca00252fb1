/**
 * A user's item list: an ordered sequence of `{id, text}` records, appended to by
 * the add-item handler and filtered by the delete-item handler.
 */
module Items {
  import opened Text

  /** One list entry; `id` is the creation timestamp the caller supplies. */
  datatype Item = Item(id: int, text: string)

  /** No item of `items` carries `id`. */
  predicate FreshId(items: seq<Item>, id: int)
  {
    forall i :: 0 <= i < |items| ==> items[i].id != id
  }

  /** Item identifiers are pairwise distinct. */
  predicate UniqueIds(items: seq<Item>)
  {
    forall i, j :: 0 <= i < j < |items| ==> items[i].id != items[j].id
  }

  /** Every stored text is non-empty and already trimmed. */
  predicate TextsTrimmed(items: seq<Item>)
  {
    forall i :: 0 <= i < |items| ==> items[i].text != [] && Trim(items[i].text) == items[i].text
  }

  /**
   * The list after submitting `text` with identifier `id`: unchanged when the
   * trimmed text is empty, otherwise the old list followed by one item holding
   * the trimmed text.
   */
  function AddItem(items: seq<Item>, id: int, text: string): (r: seq<Item>)
    ensures AllWhitespace(text) ==> r == items
    ensures !AllWhitespace(text) ==>
      && |r| == |items| + 1
      && r[..|items|] == items
      && r[|items|].id == id
      && r[|items|].text != []
      && r[|items|].text == Trim(text)
  {
    TrimEmptyIff(text);
    var t := Trim(text);
    if t == [] then items else items + [Item(id, t)]
  }

  /** `items.filter(item => item.id !== id)`. */
  function DeleteItem(items: seq<Item>, id: int): (r: seq<Item>)
    ensures |r| <= |items|
    ensures forall it :: it in r <==> it in items && it.id != id
    ensures FreshId(items, id) ==> r == items
  {
    if items == [] then []
    else if items[0].id == id then DeleteItem(items[1..], id)
    else [items[0]] + DeleteItem(items[1..], id)
  }

  /** Filtering distributes over concatenation, so the kept items keep their order. */
  lemma {:induction false} DeleteItemAppend(a: seq<Item>, b: seq<Item>, id: int)
    ensures DeleteItem(a + b, id) == DeleteItem(a, id) + DeleteItem(b, id)
  {
    if a != [] {
      assert (a + b)[1..] == a[1..] + b;
      DeleteItemAppend(a[1..], b, id);
    } else {
      assert a + b == b;
    }
  }

  /** Deleting an id twice is deleting it once. */
  lemma DeleteItemIdempotent(items: seq<Item>, id: int)
    ensures DeleteItem(DeleteItem(items, id), id) == DeleteItem(items, id)
  {
  }

  /** Adding an item under a fresh id and deleting that id gives back the old list. */
  lemma AddThenDelete(items: seq<Item>, id: int, text: string)
    requires FreshId(items, id)
    ensures DeleteItem(AddItem(items, id, text), id) == items
  {
    var t := Trim(text);
    if t != [] {
      TrimEmptyIff(text);
      DeleteItemAppend(items, [Item(id, t)], id);
      assert DeleteItem([Item(id, t)], id) == [];
    }
  }

  /** Filtering keeps identifiers pairwise distinct. */
  lemma {:induction false} DeleteItemKeepsUniqueIds(items: seq<Item>, id: int)
    requires UniqueIds(items)
    ensures UniqueIds(DeleteItem(items, id))
  {
    if items != [] {
      var rest := DeleteItem(items[1..], id);
      DeleteItemKeepsUniqueIds(items[1..], id);
      if items[0].id != id {
        forall j | 0 <= j < |rest| ensures rest[j].id != items[0].id {
          assert rest[j] in items[1..];
        }
      }
    }
  }

  /** Adding under a fresh id keeps identifiers pairwise distinct. */
  lemma AddItemKeepsUniqueIds(items: seq<Item>, id: int, text: string)
    requires UniqueIds(items) && FreshId(items, id)
    ensures UniqueIds(AddItem(items, id, text))
  {
  }

  /** Every text the add-item handler stores is non-empty and trimmed. */
  lemma AddItemKeepsTextsTrimmed(items: seq<Item>, id: int, text: string)
    requires TextsTrimmed(items)
    ensures TextsTrimmed(AddItem(items, id, text))
  {
  }

  /** Filtering keeps every remaining text non-empty and trimmed. */
  lemma DeleteItemKeepsTextsTrimmed(items: seq<Item>, id: int)
    requires TextsTrimmed(items)
    ensures TextsTrimmed(DeleteItem(items, id))
  {
    var r := DeleteItem(items, id);
    forall i | 0 <= i < |r| ensures r[i].text != [] && Trim(r[i].text) == r[i].text {
      assert r[i] in items;
    }
  }
}
