/**
  The catalog record shared by the item master page and the counter-sale form,
  the three sample records both screens start from, and the name/code search
  both screens run over them.
 */
module Catalog {
  import opened Seqs
  import opened Text

  /** One catalog item: code, name, the four GST rates (percent) and the unit price. */
  datatype Item = Item(id: int, code: string, name: string,
                       cgst: real, sgst: real, igst: real, cess: real, price: real)

  /** The three sample records (Laptop, Mouse, Keyboard). */
  const DummyItems: seq<Item> := [
    Item(1, "ITEM001", "Laptop", 9.0, 9.0, 0.0, 0.0, 50000.0),
    Item(2, "ITEM002", "Mouse", 9.0, 9.0, 0.0, 0.0, 500.0),
    Item(3, "ITEM003", "Keyboard", 9.0, 9.0, 0.0, 0.0, 1500.0)
  ]

  predicate IsRate(r: real) {
    0.0 <= r <= 100.0
  }

  /** The item form's rules: code and name required, rates within 0..100, price not negative. */
  predicate RecordValid(item: Item) {
    && item.code != "" && item.name != ""
    && IsRate(item.cgst) && IsRate(item.sgst) && IsRate(item.igst) && IsRate(item.cess)
    && item.price >= 0.0
  }

  /** The lower-cased name or the lower-cased code contains the lower-cased term. */
  predicate MatchesSearch(item: Item, term: string) {
    Includes(ToLower(item.name), ToLower(term)) || Includes(ToLower(item.code), ToLower(term))
  }

  /** The items matching `term`, in catalog order. */
  function SearchItems(items: seq<Item>, term: string): (r: seq<Item>)
    ensures forall x :: x in r <==> x in items && MatchesSearch(x, term)
  {
    Filter(items, x => MatchesSearch(x, term))
  }

  /** An empty term keeps every item, in order. */
  lemma EmptySearchKeepsAll(items: seq<Item>)
    ensures SearchItems(items, "") == items
  {
    forall i | 0 <= i < |items| ensures MatchesSearch(items[i], "") {
      IncludesEmpty(ToLower(items[i].name));
    }
    FilterKeepsAll(items, x => MatchesSearch(x, ""));
  }

  /** The search ignores the case of the term: "LAPTOP" and "laptop" keep the same items in the same order. */
  lemma SearchIgnoresTermCase(items: seq<Item>, term: string)
    ensures forall x :: MatchesSearch(x, ToLower(term)) <==> MatchesSearch(x, term)
    ensures SearchItems(items, ToLower(term)) == SearchItems(items, term)
  {
    ToLowerIdempotent(term);
    FilterAgreeing(items, x => MatchesSearch(x, ToLower(term)), x => MatchesSearch(x, term));
  }

  /** Searching a concatenation searches each part and keeps the parts in order. */
  lemma SearchAppend(a: seq<Item>, b: seq<Item>, term: string)
    ensures SearchItems(a + b, term) == SearchItems(a, term) + SearchItems(b, term)
  {
    FilterAppend(a, b, x => MatchesSearch(x, term));
  }

  lemma DummyItemsValid()
    ensures forall i :: 0 <= i < |DummyItems| ==> RecordValid(DummyItems[i])
  {
  }
}
