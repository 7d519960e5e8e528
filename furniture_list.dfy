/** The furniture list of components/FurnitureList.tsx: only items with a
    link are shown, each as a card with its picture and a product anchor. */
module FurnitureList {
  import opened Wrappers
  import opened Seqs
  import opened Types

  /** `item => item.link` as a filter test: a link is present when non-empty. */
  predicate HasLink(item: Furniture) {
    item.link != ""
  }

  /** The items shown (FurnitureList.tsx:14-15). */
  function Shown(items: seq<Furniture>): (r: seq<Furniture>)
    ensures |r| <= |items|
    ensures forall i :: 0 <= i < |r| ==> HasLink(r[i])
  {
    Filter(items, HasLink)
  }

  /** Every item with a link is shown, and only the input's items are. */
  lemma ShownExactly(items: seq<Furniture>)
    ensures forall i :: 0 <= i < |items| && HasLink(items[i]) ==> items[i] in Shown(items)
    ensures forall x :: x in Shown(items) ==> x in items && HasLink(x)
  {
    var r := Shown(items);
    forall i | 0 <= i < |items| && HasLink(items[i])
      ensures items[i] in r
    {
      assert multiset(items)[items[i]] > 0;
      assert multiset(r)[items[i]] > 0;
    }
    forall x | x in r
      ensures x in items && HasLink(x)
    {
      assert multiset(r)[x] > 0;
    }
  }

  /** The shown items keep their input order: the list of a concatenation is
      the concatenation of the lists. */
  lemma ShownKeepsOrder(a: seq<Furniture>, b: seq<Furniture>)
    ensures Shown(a + b) == Shown(a) + Shown(b)
  {
    FilterAppend(a, b, HasLink);
  }

  /** A card: the picture handed to the fallback image, the texts, and the
      product anchor, which is rendered only for a link (FurnitureList.tsx:16-36). */
  datatype Card = Card(
    picture: Option<string>,
    name: string,
    price: string,
    description: string,
    anchor: Option<string>)

  function RenderCard(item: Furniture): Card {
    Card(item.imageUrl, item.name, item.price, item.description,
         if HasLink(item) then Some(item.link) else None)
  }

  /** The list as rendered. */
  function Render(items: seq<Furniture>): (cards: seq<Card>)
    ensures |cards| == |Shown(items)|
  {
    var shown := Shown(items);
    seq(|shown|, i requires 0 <= i < |shown| => RenderCard(shown[i]))
  }

  /** Every card has a product anchor, and it points at its item's link. */
  lemma EveryCardLinks(items: seq<Furniture>)
    ensures forall i :: 0 <= i < |Render(items)| ==>
      && Render(items)[i].anchor.Some?
      && Render(items)[i].anchor.value == Shown(items)[i].link != ""
  {
  }
}
