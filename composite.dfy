/**
 * Composite: a composite shop item keeps an ordered list of child items and
 * is described and sold like a single item, by folding over its children.
 */
module Composite {

  /** The two leaf products. */
  datatype Product = Toy | ChocolateBar

  /** A shop item as a value: a leaf product, or a composite with its ordered
      children (which may themselves be composites). */
  datatype Item = Leaf(product: Product) | Composite(children: seq<Item>)

  /** The stock-room update a leaf issues when it is sold. */
  datatype StockUpdate = Sold(product: Product)

  /** A leaf's fixed description. */
  function ProductDescription(p: Product): (description: string)
  {
    match p
    case Toy => "a nice cuddly toy"
    case ChocolateBar => "a cheap chocolate bar"
  }

  /** getDescription of any item. */
  function Description(item: Item): (description: string)
    decreases item, 1
  {
    match item
    case Leaf(p) => ProductDescription(p)
    case Composite(children) => JoinDescriptions(children)
  }

  /** " and " followed by each child's description, in child order. */
  function JoinDescriptions(children: seq<Item>): (description: string)
    decreases children, 0
  {
    if children == [] then ""
    else JoinDescriptions(children[..|children| - 1]) + " and " + Description(children[|children| - 1])
  }

  /** The stock-room updates caused by notifyStockRoom on any item. */
  function StockUpdates(item: Item): (updates: seq<StockUpdate>)
    decreases item, 1
  {
    match item
    case Leaf(p) => [Sold(p)]
    case Composite(children) => JoinUpdates(children)
  }

  /** Each child's updates, in child order. */
  function JoinUpdates(children: seq<Item>): (updates: seq<StockUpdate>)
    decreases children, 0
  {
    if children == [] then []
    else JoinUpdates(children[..|children| - 1]) + StockUpdates(children[|children| - 1])
  }

  /** The leaf descriptions are the two fixed strings; an empty composite is
      described by the empty string. */
  lemma FixedDescriptions()
    ensures Description(Leaf(Toy)) == "a nice cuddly toy"
    ensures Description(Leaf(ChocolateBar)) == "a cheap chocolate bar"
    ensures Description(Composite([])) == ""
  {
  }

  /** Describing a composite splits along any split of its children. */
  lemma {:induction false} JoinDescriptionsAppend(xs: seq<Item>, ys: seq<Item>)
    ensures JoinDescriptions(xs + ys) == JoinDescriptions(xs) + JoinDescriptions(ys)
    decreases |ys|
  {
    if ys == [] {
      assert xs + ys == xs;
    } else {
      var last := ys[|ys| - 1];
      assert (xs + ys)[..|xs + ys| - 1] == xs + ys[..|ys| - 1];
      JoinDescriptionsAppend(xs, ys[..|ys| - 1]);
    }
  }

  /** Notifying a composite splits along any split of its children. */
  lemma {:induction false} JoinUpdatesAppend(xs: seq<Item>, ys: seq<Item>)
    ensures JoinUpdates(xs + ys) == JoinUpdates(xs) + JoinUpdates(ys)
    decreases |ys|
  {
    if ys == [] {
      assert xs + ys == xs;
    } else {
      assert (xs + ys)[..|xs + ys| - 1] == xs + ys[..|ys| - 1];
      JoinUpdatesAppend(xs, ys[..|ys| - 1]);
    }
  }

  /** A composite of leaves issues one update per leaf, in child order. */
  lemma {:induction false} FlatCompositeSellsEachLeafOnce(children: seq<Item>)
    requires forall i :: 0 <= i < |children| ==> children[i].Leaf?
    ensures |JoinUpdates(children)| == |children|
    ensures forall i :: 0 <= i < |children| ==> JoinUpdates(children)[i] == Sold(children[i].product)
    decreases |children|
  {
    if children != [] {
      var init := children[..|children| - 1];
      FlatCompositeSellsEachLeafOnce(init);
      assert JoinUpdates(children) == JoinUpdates(init) + [Sold(children[|children| - 1].product)];
    }
  }

  /** A composite of leaves is described by " and " and the description of each
      product it notifies the stock room about, in the same order. A nested
      composite breaks this: its own leading " and " is added again. */
  lemma {:induction false} FlatCompositeDescribesSoldProducts(children: seq<Item>)
    requires forall i :: 0 <= i < |children| ==> children[i].Leaf?
    ensures JoinDescriptions(children) == DescribeSold(JoinUpdates(children))
    decreases |children|
  {
    if children != [] {
      var init, last := children[..|children| - 1], children[|children| - 1];
      FlatCompositeDescribesSoldProducts(init);
      var u := Sold(last.product);
      assert JoinUpdates(children) == JoinUpdates(init) + [u];
      DescribeSoldLast(JoinUpdates(init), u);
      assert Description(last) == ProductDescription(u.product);
    }
  }

  /** " and " and the product description of each update, in order. */
  function DescribeSold(updates: seq<StockUpdate>): (description: string)
  {
    if updates == [] then ""
    else DescribeSold(updates[..|updates| - 1]) + " and " + ProductDescription(updates[|updates| - 1].product)
  }

  lemma DescribeSoldLast(updates: seq<StockUpdate>, u: StockUpdate)
    ensures DescribeSold(updates + [u]) == DescribeSold(updates) + " and " + ProductDescription(u.product)
  {
    assert (updates + [u])[..|updates|] == updates;
  }

  /** A composite nested as the only child adds one more leading " and ". */
  lemma NestedCompositeDescription(children: seq<Item>)
    ensures Description(Composite([Composite(children)])) == " and " + Description(Composite(children))
  {
    assert [Composite(children)][..0] == [];
    assert JoinDescriptions([Composite(children)]) == JoinDescriptions([]) + " and " + Description(Composite(children));
  }

  /** A composite with at least one child is described by a text that starts
      with " and "; only an empty composite gives "". */
  lemma {:induction false} NonEmptyDescriptionStartsWithAnd(children: seq<Item>)
    requires children != []
    ensures |JoinDescriptions(children)| >= 5 && JoinDescriptions(children)[..5] == " and "
    decreases |children|
  {
    var init := children[..|children| - 1];
    if init != [] {
      NonEmptyDescriptionStartsWithAnd(init);
    }
  }

  class CompositeShopItem {
    var items: seq<Item>

    /** A new composite has no children. */
    constructor ()
      ensures items == []
    {
      items := [];
    }

    /** This composite as an item value, to nest it inside another composite. */
    function AsItem(): (item: Item)
      reads this
    {
      Composite(items)
    }

    /** Append a child; earlier children keep their order. */
    method AddChild(item: Item)
      modifies this
      ensures items == old(items) + [item]
    {
      items := items + [item];
    }

    /** " and " followed by each child's description, in child order. */
    method GetDescription() returns (description: string)
      ensures description == Description(AsItem())
    {
      description := "";
      var i := 0;
      while i < |items|
        invariant 0 <= i <= |items|
        invariant description == JoinDescriptions(items[..i])
      {
        assert items[..i + 1][..i] == items[..i];
        description := description + " and " + Description(items[i]);
        i := i + 1;
      }
      assert items[..i] == items;
    }

    /** Notify each child, in child order; a nested composite notifies its own
        children in turn. */
    method NotifyStockRoom() returns (updates: seq<StockUpdate>)
      ensures updates == StockUpdates(AsItem())
    {
      updates := [];
      var i := 0;
      while i < |items|
        invariant 0 <= i <= |items|
        invariant updates == JoinUpdates(items[..i])
      {
        assert items[..i + 1][..i] == items[..i];
        updates := updates + StockUpdates(items[i]);
        i := i + 1;
      }
      assert items[..i] == items;
    }
  }

  /** Adding a child extends the description by " and " and the child's
      description, and the stock-room updates by the child's updates. */
  lemma AddChildExtends(children: seq<Item>, item: Item)
    ensures Description(Composite(children + [item])) == Description(Composite(children)) + " and " + Description(item)
    ensures StockUpdates(Composite(children + [item])) == StockUpdates(Composite(children)) + StockUpdates(item)
  {
    assert (children + [item])[..|children|] == children;
  }

  /** A composite of a toy then a chocolate bar, described. */
  lemma ToyAndBarDescription()
    ensures Description(Composite([Leaf(Toy), Leaf(ChocolateBar)])) == " and " + "a nice cuddly toy" + " and " + "a cheap chocolate bar"
  {
    TwoChildDescription(Leaf(Toy), Leaf(ChocolateBar));
    FixedDescriptions();
  }

  /** A composite of two children is " and " x " and " y. */
  lemma TwoChildDescription(x: Item, y: Item)
    ensures Description(Composite([x, y])) == " and " + Description(x) + " and " + Description(y)
  {
    AddChildExtends([], x);
    assert [] + [x] == [x];
    AddChildExtends([x], y);
    assert [x] + [y] == [x, y];
  }

  /** A composite of a toy then a chocolate bar, sold. */
  lemma ToyAndBarUpdates()
    ensures StockUpdates(Composite([Leaf(Toy), Leaf(ChocolateBar)])) == [Sold(Toy), Sold(ChocolateBar)]
  {
    var toy, bar := Leaf(Toy), Leaf(ChocolateBar);
    AddChildExtends([], toy);
    assert [] + [toy] == [toy];
    AddChildExtends([toy], bar);
    assert [toy] + [bar] == [toy, bar];
  }

  /** The demonstration: a composite of a toy and a chocolate bar. */
  method ToyAndBarScenario() returns (description: string, updates: seq<StockUpdate>)
    ensures description == " and " + "a nice cuddly toy" + " and " + "a cheap chocolate bar"
    ensures updates == [Sold(Toy), Sold(ChocolateBar)]
  {
    var comp := new CompositeShopItem();
    comp.AddChild(Leaf(Toy));
    comp.AddChild(Leaf(ChocolateBar));
    assert comp.items == [Leaf(Toy), Leaf(ChocolateBar)];
    ToyAndBarDescription();
    ToyAndBarUpdates();
    description := comp.GetDescription();
    updates := comp.NotifyStockRoom();
  }
}
