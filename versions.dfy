/**
 * The two cart screens side by side: the edit screen copies an added item
 * with its name trimmed and its price defaulted, the ordering screen copies
 * it raw. These lemmas say where the two agree and where they part.
 */
module Versions {
  import opened Js
  import opened Store
  import opened Cart
  import EditUI
  import OrderUI

  /** An item whose name is already trimmed and whose price is present is
      added to the cart identically by both screens. */
  lemma AddedAgreeOnCleanItems(prev: Cart, item: MenuItem, name: string)
    requires item.name == Some(name) && (name != [] ==> !IsSpace(name[0]) && !IsSpace(name[|name| - 1]))
    requires item.price.Some?
    ensures EditUI.Added(prev, item) == OrderUI.Added(prev, item)
  {
    TrimUnchanged(name);
    assert EditUI.Snapshot(item) == item;
  }

  /** Whatever the item, both screens reach the same cart total: the edit
      screen's default price 0 is the 0 a null price multiplies as. */
  lemma AddedTotalsAgree(prev: Cart, item: MenuItem)
    ensures Total(EditUI.Added(prev, item)) == Total(OrderUI.Added(prev, item))
  {
    var q := Qty(prev, item.id) + 1;
    TotalStore(prev, item.id, CartEntry(EditUI.Snapshot(item), q));
    TotalStore(prev, item.id, CartEntry(item, q));
    assert Line(CartEntry(EditUI.Snapshot(item), q)) == Line(CartEntry(item, q));
  }

  /** With an empty cart and the "all" category both screens list the whole
      menu, in menu order. */
  lemma FilteredAgreeOnEmptyCart(menu: seq<MenuItem>)
    ensures EditUI.Filtered(Some(menu), "all", map[]) == OrderUI.Filtered(Some(menu), Some("all")).value
  {
    EditUI.FilteredAllEmptyCart(Some(menu));
    OrderUI.FilteredSpec(menu, Some("all"));
  }

  /** A menu whose items all lack a category: the edit screen offers only
      "all", the ordering screen also a button for the missing category. */
  lemma CategoriesPartOnMissing(item: MenuItem)
    requires item.category.None?
    ensures EditUI.Categories([item]) == ["all"]
    ensures OrderUI.Categories(Some([item])) == [Some("all"), None]
  {
    OrderUI.CategoriesKeepMissing([item]);
    EditUI.CategoriesSpec([item]);
    assert !TruthyString([item][0].category);
  }
}
