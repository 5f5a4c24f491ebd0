/**
 * Delivery time of a mini-app order (bot.py, order branch of `handle_web_app_data`):
 * the multi-day text when some cart item is of the `pro` tier, one business day otherwise.
 */
module Delivery {
  import opened Wrappers

  /** One item of the order's `cart`; `tier` is `None` when the item has no `tier` key. */
  datatype CartItem = CartItem(name: string, price: int, tier: Option<string>)

  const MultiDay: string := "1-3 business days (customization may extend)"
  const OneDay: string := "1 business day"

  /**
   * `any(item.get('tier') == 'pro' for item in cart)`: it holds exactly when some item of
   * the cart has the `pro` tier; an item without a tier has none.
   */
  predicate HasPro(cart: seq<CartItem>)
    ensures HasPro(cart) <==> exists i :: 0 <= i < |cart| && cart[i].tier == Some("pro")
  {
    CartTail(cart);
    cart != [] && (cart[0].tier == Some("pro") || HasPro(cart[1..]))
  }

  /** The items after the first are those of `cart[1..]`, one position further on. */
  lemma CartTail(cart: seq<CartItem>)
    ensures forall i :: 1 <= i < |cart| ==> cart[i] == cart[1..][i - 1]
  {
  }

  /** The delivery time the invoice announces and the stored order carries. */
  function DeliveryTime(cart: seq<CartItem>): (d: string)
    ensures d == MultiDay || d == OneDay
    ensures d == MultiDay <==> exists i :: 0 <= i < |cart| && cart[i].tier == Some("pro")
  {
    if HasPro(cart) then MultiDay else OneDay
  }

  /** A cart of core items is delivered in one business day; one `pro` item switches to the multi-day text. */
  lemma DeliveryExamples()
    ensures DeliveryTime([CartItem("AI Support Core", 290, Some("core"))]) == OneDay
    ensures DeliveryTime([CartItem("AI Support Core", 290, Some("core")),
                          CartItem("Data Miner PRO", 750, Some("pro"))]) == MultiDay
  {
    var mixed := [CartItem("AI Support Core", 290, Some("core")), CartItem("Data Miner PRO", 750, Some("pro"))];
    assert mixed[1].tier == Some("pro");
  }
}
