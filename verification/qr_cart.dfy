/** The cart page of the QR ordering flow (qr-cart.js): where the page goes
    on load, the quantity and remove buttons, the totals, and the order
    the confirm button posts. */
module QrCart {
  import opened Wrappers
  import opened Lists

  /** A cart entry as the menu page stored it; a missing preference or note
      is None. */
  datatype CartItem = CartItem(menuName: string, quantity: int, price: real, makingTime: int,
                               preference: Option<string>, notes: Option<string>)

  /** The pages the cart can send the browser to. */
  datatype Page = CartPage | MenuPage | TrackingPage

  /** The session values loadCartData reads; None and "" are both missing. */
  datatype Session = Session(cart: Option<string>, customer: Option<string>, room: Option<string>,
                             orderId: Option<string>, customerName: Option<string>, roomName: Option<string>)

  predicate Present(v: Option<string>) {
    v.Some? && v.value != ""
  }

  /** Where loadCartData sends the page: to tracking after a checkout whose
      cart is gone, to the menu when the cart, customer or room is missing
      or the cart text does not parse (`parsed` is None), and otherwise the
      cart is shown. */
  function LoadRoute(s: Session, parsed: Option<seq<CartItem>>): (p: Page)
    ensures p == TrackingPage <==>
      Present(s.orderId) && Present(s.customerName) && Present(s.roomName) && !Present(s.cart)
    ensures p == CartPage <==> Present(s.cart) && Present(s.customer) && Present(s.room) && parsed.Some?
  {
    if Present(s.orderId) && Present(s.customerName) && Present(s.roomName) && !Present(s.cart) then TrackingPage
    else if !Present(s.cart) || !Present(s.customer) || !Present(s.room) then MenuPage
    else if parsed.None? then MenuPage
    else CartPage
  }

  // ---------------------------------------------------------------------
  // Totals
  // ---------------------------------------------------------------------

  function TotalItems(cart: seq<CartItem>): int
    decreases |cart|
  {
    if cart == [] then 0 else TotalItems(cart[..|cart| - 1]) + cart[|cart| - 1].quantity
  }

  /** `item.price * item.quantity`. */
  function LinePrice(item: CartItem): real {
    item.price * item.quantity as real
  }

  function TotalPrice(cart: seq<CartItem>): real
    decreases |cart|
  {
    if cart == [] then 0.0 else TotalPrice(cart[..|cart| - 1]) + LinePrice(cart[|cart| - 1])
  }

  /** `Math.max(...cart.map(item => item.making_time), 0)`. */
  function EstimatedTime(cart: seq<CartItem>): (t: int)
    ensures t >= 0
    ensures forall k :: 0 <= k < |cart| ==> cart[k].makingTime <= t
    ensures t == 0 || exists k :: 0 <= k < |cart| && cart[k].makingTime == t
    decreases |cart|
  {
    if cart == [] then 0
    else
      var rest := EstimatedTime(cart[..|cart| - 1]);
      assert forall k :: 0 <= k < |cart| - 1 ==> cart[..|cart| - 1][k] == cart[k];
      if cart[|cart| - 1].makingTime > rest then cart[|cart| - 1].makingTime else rest
  }

  lemma {:induction false} TotalItemsAppend(a: seq<CartItem>, b: seq<CartItem>)
    ensures TotalItems(a + b) == TotalItems(a) + TotalItems(b)
    decreases |b|
  {
    if b == [] {
      assert a + b == a;
    } else {
      assert (a + b)[..|a + b| - 1] == a + b[..|b| - 1];
      TotalItemsAppend(a, b[..|b| - 1]);
    }
  }

  lemma {:induction false} TotalPriceAppend(a: seq<CartItem>, b: seq<CartItem>)
    ensures TotalPrice(a + b) == TotalPrice(a) + TotalPrice(b)
    decreases |b|
  {
    if b == [] {
      assert a + b == a;
    } else {
      assert (a + b)[..|a + b| - 1] == a + b[..|b| - 1];
      TotalPriceAppend(a, b[..|b| - 1]);
    }
  }

  /** Removing an entry takes exactly its quantity off the item total. */
  lemma TotalItemsWithout(cart: seq<CartItem>, idx: nat)
    requires idx < |cart|
    ensures TotalItems(cart[..idx] + cart[idx + 1..]) == TotalItems(cart) - cart[idx].quantity
  {
    var left, x, right := cart[..idx], cart[idx], cart[idx + 1..];
    var upTo := left + [x];
    SplitAt(cart, idx);
    TotalItemsAppend(upTo, right);
    assert TotalItems(upTo) == TotalItems(left) + x.quantity;
    TotalItemsAppend(left, right);
  }

  /** Removing an entry takes exactly its line price off the total price. */
  lemma TotalPriceWithout(cart: seq<CartItem>, idx: nat)
    requires idx < |cart|
    ensures TotalPrice(cart[..idx] + cart[idx + 1..]) == TotalPrice(cart) - LinePrice(cart[idx])
  {
    var left, x, right := cart[..idx], cart[idx], cart[idx + 1..];
    var upTo := left + [x];
    SplitAt(cart, idx);
    TotalPriceAppend(upTo, right);
    assert TotalPrice(upTo) == TotalPrice(left) + LinePrice(x);
    TotalPriceAppend(left, right);
  }

  /** Setting one entry's quantity moves the item total by the difference. */
  lemma TotalItemsUpdate(cart: seq<CartItem>, idx: nat, q: int)
    requires idx < |cart|
    ensures TotalItems(cart[idx := cart[idx].(quantity := q)]) == TotalItems(cart) + q - cart[idx].quantity
  {
    var c' := cart[idx := cart[idx].(quantity := q)];
    var left, right := cart[..idx], cart[idx + 1..];
    assert cart == (left + [cart[idx]]) + right;
    assert c' == (left + [c'[idx]]) + right;
    TotalItemsAppend(left + [cart[idx]], right);
    TotalItemsAppend(left + [c'[idx]], right);
    assert (left + [cart[idx]])[..|left|] == left;
    assert (left + [c'[idx]])[..|left|] == left;
  }

  /** An order line as posted. */
  datatype OrderLine = OrderLine(menuName: string, quantity: int, preference: string, notes: string, telegramId: string)

  /** One line per cart entry, in order, a missing preference or note sent
      as "". */
  function OrderLines(cart: seq<CartItem>, telegramId: string): (r: seq<OrderLine>)
    ensures |r| == |cart|
    ensures forall k :: 0 <= k < |cart| ==>
      r[k].menuName == cart[k].menuName && r[k].quantity == cart[k].quantity
      && r[k].preference == cart[k].preference.GetOr("") && r[k].notes == cart[k].notes.GetOr("")
      && r[k].telegramId == telegramId
  {
    seq(|cart|, k requires 0 <= k < |cart| =>
      OrderLine(cart[k].menuName, cart[k].quantity, cart[k].preference.GetOr(""), cart[k].notes.GetOr(""), telegramId))
  }

  /** `sessionStorage.getItem('telegram_id') || '0'`. */
  function TelegramId(stored: Option<string>): (t: string)
    ensures t != ""
    ensures Present(stored) ==> t == stored.value
  {
    if Present(stored) then stored.value else "0"
  }

  /** confirmOrder: nothing is sent from an empty cart (its button is
      disabled); otherwise one line per entry, under the stored Telegram id
      or "0". */
  function ConfirmOrder(cart: seq<CartItem>, storedTelegramId: Option<string>): (r: Option<seq<OrderLine>>)
    ensures r.None? <==> cart == []
    ensures r.Some? ==> |r.value| == |cart|
    ensures r.Some? ==> forall k :: 0 <= k < |cart| ==>
      r.value[k].menuName == cart[k].menuName && r.value[k].quantity == cart[k].quantity && r.value[k].telegramId != ""
  {
    if cart == [] then None else Some(OrderLines(cart, TelegramId(storedTelegramId)))
  }

  // ---------------------------------------------------------------------
  // The cart manager
  // ---------------------------------------------------------------------

  class CartManager {
    var cart: seq<CartItem>
    var customerName: string
    var roomName: string
    /** The copy of the cart kept in the session. */
    var stored: seq<CartItem>
    var page: Page

    constructor ()
      ensures cart == [] && stored == [] && customerName == "" && roomName == "" && page == CartPage
    {
      cart, stored, customerName, roomName, page := [], [], "", "", CartPage;
    }

    /** loadCartData: the route decides the page; the cart, customer and
        room are taken over only when the cart is shown. */
    method LoadCartData(s: Session, parsed: Option<seq<CartItem>>)
      modifies this
      ensures page == LoadRoute(s, parsed)
      ensures page == CartPage ==> cart == parsed.value && customerName == s.customer.value && roomName == s.room.value
      ensures page != CartPage ==> cart == old(cart) && customerName == old(customerName) && roomName == old(roomName)
      ensures stored == old(stored)
    {
      if Present(s.orderId) && Present(s.customerName) && Present(s.roomName) && !Present(s.cart) {
        page := TrackingPage;
        return;
      }
      if !Present(s.cart) || !Present(s.customer) || !Present(s.room) {
        page := MenuPage;
        return;
      }
      if parsed.None? {
        page := MenuPage;
        return;
      }
      cart := parsed.value;
      customerName := s.customer.value;
      roomName := s.room.value;
      page := CartPage;
    }

    /** removeItem: the entry goes, the rest keep their order, the session
        copy follows, and an emptied cart sends the page to the menu. */
    method RemoveItem(idx: nat)
      requires idx < |cart|
      modifies this
      ensures cart == old(cart)[..idx] + old(cart)[idx + 1..]
      ensures stored == cart
      ensures page == (if cart == [] then MenuPage else old(page))
      ensures TotalItems(cart) == TotalItems(old(cart)) - old(cart)[idx].quantity
      ensures TotalPrice(cart) == TotalPrice(old(cart)) - LinePrice(old(cart)[idx])
      ensures customerName == old(customerName) && roomName == old(roomName)
    {
      TotalItemsWithout(cart, idx);
      TotalPriceWithout(cart, idx);
      cart := cart[..idx] + cart[idx + 1..];
      stored := cart;
      if |cart| == 0 {
        page := MenuPage;
      }
    }

    /** updateQuantity: a new quantity of 0 or less removes the entry, and
        an emptied cart sends the page to the menu; otherwise the quantity
        is set, with no upper limit. */
    method UpdateQuantity(idx: nat, change: int)
      requires idx < |cart|
      modifies this
      ensures var q := old(cart)[idx].quantity + change;
        if q <= 0 then cart == old(cart)[..idx] + old(cart)[idx + 1..]
             && TotalItems(cart) == TotalItems(old(cart)) - old(cart)[idx].quantity
             && TotalPrice(cart) == TotalPrice(old(cart)) - LinePrice(old(cart)[idx])
        else cart == old(cart)[idx := old(cart)[idx].(quantity := q)]
             && TotalItems(cart) == TotalItems(old(cart)) + change
      ensures stored == cart
      ensures page == (if cart == [] then MenuPage else old(page))
      ensures (forall k :: 0 <= k < |old(cart)| ==> old(cart)[k].quantity >= 1)
              ==> forall k :: 0 <= k < |cart| ==> cart[k].quantity >= 1
      ensures customerName == old(customerName) && roomName == old(roomName)
    {
      var q := cart[idx].quantity + change;
      if q <= 0 {
        RemoveItem(idx);
        return;
      }
      TotalItemsUpdate(cart, idx, q);
      cart := cart[idx := cart[idx].(quantity := q)];
      stored := cart;
    }
  }
}
