/**
 * The page state of the client script: the `cart` object the menu buttons
 * change in place, and `latestBookings`, the cached server list that the
 * booking filter works on.  The network is a parameter: the replies the
 * order POSTs get and the reply of the bookings refresh.
 */
module Session {

  import opened Wrappers
  import opened PropertyKeys
  import opened Catalog
  import opened Cart
  import opened Checkout
  import opened Bookings
  import opened Seqs

  /** What `updateCartUI` shows: the badge count and the total amount. */
  datatype CartSummary = CartSummary(itemCount: int, amount: int)

  /**
   * How `GET /api/bookings` ended: a response with its status and, when the
   * body parsed, its rows, or a thrown error.
   */
  datatype FetchReply = Fetched(status: int, rows: seq<Booking>) | FetchError

  /** `res.ok`: a status in the 200 range. */
  predicate IsOk(reply: FetchReply) {
    reply.Fetched? && 200 <= reply.status <= 299
  }

  /**
   * The cache after `loadBooking` got `reply`: the rows of an ok response,
   * otherwise the cache as it was (a non-ok status is thrown and caught, like
   * a network error).
   */
  function Reloaded(cached: seq<Booking>, reply: FetchReply): (rows: seq<Booking>)
    ensures IsOk(reply) ==> rows == reply.rows
    ensures !IsOk(reply) ==> rows == cached
  {
    if IsOk(reply) then reply.rows else cached
  }

  class Session {
    const catalog: seq<MenuItem>
    var cart: Lines
    var latestBookings: seq<Booking>

    /** The cart invariant of `Cart.WellFormed` over this page's menu. */
    ghost predicate Valid()
      reads this
    {
      WellFormed(catalog, cart)
    }

    /** A fresh page: empty cart, nothing loaded yet. */
    constructor (menu: seq<MenuItem>)
      requires CatalogOk(menu)
      ensures catalog == menu && cart == map[] && latestBookings == []
      ensures Valid()
    {
      catalog := menu;
      cart := map[];
      latestBookings := [];
    }

    /**
     * The totals of `updateCartUI`: one pass over the lines in `for…in`
     * order, adding up quantities and price times quantity.
     */
    method Totals() returns (s: CartSummary)
      requires AllIndexKeys(cart.Keys)
      ensures s == CartSummary(TotalQty(cart), TotalAmount(cart))
    {
      var rest := cart;
      var count, total := 0, 0;
      while rest != map[]
        invariant AllIndexKeys(rest.Keys)
        invariant count + TotalQty(rest) == TotalQty(cart)
        invariant total + TotalAmount(rest) == TotalAmount(cart)
        decreases |rest|
      {
        SmallestExists(rest.Keys);
        var id :| IsSmallest(id, rest.Keys);
        var c := rest[id];
        count := count + c.qty;
        total := total + c.item.price * c.qty;
        SumByRemove(rest, id, Quantity);
        SumByRemove(rest, id, Amount);
        rest := rest - {id};
      }
      s := CartSummary(count, total);
    }

    /**
     * `changeQty(id, delta)`: the new cart is computed by `ChangeLines`; an
     * ignored call leaves it as it was and shows nothing (`shown` is `None`
     * on the two early returns), any other call shows the new totals.
     */
    method ChangeQty(id: string, delta: int) returns (shown: Option<CartSummary>)
      requires Valid()
      modifies this
      ensures Valid()
      ensures cart == Changed(catalog, old(cart), id, delta)
      ensures latestBookings == old(latestBookings)
      ensures shown.None? <==> FindById(catalog, id).None? || (id !in old(cart) && delta <= 0)
      ensures AllIndexKeys(cart.Keys) && (shown.Some? ==> shown.value == CartSummary(TotalQty(cart), TotalAmount(cart)))
    {
      var lines, handled := ChangeLines(catalog, cart, id, delta);
      ChangedWellFormed(catalog, cart, id, delta);
      WellFormedKeys(catalog, lines);
      cart := lines;
      if handled {
        var s := Totals();
        shown := Some(s);
      } else {
        shown := None;
      }
    }

    /** The clear button: the cart becomes empty and the totals shown are 0. */
    method ClearCart() returns (shown: CartSummary)
      requires Valid()
      modifies this
      ensures Valid() && cart == map[] && latestBookings == old(latestBookings)
      ensures shown == CartSummary(0, 0)
    {
      cart := map[];
      shown := Totals();
    }

    /**
     * `loadBooking`: an ok response replaces the cache wholesale; a non-ok
     * status or a thrown error is logged and leaves it as it was.
     */
    method LoadBooking(reply: FetchReply)
      modifies this
      ensures cart == old(cart)
      ensures latestBookings == Reloaded(old(latestBookings), reply)
    {
      if IsOk(reply) {
        latestBookings := reply.rows;
      }
    }

    /**
     * The checkout button.  After the two guards, the lines are posted one
     * at a time in `for…in` order; `replies(i)` is how the i-th POST ended.
     * A thrown error ends the handler at once: the cart is kept and the
     * posts already made stay made.  Otherwise, whatever the statuses, the
     * bookings are refreshed from `refresh` and the cart is emptied.
     */
    method Checkout(name: Option<string>, replies: nat -> Reply, refresh: FetchReply) returns (run: CheckoutRun)
      requires Valid()
      modifies this
      ensures Valid()
      ensures AllIndexKeys(old(cart).Keys) && run == CheckoutSpec(old(cart), name, replies)
      ensures Page(cart, latestBookings) == AfterCheckout(Page(old(cart), old(latestBookings)), run.outcome, refresh)
    {
      WellFormedKeys(catalog, cart);
      run := PlaceOrder(cart, name, replies);
      var after := AfterCheckout(Page(cart, latestBookings), run.outcome, refresh);
      AfterCheckoutWellFormed(catalog, Page(cart, latestBookings), run.outcome, refresh);
      cart, latestBookings := after.cart, after.bookings;
    }
  }

  /** The two pieces of page state a checkout can change. */
  datatype Page = Page(cart: Lines, bookings: seq<Booking>)

  /**
   * The page after a checkout that ended with `outcome`: a saved order empties
   * the cart and reloads the list from `refresh`; any other outcome leaves both
   * as they were.
   */
  function AfterCheckout(before: Page, outcome: CheckoutOutcome, refresh: FetchReply): (after: Page)
    ensures outcome != OrderSaved ==> after == before
    ensures outcome == OrderSaved ==> after.cart == map[]
    ensures outcome == OrderSaved && IsOk(refresh) ==> after.bookings == refresh.rows
    ensures outcome == OrderSaved && !IsOk(refresh) ==> after.bookings == before.bookings
  {
    if outcome != OrderSaved then before
    else Page(map[], Reloaded(before.bookings, refresh))
  }

  /** A checkout keeps the cart invariant: the cart is either kept or emptied. */
  lemma AfterCheckoutWellFormed(catalog: seq<MenuItem>, before: Page, outcome: CheckoutOutcome, refresh: FetchReply)
    requires WellFormed(catalog, before.cart)
    ensures WellFormed(catalog, AfterCheckout(before, outcome, refresh).cart)
  {
  }

  /**
   * The part of the checkout handler that talks to the server: the two
   * guards, then the posting loop.  It touches no page state; `Checkout`
   * applies the outcome.
   */
  method PlaceOrder(lines: Lines, name: Option<string>, replies: nat -> Reply) returns (run: CheckoutRun)
    requires AllIndexKeys(lines.Keys)
    ensures run == CheckoutSpec(lines, name, replies)
  {
    var pre := Precheck(|lines|, name);
    if pre.Failure? {
      return CheckoutRun([], pre.error);
    }
    var sent, threw := PostLines(lines, pre.value, replies);
    run := CheckoutRun(sent, if threw then SaveFailed else OrderSaved);
  }

  /**
   * The `for…in` loop of the checkout handler: post the line with the
   * smallest pending key, one at a time, and stop at the first request that
   * throws.  `threw` says whether one did; `sent` is every body posted,
   * the one that threw included.
   */
  method PostLines(lines: Lines, customer: string, replies: nat -> Reply)
    returns (sent: seq<OrderRequest>, threw: bool)
    requires AllIndexKeys(lines.Keys)
    ensures var plan := OrderPlan(lines, customer);
      var k := FirstNetworkError(replies, |plan|);
      threw == (k < |plan|) && sent == (if threw then plan[..k + 1] else plan)
  {
    var ks := KeysInOrder(lines.Keys);
    ghost var plan := OrderPlan(lines, customer);
    assert plan == Requests(customer, lines, ks);
    RequestsIndex(customer, lines, ks);
    sent := [];
    var i := 0;
    while i < |ks|
      invariant i <= |ks| == |plan|
      invariant sent == plan[..i]
      invariant NoThrowBefore(replies, i)
    {
      var request := RequestFor(customer, lines[ks[i]]);
      assert plan[i] == request;
      TakeNext(plan, i);
      sent := sent + [request];
      if replies(i).NetworkError? {
        FirstNetworkErrorAt(replies, |plan|, i);
        return sent, true;
      }
      NoThrowExtends(replies, i);
      i := i + 1;
    }
    assert sent == plan;
    FirstNetworkErrorNone(replies, |plan|);
    threw := false;
  }

  /**
   * The steps of `changeQty` on the cart value: ignore an unknown id, and a
   * non-positive delta for an id without a line; otherwise create the line at
   * 0 if needed, add `delta`, and delete the line when its quantity is no
   * longer positive.  `handled` is false on the two early returns.
   */
  method ChangeLines(catalog: seq<MenuItem>, lines: Lines, id: string, delta: int)
    returns (result: Lines, handled: bool)
    ensures result == Changed(catalog, lines, id, delta)
    ensures !handled <==> FindById(catalog, id).None? || (id !in lines && delta <= 0)
  {
    var menuItem := FindById(catalog, id);
    if menuItem.None? {
      return lines, false;
    }
    result := lines;
    if id !in result {
      if delta <= 0 {
        return lines, false;
      }
      result := result[id := Line(menuItem.value, 0)];
    }
    ghost var line := result[id];
    assert line == if id in lines then lines[id] else Line(menuItem.value, 0);
    result := result[id := result[id].(qty := result[id].qty + delta)];
    assert result == lines[id := line.(qty := line.qty + delta)];
    if result[id].qty <= 0 {
      result := result - {id};
      assert result == lines - {id};
    }
    handled := true;
  }

  /** None of the first `n` requests threw. */
  ghost predicate NoThrowBefore(replies: nat -> Reply, n: nat) {
    forall j :: 0 <= j < n ==> !replies(j).NetworkError?
  }

  lemma NoThrowExtends(replies: nat -> Reply, n: nat)
    requires NoThrowBefore(replies, n) && !replies(n).NetworkError?
    ensures NoThrowBefore(replies, n + 1)
  {
  }

  /** A thrown reply with none before it is the first thrown reply. */
  lemma FirstNetworkErrorAt(replies: nat -> Reply, n: nat, i: nat)
    requires i < n && NoThrowBefore(replies, i) && replies(i).NetworkError?
    ensures FirstNetworkError(replies, n) == i
  {
  }

  /** With no thrown error among the first `n` replies, the first error index is `n`. */
  lemma FirstNetworkErrorNone(replies: nat -> Reply, n: nat)
    requires forall j :: 0 <= j < n ==> !replies(j).NetworkError?
    ensures FirstNetworkError(replies, n) == n
  {
  }
}
