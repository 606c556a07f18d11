/**
 * The checkout button handler of the client script, on values: the guards,
 * the list of POST bodies it sends one after another, and how a thrown
 * network error ends the loop.  `Session.Session.Checkout` runs it on the
 * live cart.
 */
module Checkout {

  import opened Wrappers
  import opened Strings
  import opened PropertyKeys
  import opened Catalog
  import opened Cart

  /** The JSON body of one order POST: `{customer_name, drink_name, price}`. */
  datatype OrderRequest = OrderRequest(customerName: string, drinkName: string, price: int)

  /**
   * How one `await fetch(...)` ended: it resolved with some HTTP status (any
   * status, since `res.ok` is not looked at), or it threw.
   */
  datatype Reply = Responded(status: int) | NetworkError

  /** The alert a checkout ends with. */
  datatype CheckoutOutcome = CartEmpty | NameRequired | OrderSaved | SaveFailed

  /** What one checkout did: the POST bodies it sent, in order, and how it ended. */
  datatype CheckoutRun = CheckoutRun(attempted: seq<OrderRequest>, outcome: CheckoutOutcome)

  /**
   * The two guards before any request.  `name` is what `prompt` returned
   * (`None` when the dialog was cancelled).  On success the result is the
   * trimmed name every request carries.
   */
  function Precheck(lineCount: nat, name: Option<string>): (r: Result<string, CheckoutOutcome>)
    ensures lineCount == 0 ==> r == Failure(CartEmpty)
    ensures lineCount > 0 && name.None? ==> r == Failure(NameRequired)
    ensures lineCount > 0 && name.Some? ==>
      (r == Failure(NameRequired) <==> forall i :: 0 <= i < |name.value| ==> IsWhitespace(name.value[i]))
    ensures r.Success? ==> name.Some? && r.value == Trim(name.value) && r.value != []
    ensures lineCount > 0 && name.Some? && !AllWhitespace(name.value) ==> r == Success(Trim(name.value))
  {
    if lineCount == 0 then Failure(CartEmpty)
    else if name.None? then Failure(NameRequired)
    else
      TrimEmptyIffBlank(name.value);
      if Trim(name.value) == [] then Failure(NameRequired) else Success(Trim(name.value))
  }

  /** The body posted for one cart line: the line's price is unit price times quantity. */
  function RequestFor(customer: string, line: Line): OrderRequest {
    OrderRequest(customer, line.item.name, line.item.price * line.qty)
  }

  /** The bodies for the lines at keys `ks`, in that order. */
  function Requests(customer: string, lines: Lines, ks: seq<string>): (r: seq<OrderRequest>)
    requires forall k :: k in ks ==> k in lines
    ensures |r| == |ks|
  {
    if ks == [] then [] else [RequestFor(customer, lines[ks[0]])] + Requests(customer, lines, ks[1..])
  }

  /** The i-th body is the body for the line at the i-th key. */
  lemma {:induction false} RequestsIndex(customer: string, lines: Lines, ks: seq<string>)
    requires forall k :: k in ks ==> k in lines
    ensures forall i :: 0 <= i < |ks| ==> Requests(customer, lines, ks)[i] == RequestFor(customer, lines[ks[i]])
  {
    if ks != [] {
      RequestsIndex(customer, lines, ks[1..]);
      assert forall i :: 1 <= i < |ks| ==> ks[1..][i - 1] == ks[i];
    }
  }

  /** Every body the loop would post if no request threw: one per line, in `for…in` order. */
  ghost function OrderPlan(lines: Lines, customer: string): seq<OrderRequest>
    requires AllIndexKeys(lines.Keys)
  {
    Requests(customer, lines, SortedKeys(lines.Keys))
  }

  /** The index of the first of the first `n` replies that is a thrown error, or `n`. */
  function FirstNetworkError(replies: nat -> Reply, n: nat): (k: nat)
    ensures k <= n
    ensures forall j :: 0 <= j < k ==> !replies(j).NetworkError?
    ensures k < n ==> replies(k).NetworkError?
  {
    FirstNetworkErrorFrom(replies, 0, n)
  }

  function FirstNetworkErrorFrom(replies: nat -> Reply, from: nat, n: nat): (k: nat)
    requires from <= n
    ensures from <= k <= n
    ensures forall j :: from <= j < k ==> !replies(j).NetworkError?
    ensures k < n ==> replies(k).NetworkError?
    decreases n - from
  {
    if from == n then n
    else if replies(from).NetworkError? then from
    else FirstNetworkErrorFrom(replies, from + 1, n)
  }

  /**
   * The whole handler.  After the guards it posts the plan one body at a
   * time; the first request that throws ends the loop (that request was
   * attempted, those before it are not withdrawn) and the alert says the save
   * failed.  If none throws, the order counts as saved whatever the statuses
   * were.
   */
  ghost function CheckoutSpec(lines: Lines, name: Option<string>, replies: nat -> Reply): CheckoutRun
    requires AllIndexKeys(lines.Keys)
  {
    match Precheck(|lines|, name)
    case Failure(e) => CheckoutRun([], e)
    case Success(customer) =>
      var plan := OrderPlan(lines, customer);
      var k := FirstNetworkError(replies, |plan|);
      if k < |plan| then CheckoutRun(plan[..k + 1], SaveFailed) else CheckoutRun(plan, OrderSaved)
  }

  /**
   * The plan has exactly one body per cart line: the keys are visited in
   * strictly ascending order (so none twice, and `SortedKeys` visits every
   * key of the cart), and the i-th body belongs to the line with the i-th
   * smallest key, carrying the trimmed name, the item's name and price times
   * quantity.
   */
  lemma OrderPlanOnePerLine(lines: Lines, customer: string)
    requires AllIndexKeys(lines.Keys)
    ensures |OrderPlan(lines, customer)| == |lines|
    ensures StrictlyAscending(SortedKeys(lines.Keys))
    ensures forall i :: 0 <= i < |lines| ==>
      SortedKeys(lines.Keys)[i] in lines &&
      OrderPlan(lines, customer)[i] == RequestFor(customer, lines[SortedKeys(lines.Keys)[i]])
  {
    var ks := SortedKeys(lines.Keys);
    assert OrderPlan(lines, customer) == Requests(customer, lines, ks);
    assert |ks| == |lines.Keys| == |lines|;
    SortedKeysAscending(lines.Keys);
    RequestsIndex(customer, lines, ks);
  }

  /** An empty cart or a missing/blank name sends nothing. */
  lemma GuardsSendNothing(lines: Lines, name: Option<string>, replies: nat -> Reply)
    requires AllIndexKeys(lines.Keys)
    requires lines == map[] || name.None? || Trim(name.value) == []
    ensures CheckoutSpec(lines, name, replies).attempted == []
    ensures CheckoutSpec(lines, name, replies).outcome == (if lines == map[] then CartEmpty else NameRequired)
  {
    var pre := Precheck(|lines|, name);
    assert pre.Failure? && pre.error == (if lines == map[] then CartEmpty else NameRequired) by {
      if lines != map[] {
        assert lines.Keys != {};
        if name.Some? {
          TrimEmptyIffBlank(name.value);
        }
      }
    }
  }

  /**
   * A checkout that gets past the guards sends a prefix of the plan.  It is
   * the whole plan exactly when no request threw, and then the order counts
   * as saved; otherwise the last body sent is the one whose request threw.
   */
  lemma CheckoutSendsPlanPrefix(lines: Lines, name: Option<string>, replies: nat -> Reply)
    requires AllIndexKeys(lines.Keys)
    requires lines != map[] && name.Some? && Trim(name.value) != []
    ensures var run := CheckoutSpec(lines, name, replies);
      var plan := OrderPlan(lines, Trim(name.value));
      0 < |run.attempted| <= |plan| && run.attempted == plan[..|run.attempted|] &&
      (run.outcome == OrderSaved <==> forall i :: 0 <= i < |plan| ==> !replies(i).NetworkError?) &&
      (run.outcome == OrderSaved ==> run.attempted == plan) &&
      (run.outcome == SaveFailed ==> replies(|run.attempted| - 1).NetworkError?)
  {
    var customer := Trim(name.value);
    assert |lines| > 0 by {
      assert lines.Keys != {};
    }
    assert Precheck(|lines|, name) == Success(customer) by {
      TrimEmptyIffBlank(name.value);
    }
    var plan := OrderPlan(lines, customer);
    assert |plan| == |lines| by {
      assert |lines.Keys| == |lines|;
    }
    var k := FirstNetworkError(replies, |plan|);
    assert CheckoutSpec(lines, name, replies) ==
      if k < |plan| then CheckoutRun(plan[..k + 1], SaveFailed) else CheckoutRun(plan, OrderSaved);
  }

  /**
   * Nothing is rolled back: after a failed checkout the cart is kept, so a
   * second checkout whose requests all go through posts again every body the
   * first one already sent.
   */
  lemma RetryResendsAttempted(lines: Lines, name: Option<string>, first: nat -> Reply, second: nat -> Reply)
    requires AllIndexKeys(lines.Keys)
    requires CheckoutSpec(lines, name, first).outcome == SaveFailed
    requires forall i :: !second(i).NetworkError?
    ensures var sent := CheckoutSpec(lines, name, first).attempted;
      var again := CheckoutSpec(lines, name, second).attempted;
      sent != [] && |sent| <= |again| && again[..|sent|] == sent
  {
    assert lines != map[] && name.Some? && Trim(name.value) != [] by {
      if lines == map[] || name.None? || Trim(name.value) == [] {
        GuardsSendNothing(lines, name, first);
      }
    }
    CheckoutSendsPlanPrefix(lines, name, first);
    CheckoutSendsPlanPrefix(lines, name, second);
  }

  lemma {:induction false} FirstNetworkErrorFromAgrees(r1: nat -> Reply, r2: nat -> Reply, from: nat, n: nat)
    requires from <= n
    requires forall i :: r1(i).NetworkError? == r2(i).NetworkError?
    ensures FirstNetworkErrorFrom(r1, from, n) == FirstNetworkErrorFrom(r2, from, n)
    decreases n - from
  {
    if from < n {
      FirstNetworkErrorFromAgrees(r1, r2, from + 1, n);
    }
  }

  /**
   * The HTTP status of a reply never matters: two runs whose requests throw
   * at the same places send the same bodies and end the same way, so a 400
   * or 500 reply does not stop the checkout.
   */
  lemma CheckoutIgnoresStatus(lines: Lines, name: Option<string>, r1: nat -> Reply, r2: nat -> Reply)
    requires AllIndexKeys(lines.Keys)
    requires forall i :: r1(i).NetworkError? == r2(i).NetworkError?
    ensures CheckoutSpec(lines, name, r1) == CheckoutSpec(lines, name, r2)
  {
    match Precheck(|lines|, name)
    case Failure(_) =>
    case Success(customer) =>
      FirstNetworkErrorFromAgrees(r1, r2, 0, |OrderPlan(lines, customer)|);
  }

  /** Every request answered with a plain 201 Created. */
  function AllCreated(i: nat): Reply {
    Responded(201)
  }

  lemma TrimAsha()
    ensures Trim(" Asha ") == "Asha"
  {
    assert " Asha " == " " + "Asha" + " ";
    TrimSurrounded(" ", "Asha", " ");
  }

  lemma SingleKeyOrder(id: string)
    requires IsIndexKey(id)
    ensures AllIndexKeys({id}) && SortedKeys({id}) == [id]
  {
    var ks := SortedKeys({id});
    assert |ks| == 1 && id in ks;
  }

  /** Asha orders two Elaichi Cappuccinos: one body, priced 2 x 170, and the order is saved. */
  lemma AshaExample()
    ensures AllIndexKeys(map["2" := Line(MENU[1], 2)].Keys)
    ensures CheckoutSpec(map["2" := Line(MENU[1], 2)], Some(" Asha "), AllCreated)
         == CheckoutRun([OrderRequest("Asha", "Elaichi Cappuccino", 340)], OrderSaved)
  {
    var item := MENU[1];
    assert item.name == "Elaichi Cappuccino" && item.price == 170;
    var lines := map["2" := Line(item, 2)];
    assert lines.Keys == {"2"} && |lines| == 1;
    assert IsIndexKey("2");
    SingleKeyOrder("2");
    TrimAsha();
    assert Precheck(|lines|, Some(" Asha ")) == Success("Asha");
    var plan := OrderPlan(lines, "Asha");
    assert plan == Requests("Asha", lines, ["2"]);
    assert |plan| == 1 && plan[0] == OrderRequest("Asha", "Elaichi Cappuccino", 340);
    assert FirstNetworkErrorFrom(AllCreated, 1, 1) == 1;
    assert FirstNetworkError(AllCreated, 1) == 1;
  }
}
