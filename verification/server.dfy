/**
 * The decisions of the booking server that are not plumbing: how the body of
 * `POST /api/bookings` is read and checked before the insert, what the
 * handler answers, and when the start-up schema fix renames `date` to `time`.
 * The database is a parameter: what the insert returned, or that it threw.
 */
module Server {

  import opened Wrappers

  /** A parsed JSON value, as `express.json()` hands it over. */
  datatype JsonValue =
    | Null
    | Bool(b: bool)
    | Number(n: real)
    | Str(s: string)
    | Arr(items: seq<JsonValue>)
    | Obj(fields: map<string, JsonValue>)

  /** A request body is a JSON object; a key it lacks reads as `undefined`, modelled as `None`. */
  type Body = map<string, JsonValue>

  function Get(body: Body, key: string): Option<JsonValue> {
    if key in body then Some(body[key]) else None
  }

  /** JavaScript truthiness: `undefined`, `null`, `false`, `0` and `""` are falsy. */
  predicate Truthy(v: Option<JsonValue>) {
    match v
    case None => false
    case Some(Null) => false
    case Some(Bool(b)) => b
    case Some(Number(n)) => n != 0.0
    case Some(Str(s)) => s != []
    case Some(Arr(_)) => true
    case Some(Obj(_)) => true
  }

  /** `a || b`: the first operand when it is truthy, the second otherwise. */
  function Or(a: Option<JsonValue>, b: Option<JsonValue>): (r: Option<JsonValue>)
    ensures Truthy(a) ==> r == a
    ensures !Truthy(a) ==> r == b
    ensures Truthy(r) <==> Truthy(a) || Truthy(b)
  {
    if Truthy(a) then a else b
  }

  /** `x == null`: loose equality holds for `null` and `undefined` only. */
  predicate IsNullish(v: Option<JsonValue>) {
    v.None? || v == Some(Null)
  }

  /** The values bound to `$1, $2, $3` of the insert. */
  datatype InsertArgs = InsertArgs(customerName: JsonValue, drinkName: JsonValue, price: JsonValue)

  /** The field values the handler settles on, snake_case first. */
  function CustomerName(body: Body): Option<JsonValue> {
    Or(Get(body, "customer_name"), Get(body, "customerName"))
  }

  function DrinkName(body: Body): Option<JsonValue> {
    Or(Get(body, "drink_name"), Get(body, "drinkName"))
  }

  /**
   * The guard before the insert: both names truthy and the price not
   * nullish.  `None` is the "Missing booking details" case.
   */
  function ParseBooking(body: Body): (r: Option<InsertArgs>)
    ensures r.None? <==> !Truthy(CustomerName(body)) || !Truthy(DrinkName(body)) || IsNullish(Get(body, "price"))
    ensures r.Some? ==> Some(r.value.customerName) == CustomerName(body)
    ensures r.Some? ==> Some(r.value.drinkName) == DrinkName(body)
    ensures r.Some? ==> Some(r.value.price) == Get(body, "price")
  {
    var customer := CustomerName(body);
    var drink := DrinkName(body);
    var price := Get(body, "price");
    if !Truthy(customer) || !Truthy(drink) || IsNullish(price) then None
    else Some(InsertArgs(customer.value, drink.value, price.value))
  }

  /** What `pool.query(INSERT … RETURNING *)` did: returned its first row, or threw. */
  datatype DbReply = Inserted(row: JsonValue) | DbError

  /** The HTTP answer: a status and a JSON body. */
  datatype Response = Response(status: int, body: JsonValue)

  function Message(text: string): JsonValue {
    Obj(map["message" := Str(text)])
  }

  /** One run of the POST handler: the insert it issued, if any, and its answer. */
  datatype PostRun = PostRun(insert: Option<InsertArgs>, response: Response)

  /**
   * The POST handler: a 400 without touching the database when a field is
   * missing, otherwise one insert answered by 201 with the inserted row, or
   * by 500 when the insert threw.
   */
  function PostBooking(body: Body, db: DbReply): (run: PostRun)
    ensures run.insert == ParseBooking(body)
    ensures run.insert.None? ==> run.response == Response(400, Message("Missing booking details"))
    ensures run.insert.Some? && db.Inserted? ==> run.response == Response(201, db.row)
    ensures run.insert.Some? && db.DbError? ==> run.response == Response(500, Message("Error creating booking"))
  {
    match ParseBooking(body)
    case None => PostRun(None, Response(400, Message("Missing booking details")))
    case Some(args) =>
      match db
      case Inserted(row) => PostRun(Some(args), Response(201, row))
      case DbError => PostRun(Some(args), Response(500, Message("Error creating booking")))
  }

  /** The body the client sends, with snake_case keys. */
  function SnakeBody(customer: string, drink: string, price: JsonValue): Body {
    map["customer_name" := Str(customer), "drink_name" := Str(drink), "price" := price]
  }

  /** The same fields with camelCase keys. */
  function CamelBody(customer: string, drink: string, price: JsonValue): Body {
    map["customerName" := Str(customer), "drinkName" := Str(drink), "price" := price]
  }

  /**
   * Both spellings are accepted alike: the same names and price lead to the
   * same insert and the same answer, whichever keys carry them.
   */
  lemma SnakeAndCamelAgree(customer: string, drink: string, price: JsonValue, db: DbReply)
    ensures PostBooking(SnakeBody(customer, drink, price), db) == PostBooking(CamelBody(customer, drink, price), db)
  {
    var s, c := SnakeBody(customer, drink, price), CamelBody(customer, drink, price);
    assert Get(s, "customerName") == None && Get(c, "customer_name") == None;
    assert Get(s, "drinkName") == None && Get(c, "drink_name") == None;
    if customer != [] && drink != [] {
      assert CustomerName(s) == CustomerName(c) && DrinkName(s) == DrinkName(c);
    } else {
      assert ParseBooking(s) == None && ParseBooking(c) == None;
    }
  }

  /**
   * A body with non-empty names is accepted with any price that is not null,
   * 0 included (the check is `price == null`, not truthiness); a null price
   * is refused.
   */
  lemma PriceZeroAccepted(customer: string, drink: string)
    requires customer != [] && drink != []
    ensures ParseBooking(SnakeBody(customer, drink, Number(0.0)))
         == Some(InsertArgs(Str(customer), Str(drink), Number(0.0)))
    ensures ParseBooking(SnakeBody(customer, drink, Null)) == None
  {
    assert Get(SnakeBody(customer, drink, Number(0.0)), "price") == Some(Number(0.0));
    assert Get(SnakeBody(customer, drink, Null), "price") == Some(Null);
  }

  /**
   * An empty snake_case name falls back to the camelCase one: `customer_name: ""`
   * next to `customerName: "Asha"` saves "Asha".
   */
  lemma EmptyFieldFallsBack(body: Body)
    requires Get(body, "customer_name") == Some(Str(""))
    ensures CustomerName(body) == Get(body, "customerName")
  {
  }

  /** A refused body never reaches the database, so what the database would have done does not matter. */
  lemma RefusalIgnoresDatabase(body: Body, db1: DbReply, db2: DbReply)
    requires ParseBooking(body).None?
    ensures PostBooking(body, db1) == PostBooking(body, db2)
    ensures PostBooking(body, db1).response.status == 400
  {
  }

  /**
   * The start-up schema fix renames `date` to `time` exactly when the column
   * list holds `date` and lacks `time`.
   */
  predicate NeedsRename(cols: seq<string>) {
    "date" in cols && "time" !in cols
  }

  /** How one statement of the fix ended: it went through, or it threw and the error was only logged. */
  datatype Outcome = Done | Threw

  /**
   * The columns after `fixColumnName`: the column query and the `ALTER TABLE`
   * each either go through or throw.  A thrown error is caught and logged, so
   * the table keeps its columns; otherwise the `date` column, if renamed, now
   * reads `time`.
   */
  function FixColumns(cols: seq<string>, listing: Outcome, alter: Outcome): (r: seq<string>)
    ensures |r| == |cols|
    ensures listing.Threw? || !NeedsRename(cols) || alter.Threw? ==> r == cols
    ensures listing.Done? && NeedsRename(cols) && alter.Done? ==> forall i :: 0 <= i < |cols| ==>
      r[i] == (if cols[i] == "date" then "time" else cols[i])
  {
    if listing.Done? && NeedsRename(cols) && alter.Done? then RenameDate(cols) else cols
  }

  function RenameDate(cols: seq<string>): (r: seq<string>)
    ensures |r| == |cols|
    ensures forall i :: 0 <= i < |cols| ==> r[i] == (if cols[i] == "date" then "time" else cols[i])
  {
    if cols == [] then []
    else
      assert forall i :: 1 <= i < |cols| ==> cols[1..][i - 1] == cols[i];
      [if cols[0] == "date" then "time" else cols[0]] + RenameDate(cols[1..])
  }

  /**
   * When both statements go through, a table that had `date` or `time` ends up
   * with a `time` column and no longer needs the fix, so a later run, whatever
   * its outcomes, changes nothing.
   */
  lemma FixColumnsSettles(cols: seq<string>, listing: Outcome, alter: Outcome)
    ensures ("date" in cols || "time" in cols) ==> "time" in FixColumns(cols, Done, Done)
    ensures !NeedsRename(FixColumns(cols, Done, Done))
    ensures FixColumns(FixColumns(cols, Done, Done), listing, alter) == FixColumns(cols, Done, Done)
  {
    var r := FixColumns(cols, Done, Done);
    if NeedsRename(cols) {
      var i :| 0 <= i < |cols| && cols[i] == "date";
      assert r[i] == "time";
    }
  }

  /** A failed rename leaves a table that still needs the fix, so the next start-up tries again. */
  lemma FailedRenameRetried(cols: seq<string>)
    requires NeedsRename(cols)
    ensures NeedsRename(FixColumns(cols, Done, Threw))
    ensures "time" in FixColumns(FixColumns(cols, Done, Threw), Done, Done)
  {
    FixColumnsSettles(cols, Done, Done);
  }
}
