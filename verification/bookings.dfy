/**
 * The booking table's client-side search: the cached list of rows and the
 * filter the "filter" button applies to it (free text, from-day, to-day).
 */
module Bookings {

  import opened Wrappers
  import opened Strings
  import opened Seqs

  /**
   * A row of `GET /api/bookings`.  The names may be null.  `time` is the row's
   * timestamp in milliseconds as `new Date(b.time).getTime()` gives it; `None`
   * stands for NaN, a time that does not parse.
   */
  datatype Booking = Booking(id: int, customerName: Option<string>, drinkName: Option<string>,
                             price: int, time: Option<int>)

  /**
   * The filter form: the raw search text, and for each date field that is
   * filled in the day bound in milliseconds (local midnight of the from-day;
   * 23:59:59.999 local on the to-day).
   */
  datatype Criteria = Criteria(query: string, fromStart: Option<int>, toEnd: Option<int>)

  /**
   * The search text as it is compared: trimmed, then lowercased.  It is empty,
   * and the text filter skipped, exactly when the typed text is blank.
   */
  function NormalizedQuery(query: string): (q: string)
    ensures |q| <= |query|
    ensures q == [] <==> AllWhitespace(query)
  {
    TrimEmptyIffBlank(query);
    ToLower(Trim(query))
  }

  /** Either name, lowercased (a null name counts as ""), contains `q`. */
  predicate TextMatches(b: Booking, q: string) {
    Contains(ToLower(b.customerName.GetOr("")), q) || Contains(ToLower(b.drinkName.GetOr("")), q)
  }

  /** NaN compares false, so a row without a valid time fails both bounds. */
  predicate OnOrAfter(b: Booking, start: int) {
    b.time.Some? && b.time.value >= start
  }

  predicate OnOrBefore(b: Booking, end: int) {
    b.time.Some? && b.time.value <= end
  }

  function TextTest(q: string): Booking -> bool {
    b => TextMatches(b, q)
  }

  function FromTest(start: int): Booking -> bool {
    b => OnOrAfter(b, start)
  }

  function ToTest(end: int): Booking -> bool {
    b => OnOrBefore(b, end)
  }

  /** One `if (…) filtered = filtered.filter(…)` step. */
  function Stage(s: seq<Booking>, active: bool, p: Booking -> bool): seq<Booking> {
    if active then Where(s, p) else s
  }

  /**
   * The filter button: starting from a copy of the cache, narrow by text
   * when the normalized query is non-empty, then by the from-day, then by
   * the to-day, each only when that field is filled in.
   */
  function FilterBookings(bookings: seq<Booking>, c: Criteria): seq<Booking> {
    var q := NormalizedQuery(c.query);
    var byText := Stage(bookings, q != [], TextTest(q));
    var byFrom := Stage(byText, c.fromStart.Some?, FromTest(c.fromStart.GetOr(0)));
    Stage(byFrom, c.toEnd.Some?, ToTest(c.toEnd.GetOr(0)))
  }

  /** Every criterion that is present holds; absent ones hold vacuously. */
  predicate Passes(b: Booking, c: Criteria) {
    var q := NormalizedQuery(c.query);
    (q != [] ==> TextMatches(b, q)) &&
    (c.fromStart.Some? ==> OnOrAfter(b, c.fromStart.value)) &&
    (c.toEnd.Some? ==> OnOrBefore(b, c.toEnd.value))
  }

  function PassesTest(c: Criteria): Booking -> bool {
    b => Passes(b, c)
  }

  function Unless(active: bool, p: Booking -> bool): Booking -> bool {
    b => !active || p(b)
  }

  function Both(p: Booking -> bool, q: Booking -> bool): Booking -> bool {
    b => p(b) && q(b)
  }

  lemma StageIsWhere(s: seq<Booking>, active: bool, p: Booking -> bool)
    ensures Stage(s, active, p) == Where(s, Unless(active, p))
  {
    if active {
      WhereWhere(s, p, (b: Booking) => true, Unless(active, p));
      WhereAll(Where(s, p), (b: Booking) => true);
    } else {
      WhereAll(s, Unless(active, p));
    }
  }

  /** The three steps of the filter button, each as a test that passes everything when its field is empty. */
  function TextStage(c: Criteria): Booking -> bool {
    Unless(NormalizedQuery(c.query) != [], TextTest(NormalizedQuery(c.query)))
  }

  function FromStage(c: Criteria): Booking -> bool {
    Unless(c.fromStart.Some?, FromTest(c.fromStart.GetOr(0)))
  }

  function ToStage(c: Criteria): Booking -> bool {
    Unless(c.toEnd.Some?, ToTest(c.toEnd.GetOr(0)))
  }

  /** The filter button is the three stages applied one after another. */
  lemma FilterIsStages(bookings: seq<Booking>, c: Criteria)
    ensures FilterBookings(bookings, c) == Where(Where(Where(bookings, TextStage(c)), FromStage(c)), ToStage(c))
  {
    var q := NormalizedQuery(c.query);
    var byText := Stage(bookings, q != [], TextTest(q));
    var byFrom := Stage(byText, c.fromStart.Some?, FromTest(c.fromStart.GetOr(0)));
    StageIsWhere(bookings, q != [], TextTest(q));
    StageIsWhere(byText, c.fromStart.Some?, FromTest(c.fromStart.GetOr(0)));
    StageIsWhere(byFrom, c.toEnd.Some?, ToTest(c.toEnd.GetOr(0)));
  }

  /** A row passes the criteria exactly when it passes all three stages. */
  lemma PassesIsStages(c: Criteria, b: Booking)
    ensures Both(TextStage(c), FromStage(c))(b) == (TextStage(c)(b) && FromStage(c)(b))
    ensures PassesTest(c)(b) == (Both(TextStage(c), FromStage(c))(b) && ToStage(c)(b))
  {
  }

  /** The chained filters equal one filter by the conjunction of the present criteria. */
  lemma FilterIsConjunction(bookings: seq<Booking>, c: Criteria)
    ensures FilterBookings(bookings, c) == Where(bookings, PassesTest(c))
  {
    var t1, t2, t3 := TextStage(c), FromStage(c), ToStage(c);
    FilterIsStages(bookings, c);
    forall i | 0 <= i < |bookings|
      ensures Both(t1, t2)(bookings[i]) == (t1(bookings[i]) && t2(bookings[i]))
      ensures PassesTest(c)(bookings[i]) == (Both(t1, t2)(bookings[i]) && t3(bookings[i]))
    {
      PassesIsStages(c, bookings[i]);
    }
    WhereWhere(bookings, t1, t2, Both(t1, t2));
    WhereWhere(bookings, Both(t1, t2), t3, PassesTest(c));
  }

  /**
   * The filter keeps exactly the rows that pass every present criterion, and
   * keeps them in cache order: the result is a subsequence of the cache.
   */
  lemma FilterSound(bookings: seq<Booking>, c: Criteria)
    ensures IsSubsequence(FilterBookings(bookings, c), bookings)
    ensures forall i :: 0 <= i < |FilterBookings(bookings, c)| ==> Passes(FilterBookings(bookings, c)[i], c)
    ensures forall i :: 0 <= i < |bookings| && Passes(bookings[i], c) ==> bookings[i] in FilterBookings(bookings, c)
  {
    FilterIsConjunction(bookings, c);
    WhereIsSubsequence(bookings, PassesTest(c));
  }

  /** A blank query and no dates leave the cache exactly as it is. */
  lemma NoCriteriaKeepsAll(bookings: seq<Booking>, c: Criteria)
    requires Trim(c.query) == [] && c.fromStart.None? && c.toEnd.None?
    ensures FilterBookings(bookings, c) == bookings
  {
    ToLowerEmpty(Trim(c.query));
  }

  /**
   * `clearFilterBtn`: the form is emptied and the table shows the cache as it
   * is.  The criteria it leaves behind select every row of any cache.
   */
  function ClearedCriteria(): (c: Criteria)
    ensures forall bookings :: FilterBookings(bookings, c) == bookings
  {
    var c := Criteria("", None, None);
    assert Trim("") == [];
    forall bookings ensures FilterBookings(bookings, c) == bookings {
      NoCriteriaKeepsAll(bookings, c);
    }
    c
  }

  /** With only a text query, a row is shown exactly when one of its names contains it, ignoring ASCII case. */
  lemma TextOnly(bookings: seq<Booking>, query: string)
    requires NormalizedQuery(query) != []
    ensures forall i :: 0 <= i < |bookings| ==>
      (bookings[i] in FilterBookings(bookings, Criteria(query, None, None)) <==>
       TextMatches(bookings[i], NormalizedQuery(query)))
  {
    var c := Criteria(query, None, None);
    FilterSound(bookings, c);
    forall i | 0 <= i < |bookings| && bookings[i] in FilterBookings(bookings, c)
      ensures TextMatches(bookings[i], NormalizedQuery(query))
    {
      var j :| 0 <= j < |FilterBookings(bookings, c)| && FilterBookings(bookings, c)[j] == bookings[i];
    }
  }

  lemma EmptyQuery()
    ensures NormalizedQuery("") == []
  {
    assert Trim("") == [];
  }

  /** With only the two days set, a row passes exactly when its time is valid and within both bounds. */
  lemma PassesDays(b: Booking, fromStart: int, toEnd: int)
    ensures Passes(b, Criteria("", Some(fromStart), Some(toEnd))) <==>
      b.time.Some? && fromStart <= b.time.value <= toEnd
  {
    EmptyQuery();
  }

  /** With both days set, every row shown lies within [fromStart, toEnd], both ends included. */
  lemma DayRange(bookings: seq<Booking>, fromStart: int, toEnd: int)
    ensures forall b :: b in FilterBookings(bookings, Criteria("", Some(fromStart), Some(toEnd))) ==>
      b.time.Some? && fromStart <= b.time.value <= toEnd
    ensures forall b :: b in bookings && b.time.Some? && fromStart <= b.time.value <= toEnd ==>
      b in FilterBookings(bookings, Criteria("", Some(fromStart), Some(toEnd)))
  {
    var c := Criteria("", Some(fromStart), Some(toEnd));
    var r := FilterBookings(bookings, c);
    FilterSound(bookings, c);
    forall b | b in r ensures b.time.Some? && fromStart <= b.time.value <= toEnd {
      var j :| 0 <= j < |r| && r[j] == b;
      assert Passes(r[j], c);
      PassesDays(b, fromStart, toEnd);
    }
    forall b | b in bookings && b.time.Some? && fromStart <= b.time.value <= toEnd
      ensures b in r
    {
      var j :| 0 <= j < |bookings| && bookings[j] == b;
      PassesDays(b, fromStart, toEnd);
      assert Passes(bookings[j], c);
    }
  }

  lemma LatteQuery()
    ensures NormalizedQuery(" Latte") == "latte"
  {
    assert " Latte" == " " + "Latte" + "";
    TrimSurrounded(" ", "Latte", "");
    LatteLower();
  }

  /** Lowercasing keeps every occurrence: where `s` holds `w`, `ToLower(s)` holds `ToLower(w)`. */
  lemma LowerKeepsOccurrence(s: string, w: string, i: int)
    requires OccursAt(s, w, i)
    ensures OccursAt(ToLower(s), ToLower(w), i)
  {
    var l, lw := ToLower(s), ToLower(w);
    forall j | 0 <= j < |w| ensures l[i..i + |w|][j] == lw[j] {
      assert s[i + j] == w[j];
    }
  }

  lemma LatteLower()
    ensures ToLower("Latte") == "latte"
  {
    var l := ToLower("Latte");
    assert l[0] == LowerChar('L');
  }

  /** The search is case-insensitive for the row: "latte" finds "Turmeric Latte (Haldi Doodh)". */
  lemma LatteMatches()
    ensures TextMatches(Booking(1, None, Some("Turmeric Latte (Haldi Doodh)"), 150, None), "latte")
  {
    var d := "Turmeric Latte (Haldi Doodh)";
    assert OccursAt(d, "Latte", 9);
    LowerKeepsOccurrence(d, "Latte", 9);
    LatteLower();
  }
}
