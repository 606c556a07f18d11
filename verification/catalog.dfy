/** The fixed menu of the client script and the lookups made on it. */
module Catalog {

  import opened Wrappers
  import opened Seqs
  import opened PropertyKeys

  /** A menu entry; the image URL is presentation only and is not kept. */
  datatype MenuItem = MenuItem(id: string, name: string, category: string, price: int)

  const MENU: seq<MenuItem> := [
    MenuItem("1", "Madras Filter Coffee", "filter-coffee", 120),
    MenuItem("2", "Elaichi Cappuccino", "masala", 170),
    MenuItem("3", "Turmeric Latte (Haldi Doodh)", "masala", 150),
    MenuItem("4", "Kapi Cold Brew (South Indian)", "cold", 190),
    MenuItem("5", "Cardamom Mocha", "masala", 180),
    MenuItem("6", "Masala Chai Latte", "masala", 110),
    MenuItem("7", "Paneer Tandoori Burger", "fusion", 220),
    MenuItem("8", "Spiced Aloo Tikki", "fusion", 130),
    MenuItem("9", "Masala Cold Brew (Chai Twist)", "cold", 200)
  ]

  /** Every id is an array-index key, so cart keys are visited in numeric order. */
  predicate CatalogOk(menu: seq<MenuItem>) {
    forall i :: 0 <= i < |menu| ==> IsIndexKey(menu[i].id)
  }

  lemma MenuIsCatalogOk()
    ensures CatalogOk(MENU)
  {
    forall i | 0 <= i < |MENU| ensures IsIndexKey(MENU[i].id) {
      assert |MENU[i].id| == 1 && '1' <= MENU[i].id[0] <= '9';
    }
  }

  /**
   * `MENU.find(m => m.id === id)`.  Written as its own recursion rather than
   * through `Find` with a lambda, so that the cart invariant, which every cart
   * proof unfolds, mentions no closure; `FindByIdIsFind` shows the two agree.
   */
  function FindById(menu: seq<MenuItem>, id: string): (r: Option<MenuItem>)
    ensures r.None? <==> forall i :: 0 <= i < |menu| ==> menu[i].id != id
    ensures r.Some? ==> r.value.id == id && r.value in menu
  {
    if menu == [] then None
    else if menu[0].id == id then Some(menu[0])
    else
      var r := FindById(menu[1..], id);
      assert forall i :: 1 <= i < |menu| ==> menu[i] == menu[1..][i - 1];
      r
  }

  function HasId(id: string): MenuItem -> bool {
    (m: MenuItem) => m.id == id
  }

  /** The lookup is `find` with the test "has this id". */
  lemma {:induction false} FindByIdIsFind(menu: seq<MenuItem>, id: string)
    ensures FindById(menu, id) == Find(menu, HasId(id))
  {
    if menu != [] && menu[0].id != id {
      FindByIdIsFind(menu[1..], id);
    }
  }

  /** The lookup returns the first item with that id. */
  lemma {:induction false} FindByIdFirst(menu: seq<MenuItem>, id: string, i: int)
    requires 0 <= i < |menu| && menu[i].id == id
    requires forall j :: 0 <= j < i ==> menu[j].id != id
    ensures FindById(menu, id) == Some(menu[i])
  {
    if i > 0 {
      FindByIdFirst(menu[1..], id, i - 1);
    }
  }

  /** `getPriceByName`: the price of the first item with that name, 0 when there is none. */
  function GetPriceByName(menu: seq<MenuItem>, drinkName: string): (price: int)
    ensures (forall i :: 0 <= i < |menu| ==> menu[i].name != drinkName) ==> price == 0
    ensures forall i | 0 <= i < |menu| && menu[i].name == drinkName &&
                       (forall j :: 0 <= j < i ==> menu[j].name != drinkName) :: price == menu[i].price
  {
    match Find(menu, (m: MenuItem) => m.name == drinkName)
    case Some(item) => item.price
    case None => 0
  }

  /**
   * The menu filter buttons: "all" shows the whole menu, any other value the
   * items of that category in menu order.
   */
  function MenuForFilter(menu: seq<MenuItem>, filter: string): (shown: seq<MenuItem>)
    ensures filter == "all" ==> shown == menu
    ensures filter != "all" ==> IsSubsequence(shown, menu)
    ensures filter != "all" ==> forall i :: 0 <= i < |shown| ==> shown[i].category == filter
    ensures filter != "all" ==> forall i :: 0 <= i < |menu| && menu[i].category == filter ==> menu[i] in shown
  {
    if filter == "all" then menu
    else
      var keep := (m: MenuItem) => m.category == filter;
      WhereIsSubsequence(menu, keep);
      Where(menu, keep)
  }
}
