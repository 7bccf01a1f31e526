/** The ingredient analysis of the report page (report.js): the flavour
    mapping, the choice of the done orders and their menus, the
    consumption computed from recipes and flavours, and the per-order
    ingredient usage. */
module ReportConsumption {
  import opened Wrappers
  import opened Text
  import opened Lists

  // ---------------------------------------------------------------------
  // Ingredient uses and their sums
  // ---------------------------------------------------------------------

  /** A recipe line or a flavour mapping line: an ingredient and the amount
      one serving takes (the unit is not modelled). */
  datatype Use = Use(ingredientId: int, quantity: real)

  /** The amount the uses take of one ingredient. */
  function Amount(uses: seq<Use>, ing: int): real
    decreases |uses|
  {
    if uses == [] then 0.0
    else Amount(uses[..|uses| - 1], ing) + (if uses[|uses| - 1].ingredientId == ing then uses[|uses| - 1].quantity else 0.0)
  }

  /** An amount times a quantity. */
  function Scaled(amount: real, qty: real): real {
    amount * qty
  }

  /** What the uses take of one ingredient for a quantity of servings,
      line by line. */
  function ScaledAmount(uses: seq<Use>, ing: int, qty: real): real
    decreases |uses|
  {
    if uses == [] then 0.0
    else ScaledAmount(uses[..|uses| - 1], ing, qty) + (if uses[|uses| - 1].ingredientId == ing then Scaled(uses[|uses| - 1].quantity, qty) else 0.0)
  }

  function Get<K>(m: map<K, real>, k: K): real {
    if k in m then m[k] else 0.0
  }

  /** `acc[id].totalQuantity += use.quantity * qty` for each use in order. */
  function Accumulate(acc: map<int, real>, uses: seq<Use>, qty: real): map<int, real>
    decreases |uses|
  {
    if uses == [] then acc
    else
      var before := Accumulate(acc, uses[..|uses| - 1], qty);
      var u := uses[|uses| - 1];
      before[u.ingredientId := Get(before, u.ingredientId) + Scaled(u.quantity, qty)]
  }

  lemma Distributes(a: real, b: real, q: real)
    ensures Scaled(a + b, q) == Scaled(a, q) + Scaled(b, q)
  {
  }

  /** Taking the uses line by line for a quantity takes their amount
      per serving times the quantity. */
  lemma {:induction false} ScaledAmountIsScaled(uses: seq<Use>, ing: int, qty: real)
    ensures ScaledAmount(uses, ing, qty) == Scaled(Amount(uses, ing), qty)
    decreases |uses|
  {
    if uses != [] {
      var init, u := uses[..|uses| - 1], uses[|uses| - 1];
      ScaledAmountIsScaled(init, ing, qty);
      if u.ingredientId == ing {
        Distributes(Amount(init, ing), u.quantity, qty);
      } else {
        Distributes(Amount(init, ing), 0.0, qty);
      }
    }
  }

  /** Each ingredient receives what the uses take of it. */
  lemma {:induction false} AccumulateGet(acc: map<int, real>, uses: seq<Use>, qty: real, ing: int)
    ensures Get(Accumulate(acc, uses, qty), ing) == Get(acc, ing) + ScaledAmount(uses, ing, qty)
    decreases |uses|
  {
    if uses != [] {
      AccumulateGet(acc, uses[..|uses| - 1], qty, ing);
    }
  }

  /** Entries appear exactly for the ingredients the uses name. */
  lemma {:induction false} AccumulateKeys(acc: map<int, real>, uses: seq<Use>, qty: real)
    ensures forall ing :: ing in Accumulate(acc, uses, qty) <==> ing in acc || exists u :: u in uses && u.ingredientId == ing
    decreases |uses|
  {
    if uses != [] {
      var init, u := uses[..|uses| - 1], uses[|uses| - 1];
      AccumulateKeys(acc, init, qty);
      assert forall x :: x in uses <==> x in init || x == u;
    }
  }

  /** Both at once, for every ingredient. */
  lemma AccumulateAdds(acc: map<int, real>, uses: seq<Use>, qty: real)
    ensures forall ing :: Get(Accumulate(acc, uses, qty), ing) == Get(acc, ing) + ScaledAmount(uses, ing, qty)
    ensures forall ing :: ing in Accumulate(acc, uses, qty) <==> ing in acc || exists u :: u in uses && u.ingredientId == ing
  {
    forall ing ensures Get(Accumulate(acc, uses, qty), ing) == Get(acc, ing) + ScaledAmount(uses, ing, qty) {
      AccumulateGet(acc, uses, qty, ing);
    }
    AccumulateKeys(acc, uses, qty);
  }

  /** The loop over a list of uses. */
  method AddUses(acc: map<int, real>, uses: seq<Use>, qty: real) returns (acc': map<int, real>)
    ensures acc' == Accumulate(acc, uses, qty)
  {
    acc' := acc;
    for k := 0 to |uses|
      invariant acc' == Accumulate(acc, uses[..k], qty)
    {
      assert uses[..k + 1][..k] == uses[..k];
      var u := uses[k];
      acc' := acc'[u.ingredientId := Get(acc', u.ingredientId) + Scaled(u.quantity, qty)];
    }
    assert uses[..|uses|] == uses;
  }

  // ---------------------------------------------------------------------
  // The flavour mapping
  // ---------------------------------------------------------------------

  /** A mapping row, its fields already taken from whichever name the
      service used: the flavour name ("" when none), the ingredient id
      (None when none) and the amount per serving (0 when not a number). */
  datatype Mapping = Mapping(flavorName: string, ingredientId: Option<int>, quantity: real)

  /** The rows that are kept: a name, an id that is not 0, and a positive
      amount. */
  predicate Usable(m: Mapping) {
    Lower(m.flavorName) != "" && m.ingredientId.Some? && m.ingredientId.value != 0 && m.quantity > 0.0
  }

  function UseOf(m: Mapping): Use
    requires m.ingredientId.Some?
  {
    Use(m.ingredientId.value, m.quantity)
  }

  function AddMapping(fm: map<string, seq<Use>>, m: Mapping): map<string, seq<Use>> {
    if !Usable(m) then fm
    else
      var k := Lower(m.flavorName);
      fm[k := (if k in fm then fm[k] else []) + [UseOf(m)]]
  }

  /** flavorMap after the rows in order. */
  function FlavorMap(ms: seq<Mapping>): map<string, seq<Use>>
    decreases |ms|
  {
    if ms == [] then map[] else AddMapping(FlavorMap(ms[..|ms| - 1]), ms[|ms| - 1])
  }

  /** The uses of the kept rows whose lower-cased name is k, in order. */
  function UsesFor(ms: seq<Mapping>, k: string): seq<Use>
    decreases |ms|
  {
    if ms == [] then []
    else
      var m := ms[|ms| - 1];
      UsesFor(ms[..|ms| - 1], k) + (if Usable(m) && Lower(m.flavorName) == k then [UseOf(m)] else [])
  }

  /** A flavour is in the map exactly when a kept row names it, and its
      list holds the uses of those rows in order. */
  lemma {:induction false} FlavorMapCollects(ms: seq<Mapping>)
    ensures forall k :: k in FlavorMap(ms) <==> UsesFor(ms, k) != []
    ensures forall k :: k in FlavorMap(ms) ==> FlavorMap(ms)[k] == UsesFor(ms, k)
    decreases |ms|
  {
    if ms != [] {
      FlavorMapCollects(ms[..|ms| - 1]);
    }
  }

  /** Every key is a non-empty lower-case name, and every use has an id
      other than 0 and a positive amount. */
  lemma {:induction false} FlavorMapClean(ms: seq<Mapping>)
    ensures forall k :: k in FlavorMap(ms) ==> k != "" && Lower(k) == k
    ensures forall k, u :: k in FlavorMap(ms) && u in FlavorMap(ms)[k] ==> u.ingredientId != 0 && u.quantity > 0.0
    decreases |ms|
  {
    if ms != [] {
      FlavorMapClean(ms[..|ms| - 1]);
      LowerIdempotent(ms[|ms| - 1].flavorName);
    }
  }

  /** The loop that builds flavorMap. */
  method BuildFlavorMap(ms: seq<Mapping>) returns (fm: map<string, seq<Use>>)
    ensures fm == FlavorMap(ms)
  {
    fm := map[];
    for k := 0 to |ms|
      invariant fm == FlavorMap(ms[..k])
    {
      assert ms[..k + 1][..k] == ms[..k];
      var m := ms[k];
      var fname := Lower(m.flavorName);
      if fname == "" || m.ingredientId.None? || m.ingredientId.value == 0 || m.quantity <= 0.0 {
        continue;
      }
      if fname !in fm {
        fm := fm[fname := []];
      }
      fm := fm[fname := fm[fname] + [Use(m.ingredientId.value, m.quantity)]];
    }
    assert ms[..|ms|] == ms;
  }

  // ---------------------------------------------------------------------
  // Done orders and their menus
  // ---------------------------------------------------------------------

  /** An order item: its menu name ("" when none), its quantity (0 when
      not a number), its trimmed-before-use preference, and the flavour
      text getItemFlavorRaw finds in it ("" when none). */
  datatype Item = Item(menuName: string, quantity: real, preference: string, flavorRaw: string)

  /** time_done: absent, a text Date cannot read, or a moment. */
  datatype TimeDone = Missing | Unreadable | At(moment: int)

  datatype KitchenOrder = KitchenOrder(status: string, timeDone: TimeDone, items: seq<Item>)

  /** The filter of the done orders; the range ends are optional. A
      time_done that cannot be read fails no comparison and is kept. */
  predicate DoneInRange(o: KitchenOrder, start: Option<int>, end: Option<int>) {
    o.status == "done"
    && ((start.None? && end.None?)
        || (!o.timeDone.Missing?
            && (start.None? || !o.timeDone.At? || o.timeDone.moment >= start.value)
            && (end.None? || !o.timeDone.At? || o.timeDone.moment <= end.value)))
  }

  function DoneOrders(orders: seq<KitchenOrder>, start: Option<int>, end: Option<int>): (r: seq<KitchenOrder>)
    ensures forall o :: o in r <==> o in orders && DoneInRange(o, start, end)
    ensures forall o :: multiset(r)[o] == if DoneInRange(o, start, end) then multiset(orders)[o] else 0
    ensures Subsequence(r, orders)
    ensures |r| <= |orders|
    decreases |orders|
  {
    if orders == [] then []
    else
      var init, o := orders[..|orders| - 1], orders[|orders| - 1];
      assert orders == init + [o];
      assert multiset(orders) == multiset(init) + multiset{o};
      assert forall x :: x in orders <==> x in init || x == o;
      var kept := DoneOrders(init, start, end);
      if DoneInRange(o, start, end) then
        assert (kept + [o])[..|kept|] == kept;
        assert multiset(kept + [o]) == multiset(kept) + multiset{o};
        kept + [o]
      else
        kept
  }

  /** With a range chosen, an order whose time_done cannot be read still
      counts, however far outside the range it was finished. */
  lemma UnreadableTimeKept(items: seq<Item>, start: int, end: int)
    ensures DoneInRange(KitchenOrder("done", Unreadable, items), Some(start), Some(end))
    ensures !DoneInRange(KitchenOrder("done", Missing, items), Some(start), Some(end))
  {
  }

  /** The items of the orders, one order after another. */
  function Flatten(orders: seq<KitchenOrder>): seq<Item>
    decreases |orders|
  {
    if orders == [] then [] else Flatten(orders[..|orders| - 1]) + orders[|orders| - 1].items
  }

  /** The position where a name first occurs. */
  function FirstAt(names: seq<string>, n: string): (i: nat)
    requires n in names
    ensures i < |names| && names[i] == n
    ensures forall k :: 0 <= k < i ==> names[k] != n
    decreases |names|
  {
    if names[0] == n then 0
    else FirstAt(names[1..], n) + 1
  }

  /** A name keeps its first position when another is appended. */
  lemma FirstAtSnoc(names: seq<string>, m: string, n: string)
    requires n in names
    ensures FirstAt(names + [m], n) == FirstAt(names, n)
  {
    var i := FirstAt(names, n);
    assert (names + [m])[i] == n;
  }

  /** `[...new Set(names)]`: each name once, ordered by where it first
      occurs. */
  function Distinct(names: seq<string>): (r: seq<string>)
    ensures forall n :: n in r <==> n in names
    ensures forall i, j :: 0 <= i < j < |r| ==> r[i] != r[j]
    ensures forall i, j :: 0 <= i < j < |r| ==> FirstAt(names, r[i]) < FirstAt(names, r[j])
    decreases |names|
  {
    if names == [] then []
    else
      var init := names[..|names| - 1];
      var r := Distinct(init);
      var n := names[|names| - 1];
      assert names == init + [n];
      assert forall x :: x in names <==> x in init || x == n;
      forall x | x in init ensures FirstAt(names, x) == FirstAt(init, x) {
        FirstAtSnoc(init, n, x);
      }
      if n in r then r
      else
        assert FirstAt(names, n) == |init|;
        r + [n]
  }

  function ItemNames(items: seq<Item>): (names: seq<string>)
    ensures forall n :: n in names <==> n != "" && exists it :: it in items && it.menuName == n
    decreases |items|
  {
    if items == [] then []
    else
      var it := items[|items| - 1];
      assert forall x :: x in items <==> x in items[..|items| - 1] || x == it;
      ItemNames(items[..|items| - 1]) + (if it.menuName != "" then [it.menuName] else [])
  }

  /** The menus whose recipes are fetched: the named menus of the done
      orders, each once; the menu list's names when there are none. */
  function MenuNamesFor(done: seq<KitchenOrder>, menuList: seq<string>): (r: seq<string>)
    ensures forall i, j :: 0 <= i < j < |r| && Distinct(ItemNames(Flatten(done))) != [] ==> r[i] != r[j]
    ensures Distinct(ItemNames(Flatten(done))) != [] ==>
      forall n :: n in r <==> n != "" && exists it :: it in Flatten(done) && it.menuName == n
    ensures Distinct(ItemNames(Flatten(done))) == [] ==>
      forall n :: n in r <==> n in menuList && n != ""
  {
    var fromOrders := Distinct(ItemNames(Flatten(done)));
    if fromOrders != [] then fromOrders
    else Keep(menuList, (n: string) => n != "")
  }

  // ---------------------------------------------------------------------
  // The chosen flavour
  // ---------------------------------------------------------------------

  /** The flavour an item is counted under, from its trimmed preference and
      its trimmed other flavour text, given the menu's set of valid
      flavours (lower-cased). */
  function Chosen(pref: string, alt: string, valid: set<string>): (c: string)
    ensures c == "" || c == pref || c == alt
  {
    if pref != "" && Lower(pref) in valid then pref
    else if alt != "" && Lower(alt) in valid then alt
    else if pref != "" then (if |valid| == 0 then pref else "")
    else if alt != "" then (if |valid| == 0 then alt else "")
    else ""
  }

  function ValidSet(validSets: map<string, set<string>>, menu: string): set<string> {
    if menu in validSets then validSets[menu] else {}
  }

  /** `chosen || '-'`. */
  function FlavorDisplay(it: Item, validSets: map<string, set<string>>): (d: string)
    ensures d != ""
  {
    var c := Chosen(JsTrim(it.preference), JsTrim(it.flavorRaw), ValidSet(validSets, it.menuName));
    if c == "" then "-" else c
  }

  /** The page empties the valid sets before counting: the preference,
      trimmed, when there is one, otherwise the other flavour text, and
      "-" when neither has anything. */
  lemma DisplayWithoutValidSets(it: Item)
    ensures JsTrim(it.preference) != "" ==> FlavorDisplay(it, map[]) == JsTrim(it.preference)
    ensures JsTrim(it.preference) == "" && JsTrim(it.flavorRaw) != "" ==> FlavorDisplay(it, map[]) == JsTrim(it.flavorRaw)
    ensures JsTrim(it.preference) == "" && JsTrim(it.flavorRaw) == "" ==> FlavorDisplay(it, map[]) == "-"
  {
  }

  /** The variant key. */
  function VariantKey(menu: string, flavor: string): string {
    menu + "||" + flavor
  }

  /** Two different variants can share a key when a name holds "||". */
  lemma VariantKeysCollide()
    ensures VariantKey("Kopi||Susu", "Gula") == VariantKey("Kopi", "Susu||Gula")
  {
  }

  // ---------------------------------------------------------------------
  // Consumption
  // ---------------------------------------------------------------------

  datatype Variant = Variant(menuName: string, flavorName: string, orderQty: real, ingredients: map<int, real>)

  /** menuConsumption, menuOrderCount, menuFlavorUsage and
      variantConsumption. */
  datatype Totals = Totals(
    consumption: map<string, map<int, real>>,
    orderCount: map<string, real>,
    flavorUsage: map<string, map<string, real>>,
    variants: map<string, Variant>)

  const NoTotals: Totals := Totals(map[], map[], map[], map[])

  /** The items that are counted: a menu name and a positive quantity. */
  predicate Counted(it: Item) {
    it.menuName != "" && it.quantity > 0.0
  }

  function RecipesOf(recipes: map<string, seq<Use>>, menu: string): seq<Use> {
    if menu in recipes then recipes[menu] else []
  }

  /** The uses of a lower-cased flavour: none for "-" or a flavour the map
      does not know. */
  function FlavorUses(flavorMap: map<string, seq<Use>>, lower: string): seq<Use> {
    if lower != "-" && lower in flavorMap then flavorMap[lower] else []
  }

  function FlavorUsesOf(it: Item, flavorMap: map<string, seq<Use>>, validSets: map<string, set<string>>): seq<Use> {
    FlavorUses(flavorMap, Lower(FlavorDisplay(it, validSets)))
  }

  function MapOf<K, V>(m: map<K, V>, k: K, default: V): V {
    if k in m then m[k] else default
  }

  /** The recipe's and then the flavour's uses, added to an ingredient map. */
  function Consume(acc: map<int, real>, rs: seq<Use>, fs: seq<Use>, q: real): map<int, real> {
    Accumulate(Accumulate(acc, rs, q), fs, q)
  }

  function ConsumptionStep(c: map<string, map<int, real>>, m: string, q: real, rs: seq<Use>, fs: seq<Use>): map<string, map<int, real>> {
    c[m := Consume(MapOf(c, m, map[]), rs, fs, q)]
  }

  function CountStep(oc: map<string, real>, m: string, q: real): map<string, real> {
    oc[m := Get(oc, m) + q]
  }

  function UsageStep(fu: map<string, map<string, real>>, m: string, q: real, lower: string): map<string, map<string, real>> {
    var usage := MapOf(fu, m, map[]);
    fu[m := if lower != "-" then usage[lower := Get(usage, lower) + q] else usage]
  }

  function VariantStep(vs: map<string, Variant>, m: string, display: string, q: real, rs: seq<Use>, fs: seq<Use>): map<string, Variant> {
    var key := VariantKey(m, display);
    var v := MapOf(vs, key, Variant(m, display, 0.0, map[]));
    vs[key := v.(orderQty := v.orderQty + q, ingredients := Consume(v.ingredients, rs, fs, q))]
  }

  /** One pass of the item loop. */
  function AddItem(t: Totals, it: Item, recipes: map<string, seq<Use>>, flavorMap: map<string, seq<Use>>,
                   validSets: map<string, set<string>>): Totals
  {
    if !Counted(it) then t
    else
      var m, q := it.menuName, it.quantity;
      var display := FlavorDisplay(it, validSets);
      var lower := Lower(display);
      var rs, fs := RecipesOf(recipes, m), FlavorUses(flavorMap, lower);
      Totals(ConsumptionStep(t.consumption, m, q, rs, fs), CountStep(t.orderCount, m, q),
             UsageStep(t.flavorUsage, m, q, lower), VariantStep(t.variants, m, display, q, rs, fs))
  }

  /** The totals after the items in order. */
  function Aggregate(items: seq<Item>, recipes: map<string, seq<Use>>, flavorMap: map<string, seq<Use>>,
                     validSets: map<string, set<string>>): Totals
    decreases |items|
  {
    if items == [] then NoTotals
    else AddItem(Aggregate(items[..|items| - 1], recipes, flavorMap, validSets), items[|items| - 1], recipes, flavorMap, validSets)
  }

  /** The totals after more items. */
  function AddItems(t: Totals, items: seq<Item>, recipes: map<string, seq<Use>>, flavorMap: map<string, seq<Use>>,
                    validSets: map<string, set<string>>): Totals
    decreases |items|
  {
    if items == [] then t
    else AddItem(AddItems(t, items[..|items| - 1], recipes, flavorMap, validSets), items[|items| - 1], recipes, flavorMap, validSets)
  }

  /** Adding items to the totals of earlier ones gives the totals of all. */
  lemma {:induction false} AddItemsAfter(xs: seq<Item>, ys: seq<Item>, recipes: map<string, seq<Use>>, flavorMap: map<string, seq<Use>>,
                                         validSets: map<string, set<string>>)
    ensures AddItems(Aggregate(xs, recipes, flavorMap, validSets), ys, recipes, flavorMap, validSets) == Aggregate(xs + ys, recipes, flavorMap, validSets)
    decreases |ys|
  {
    if ys == [] {
      assert xs + ys == xs;
    } else {
      AddItemsAfter(xs, ys[..|ys| - 1], recipes, flavorMap, validSets);
      assert (xs + ys)[..|xs + ys| - 1] == xs + ys[..|ys| - 1];
    }
  }

  /** The counted items of one menu, in order. */
  function ItemsOf(items: seq<Item>, menu: string): seq<Item>
    decreases |items|
  {
    if items == [] then []
    else
      var it := items[|items| - 1];
      ItemsOf(items[..|items| - 1], menu) + (if Counted(it) && it.menuName == menu then [it] else [])
  }

  function SumQuantity(items: seq<Item>): real
    decreases |items|
  {
    if items == [] then 0.0 else SumQuantity(items[..|items| - 1]) + items[|items| - 1].quantity
  }

  /** What the items take of one ingredient: the recipe's amount and the
      chosen flavour's amount, times the quantity. */
  function Consumed(items: seq<Item>, ing: int, recipes: map<string, seq<Use>>, flavorMap: map<string, seq<Use>>,
                    validSets: map<string, set<string>>): real
    decreases |items|
  {
    if items == [] then 0.0
    else
      var it := items[|items| - 1];
      Consumed(items[..|items| - 1], ing, recipes, flavorMap, validSets)
      + ScaledAmount(RecipesOf(recipes, it.menuName), ing, it.quantity) + ScaledAmount(FlavorUsesOf(it, flavorMap, validSets), ing, it.quantity)
  }

  lemma ConsumedSnoc(items: seq<Item>, it: Item, ing: int, recipes: map<string, seq<Use>>, flavorMap: map<string, seq<Use>>,
                     validSets: map<string, set<string>>)
    ensures Consumed(items + [it], ing, recipes, flavorMap, validSets) == Consumed(items, ing, recipes, flavorMap, validSets)
      + ScaledAmount(RecipesOf(recipes, it.menuName), ing, it.quantity) + ScaledAmount(FlavorUsesOf(it, flavorMap, validSets), ing, it.quantity)
  {
    assert (items + [it])[..|items|] == items;
  }

  lemma ItemsOfSnoc(items: seq<Item>, m: string)
    requires items != []
    ensures var it := items[|items| - 1];
      ItemsOf(items, m) == ItemsOf(items[..|items| - 1], m) + (if Counted(it) && it.menuName == m then [it] else [])
  {
  }

  /** A menu is counted exactly when one of its items is, and its order
      count is the sum of those items' quantities. */
  lemma {:induction false} OrderCountPerMenu(items: seq<Item>, recipes: map<string, seq<Use>>, flavorMap: map<string, seq<Use>>,
                                             validSets: map<string, set<string>>)
    ensures forall m :: m in Aggregate(items, recipes, flavorMap, validSets).orderCount <==> ItemsOf(items, m) != []
    ensures forall m :: m in Aggregate(items, recipes, flavorMap, validSets).orderCount ==>
      Aggregate(items, recipes, flavorMap, validSets).orderCount[m] == SumQuantity(ItemsOf(items, m))
    decreases |items|
  {
    if items != [] {
      var init, it := items[..|items| - 1], items[|items| - 1];
      OrderCountPerMenu(init, recipes, flavorMap, validSets);
      var oc := Aggregate(items, recipes, flavorMap, validSets).orderCount;
      forall m
        ensures m in oc <==> ItemsOf(items, m) != []
        ensures m in oc ==> oc[m] == SumQuantity(ItemsOf(items, m))
      {
        ItemsOfSnoc(items, m);
        var on := ItemsOf(init, m);
        if Counted(it) && it.menuName == m {
          assert (on + [it])[..|on|] == on;
        } else {
          assert ItemsOf(items, m) == on;
        }
      }
    }
  }

  /** A menu has a consumption entry exactly when it has counted items. */
  lemma {:induction false} ConsumptionMenus(items: seq<Item>, recipes: map<string, seq<Use>>, flavorMap: map<string, seq<Use>>,
                                            validSets: map<string, set<string>>, m: string)
    ensures m in Aggregate(items, recipes, flavorMap, validSets).consumption <==> ItemsOf(items, m) != []
    decreases |items|
  {
    if items != [] {
      var init := items[..|items| - 1];
      ConsumptionMenus(init, recipes, flavorMap, validSets, m);
      ItemsOfSnoc(items, m);
    }
  }

  /** One item adds its recipe's and its flavour's amounts, times its
      quantity, to its own menu and to no other. */
  lemma ConsumptionStepGet(t: Totals, it: Item, recipes: map<string, seq<Use>>, flavorMap: map<string, seq<Use>>,
                           validSets: map<string, set<string>>, m: string, ing: int)
    ensures Get(MapOf(AddItem(t, it, recipes, flavorMap, validSets).consumption, m, map[]), ing)
      == Get(MapOf(t.consumption, m, map[]), ing)
         + (if Counted(it) && it.menuName == m
            then ScaledAmount(RecipesOf(recipes, m), ing, it.quantity) + ScaledAmount(FlavorUsesOf(it, flavorMap, validSets), ing, it.quantity)
            else 0.0)
  {
    if Counted(it) && it.menuName == m {
      var before := MapOf(t.consumption, m, map[]);
      var rs, fs := RecipesOf(recipes, m), FlavorUsesOf(it, flavorMap, validSets);
      assert AddItem(t, it, recipes, flavorMap, validSets).consumption == ConsumptionStep(t.consumption, m, it.quantity, rs, fs);
      AccumulateGet(before, rs, it.quantity, ing);
      AccumulateGet(Accumulate(before, rs, it.quantity), fs, it.quantity, ing);
    }
  }

  /** What one item adds to a menu's amount of one ingredient. */
  function ItemShare(it: Item, recipes: map<string, seq<Use>>, flavorMap: map<string, seq<Use>>,
                     validSets: map<string, set<string>>, m: string, ing: int): real
  {
    if Counted(it) && it.menuName == m
    then ScaledAmount(RecipesOf(recipes, m), ing, it.quantity) + ScaledAmount(FlavorUsesOf(it, flavorMap, validSets), ing, it.quantity)
    else 0.0
  }

  lemma AggregateGetSnoc(items: seq<Item>, recipes: map<string, seq<Use>>, flavorMap: map<string, seq<Use>>,
                         validSets: map<string, set<string>>, m: string, ing: int)
    requires items != []
    ensures Get(MapOf(Aggregate(items, recipes, flavorMap, validSets).consumption, m, map[]), ing)
      == Get(MapOf(Aggregate(items[..|items| - 1], recipes, flavorMap, validSets).consumption, m, map[]), ing)
         + ItemShare(items[|items| - 1], recipes, flavorMap, validSets, m, ing)
  {
    ConsumptionStepGet(Aggregate(items[..|items| - 1], recipes, flavorMap, validSets), items[|items| - 1], recipes, flavorMap, validSets, m, ing);
  }

  lemma ConsumedItemsOfSnoc(items: seq<Item>, recipes: map<string, seq<Use>>, flavorMap: map<string, seq<Use>>,
                            validSets: map<string, set<string>>, m: string, ing: int)
    requires items != []
    ensures Consumed(ItemsOf(items, m), ing, recipes, flavorMap, validSets)
      == Consumed(ItemsOf(items[..|items| - 1], m), ing, recipes, flavorMap, validSets)
         + ItemShare(items[|items| - 1], recipes, flavorMap, validSets, m, ing)
  {
    var init, it := items[..|items| - 1], items[|items| - 1];
    var on := ItemsOf(init, m);
    var share := ItemShare(it, recipes, flavorMap, validSets, m, ing);
    ItemsOfSnoc(items, m);
    if Counted(it) && it.menuName == m {
      assert ItemsOf(items, m) == on + [it];
      ConsumedSnoc(on, it, ing, recipes, flavorMap, validSets);
      assert Consumed(on + [it], ing, recipes, flavorMap, validSets) == Consumed(on, ing, recipes, flavorMap, validSets) + share;
    } else {
      assert ItemsOf(items, m) == on;
      assert share == 0.0;
    }
  }

  /** The consumption of a menu, ingredient by ingredient, is what its
      counted items take. */
  lemma {:induction false} ConsumptionPerMenu(items: seq<Item>, recipes: map<string, seq<Use>>, flavorMap: map<string, seq<Use>>,
                                              validSets: map<string, set<string>>, m: string, ing: int)
    ensures Get(MapOf(Aggregate(items, recipes, flavorMap, validSets).consumption, m, map[]), ing)
      == Consumed(ItemsOf(items, m), ing, recipes, flavorMap, validSets)
    decreases |items|
  {
    if items != [] {
      ConsumptionPerMenu(items[..|items| - 1], recipes, flavorMap, validSets, m, ing);
      AggregateGetSnoc(items, recipes, flavorMap, validSets, m, ing);
      ConsumedItemsOfSnoc(items, recipes, flavorMap, validSets, m, ing);
    }
  }

  lemma SumQuantitySnoc(items: seq<Item>, it: Item)
    ensures SumQuantity(items + [it]) == SumQuantity(items) + it.quantity
  {
    assert (items + [it])[..|items|] == items;
  }

  /** A counted item is filed under the key of its menu and chosen flavour. */
  predicate InVariant(it: Item, validSets: map<string, set<string>>, key: string) {
    Counted(it) && VariantKey(it.menuName, FlavorDisplay(it, validSets)) == key
  }

  /** The counted items filed under one variant key, in order. */
  function VariantItems(items: seq<Item>, validSets: map<string, set<string>>, key: string): seq<Item>
    decreases |items|
  {
    if items == [] then []
    else
      var it := items[|items| - 1];
      VariantItems(items[..|items| - 1], validSets, key) + (if InVariant(it, validSets, key) then [it] else [])
  }

  /** One item changes the variants only under its own key. */
  lemma AddItemVariants(t: Totals, it: Item, recipes: map<string, seq<Use>>, flavorMap: map<string, seq<Use>>,
                        validSets: map<string, set<string>>, key: string)
    ensures var vs, vs' := t.variants, AddItem(t, it, recipes, flavorMap, validSets).variants;
      var display := FlavorDisplay(it, validSets);
      if InVariant(it, validSets, key) then
        var v := MapOf(vs, key, Variant(it.menuName, display, 0.0, map[]));
        key in vs' && vs'[key] == v.(orderQty := v.orderQty + it.quantity,
                                     ingredients := Consume(v.ingredients, RecipesOf(recipes, it.menuName),
                                                            FlavorUsesOf(it, flavorMap, validSets), it.quantity))
      else (key in vs' <==> key in vs) && (key in vs ==> vs'[key] == vs[key])
  {
  }

  lemma AggregateVariants(items: seq<Item>, recipes: map<string, seq<Use>>, flavorMap: map<string, seq<Use>>,
                          validSets: map<string, set<string>>, key: string)
    requires items != []
    ensures var vs, vs' := Aggregate(items[..|items| - 1], recipes, flavorMap, validSets).variants,
                           Aggregate(items, recipes, flavorMap, validSets).variants;
      var it := items[|items| - 1];
      var display := FlavorDisplay(it, validSets);
      if InVariant(it, validSets, key) then
        var v := MapOf(vs, key, Variant(it.menuName, display, 0.0, map[]));
        key in vs' && vs'[key] == v.(orderQty := v.orderQty + it.quantity,
                                     ingredients := Consume(v.ingredients, RecipesOf(recipes, it.menuName),
                                                            FlavorUsesOf(it, flavorMap, validSets), it.quantity))
      else (key in vs' <==> key in vs) && (key in vs ==> vs'[key] == vs[key])
  {
    AddItemVariants(Aggregate(items[..|items| - 1], recipes, flavorMap, validSets), items[|items| - 1], recipes, flavorMap, validSets, key);
  }

  /** A variant key has an entry exactly when some counted item is filed
      under it; the entry carries the menu and flavour of the first such
      item, and its order quantity is the sum of their quantities. */
  lemma {:induction false} VariantPerKey(items: seq<Item>, recipes: map<string, seq<Use>>, flavorMap: map<string, seq<Use>>,
                                         validSets: map<string, set<string>>, key: string)
    ensures var vs, on := Aggregate(items, recipes, flavorMap, validSets).variants, VariantItems(items, validSets, key);
      (key in vs <==> on != [])
      && (key in vs ==> vs[key].menuName == on[0].menuName && vs[key].flavorName == FlavorDisplay(on[0], validSets)
                        && vs[key].orderQty == SumQuantity(on))
    decreases |items|
  {
    if items != [] {
      var init, it := items[..|items| - 1], items[|items| - 1];
      VariantPerKey(init, recipes, flavorMap, validSets, key);
      AggregateVariants(items, recipes, flavorMap, validSets, key);
      var on := VariantItems(init, validSets, key);
      if InVariant(it, validSets, key) {
        assert VariantItems(items, validSets, key) == on + [it];
        SumQuantitySnoc(on, it);
        assert (on + [it])[0] == if on == [] then it else on[0];
      } else {
        assert VariantItems(items, validSets, key) == on;
      }
    }
  }

  /** What one item adds to a variant key's amount of an ingredient. */
  function VariantShare(it: Item, recipes: map<string, seq<Use>>, flavorMap: map<string, seq<Use>>,
                        validSets: map<string, set<string>>, key: string, ing: int): real
  {
    if InVariant(it, validSets, key)
    then ScaledAmount(RecipesOf(recipes, it.menuName), ing, it.quantity) + ScaledAmount(FlavorUsesOf(it, flavorMap, validSets), ing, it.quantity)
    else 0.0
  }

  lemma AggregateVariantGet(items: seq<Item>, recipes: map<string, seq<Use>>, flavorMap: map<string, seq<Use>>,
                            validSets: map<string, set<string>>, key: string, ing: int)
    requires items != []
    ensures Get(MapOf(Aggregate(items, recipes, flavorMap, validSets).variants, key, Variant("", "", 0.0, map[])).ingredients, ing)
      == Get(MapOf(Aggregate(items[..|items| - 1], recipes, flavorMap, validSets).variants, key, Variant("", "", 0.0, map[])).ingredients, ing)
         + VariantShare(items[|items| - 1], recipes, flavorMap, validSets, key, ing)
  {
    var it := items[|items| - 1];
    var vs := Aggregate(items[..|items| - 1], recipes, flavorMap, validSets).variants;
    AggregateVariants(items, recipes, flavorMap, validSets, key);
    if InVariant(it, validSets, key) {
      var rs, fs := RecipesOf(recipes, it.menuName), FlavorUsesOf(it, flavorMap, validSets);
      var before := MapOf(vs, key, Variant("", "", 0.0, map[])).ingredients;
      assert before == MapOf(vs, key, Variant(it.menuName, FlavorDisplay(it, validSets), 0.0, map[])).ingredients;
      AccumulateGet(before, rs, it.quantity, ing);
      AccumulateGet(Accumulate(before, rs, it.quantity), fs, it.quantity, ing);
    }
  }

  lemma ConsumedVariantItemsSnoc(items: seq<Item>, recipes: map<string, seq<Use>>, flavorMap: map<string, seq<Use>>,
                                 validSets: map<string, set<string>>, key: string, ing: int)
    requires items != []
    ensures Consumed(VariantItems(items, validSets, key), ing, recipes, flavorMap, validSets)
      == Consumed(VariantItems(items[..|items| - 1], validSets, key), ing, recipes, flavorMap, validSets)
         + VariantShare(items[|items| - 1], recipes, flavorMap, validSets, key, ing)
  {
    var init, it := items[..|items| - 1], items[|items| - 1];
    var on := VariantItems(init, validSets, key);
    if InVariant(it, validSets, key) {
      assert VariantItems(items, validSets, key) == on + [it];
      ConsumedSnoc(on, it, ing, recipes, flavorMap, validSets);
    } else {
      assert VariantItems(items, validSets, key) == on;
    }
  }

  /** What a variant key's items take of one ingredient: each item's recipe
      and chosen flavour amounts, times its quantity. */
  lemma {:induction false} VariantConsumption(items: seq<Item>, recipes: map<string, seq<Use>>, flavorMap: map<string, seq<Use>>,
                                              validSets: map<string, set<string>>, key: string, ing: int)
    ensures Get(MapOf(Aggregate(items, recipes, flavorMap, validSets).variants, key, Variant("", "", 0.0, map[])).ingredients, ing)
      == Consumed(VariantItems(items, validSets, key), ing, recipes, flavorMap, validSets)
    decreases |items|
  {
    if items != [] {
      VariantConsumption(items[..|items| - 1], recipes, flavorMap, validSets, key, ing);
      AggregateVariantGet(items, recipes, flavorMap, validSets, key, ing);
      ConsumedVariantItemsSnoc(items, recipes, flavorMap, validSets, key, ing);
    }
  }

  /** A counted item of menu `m` whose chosen flavour, lower-cased, is `f`;
      an item shown as "-" counts under no flavour. */
  predicate CountsFlavor(it: Item, validSets: map<string, set<string>>, m: string, f: string) {
    var lower := Lower(FlavorDisplay(it, validSets));
    Counted(it) && it.menuName == m && lower == f && lower != "-"
  }

  /** The items counted under flavour `f` of menu `m`, in order. */
  function FlavorItems(items: seq<Item>, validSets: map<string, set<string>>, m: string, f: string): seq<Item>
    decreases |items|
  {
    if items == [] then []
    else
      var it := items[|items| - 1];
      FlavorItems(items[..|items| - 1], validSets, m, f) + (if CountsFlavor(it, validSets, m, f) then [it] else [])
  }

  /** One item changes the usage of its own menu only, and there only the
      count of its own flavour. */
  lemma AggregateUsage(items: seq<Item>, recipes: map<string, seq<Use>>, flavorMap: map<string, seq<Use>>,
                       validSets: map<string, set<string>>, m: string, f: string)
    requires items != []
    ensures var fu, fu' := Aggregate(items[..|items| - 1], recipes, flavorMap, validSets).flavorUsage,
                           Aggregate(items, recipes, flavorMap, validSets).flavorUsage;
      var it := items[|items| - 1];
      (m in fu' <==> m in fu || (Counted(it) && it.menuName == m))
      && (f in MapOf(fu', m, map[]) <==> f in MapOf(fu, m, map[]) || CountsFlavor(it, validSets, m, f))
      && Get(MapOf(fu', m, map[]), f) == Get(MapOf(fu, m, map[]), f) + (if CountsFlavor(it, validSets, m, f) then it.quantity else 0.0)
  {
    var t, it := Aggregate(items[..|items| - 1], recipes, flavorMap, validSets), items[|items| - 1];
    assert Aggregate(items, recipes, flavorMap, validSets) == AddItem(t, it, recipes, flavorMap, validSets);
    if Counted(it) {
      assert AddItem(t, it, recipes, flavorMap, validSets).flavorUsage
          == UsageStep(t.flavorUsage, it.menuName, it.quantity, Lower(FlavorDisplay(it, validSets)));
    }
  }

  lemma FlavorItemsSnoc(items: seq<Item>, validSets: map<string, set<string>>, m: string, f: string)
    requires items != []
    ensures var on, it := FlavorItems(items[..|items| - 1], validSets, m, f), items[|items| - 1];
      (FlavorItems(items, validSets, m, f) != [] <==> on != [] || CountsFlavor(it, validSets, m, f))
      && SumQuantity(FlavorItems(items, validSets, m, f)) == SumQuantity(on) + (if CountsFlavor(it, validSets, m, f) then it.quantity else 0.0)
  {
    var on, it := FlavorItems(items[..|items| - 1], validSets, m, f), items[|items| - 1];
    if CountsFlavor(it, validSets, m, f) {
      assert FlavorItems(items, validSets, m, f) == on + [it];
      SumQuantitySnoc(on, it);
    } else {
      assert FlavorItems(items, validSets, m, f) == on;
    }
  }

  /** menuFlavorUsage: a menu has a usage table exactly when it has counted
      items; a flavour is in it exactly when some of them show that flavour,
      and its count is the sum of their quantities. */
  lemma {:induction false} FlavorUsagePerMenu(items: seq<Item>, recipes: map<string, seq<Use>>, flavorMap: map<string, seq<Use>>,
                                              validSets: map<string, set<string>>, m: string, f: string)
    ensures var fu, on := Aggregate(items, recipes, flavorMap, validSets).flavorUsage, FlavorItems(items, validSets, m, f);
      (m in fu <==> ItemsOf(items, m) != [])
      && (f in MapOf(fu, m, map[]) <==> on != [])
      && Get(MapOf(fu, m, map[]), f) == SumQuantity(on)
    decreases |items|
  {
    if items != [] {
      FlavorUsagePerMenu(items[..|items| - 1], recipes, flavorMap, validSets, m, f);
      AggregateUsage(items, recipes, flavorMap, validSets, m, f);
      ItemsOfSnoc(items, m);
      FlavorItemsSnoc(items, validSets, m, f);
    }
  }

  /** A name menuFlavorUsage may count under. */
  predicate IsFlavorKey(f: string) {
    f != "" && f != "-" && Lower(f) == f
  }

  /** menuFlavorUsage never counts "-" (nor an empty name), and its names
      are lower-case. */
  lemma {:induction false} FlavorUsageNamesFlavors(items: seq<Item>, recipes: map<string, seq<Use>>, flavorMap: map<string, seq<Use>>,
                                                   validSets: map<string, set<string>>)
    ensures forall m, f :: (m in Aggregate(items, recipes, flavorMap, validSets).flavorUsage
      && f in Aggregate(items, recipes, flavorMap, validSets).flavorUsage[m]) ==> IsFlavorKey(f)
    decreases |items|
  {
    if items != [] {
      var init, it := items[..|items| - 1], items[|items| - 1];
      FlavorUsageNamesFlavors(init, recipes, flavorMap, validSets);
      var before := Aggregate(init, recipes, flavorMap, validSets).flavorUsage;
      var after := Aggregate(items, recipes, flavorMap, validSets).flavorUsage;
      if Counted(it) {
        var display := FlavorDisplay(it, validSets);
        var lower := Lower(display);
        LowerIdempotent(display);
        assert |lower| == |display| > 0;
        var usage := MapOf(before, it.menuName, map[]);
        assert after == UsageStep(before, it.menuName, it.quantity, lower);
        forall m, f | m in after && f in after[m] ensures IsFlavorKey(f) {
          if m != it.menuName {
            assert after[m] == before[m];
          } else if f != lower || lower == "-" {
            assert f in usage;
            assert m in before && usage == before[m];
          }
        }
      } else {
        assert after == before;
      }
    }
  }

  /** The item loop's body. */
  method ConsumeItem(t: Totals, it: Item, recipes: map<string, seq<Use>>, flavorMap: map<string, seq<Use>>,
                     validSets: map<string, set<string>>) returns (t': Totals)
    ensures t' == AddItem(t, it, recipes, flavorMap, validSets)
  {
    var mName, qty := it.menuName, it.quantity;
    if mName == "" || qty <= 0.0 {
      return t;
    }
    var consumption, orderCount, usageAll, variants := t.consumption, t.orderCount, t.flavorUsage, t.variants;
    var menuTotals := MapOf(consumption, mName, map[]);
    var usage := MapOf(usageAll, mName, map[]);
    orderCount := orderCount[mName := Get(orderCount, mName) + qty];
    var display := FlavorDisplay(it, validSets);
    var prefLower := Lower(display);
    var key := VariantKey(mName, display);
    var v := MapOf(variants, key, Variant(mName, display, 0.0, map[]));
    var variantTotals := v.ingredients;
    assert |prefLower| == |display| > 0;
    menuTotals, variantTotals, usage := AddItemUses(menuTotals, variantTotals, usage, RecipesOf(recipes, mName), flavorMap, prefLower, qty);
    t' := Totals(consumption[mName := menuTotals], orderCount, usageAll[mName := usage],
                 variants[key := v.(orderQty := v.orderQty + qty, ingredients := variantTotals)]);
  }

  /** The recipe's lines, then the flavour's count and lines, added to the
      menu's and the variant's totals. */
  method AddItemUses(menuTotals: map<int, real>, variantTotals: map<int, real>, usage: map<string, real>,
                     recipeUses: seq<Use>, flavorMap: map<string, seq<Use>>, prefLower: string, qty: real)
    returns (menuTotals': map<int, real>, variantTotals': map<int, real>, usage': map<string, real>)
    requires prefLower != ""
    ensures menuTotals' == Consume(menuTotals, recipeUses, FlavorUses(flavorMap, prefLower), qty)
    ensures variantTotals' == Consume(variantTotals, recipeUses, FlavorUses(flavorMap, prefLower), qty)
    ensures usage' == if prefLower != "-" then usage[prefLower := Get(usage, prefLower) + qty] else usage
  {
    menuTotals' := AddUses(menuTotals, recipeUses, qty);
    variantTotals' := AddUses(variantTotals, recipeUses, qty);
    usage' := usage;
    if prefLower != "" && prefLower != "-" {
      usage' := usage'[prefLower := Get(usage', prefLower) + qty];
      if prefLower in flavorMap {
        menuTotals' := AddUses(menuTotals', flavorMap[prefLower], qty);
        variantTotals' := AddUses(variantTotals', flavorMap[prefLower], qty);
      }
    }
  }

  /** The inner loop, over one order's items. */
  method ConsumeItems(t: Totals, items: seq<Item>, recipes: map<string, seq<Use>>, flavorMap: map<string, seq<Use>>,
                      validSets: map<string, set<string>>) returns (t': Totals)
    ensures t' == AddItems(t, items, recipes, flavorMap, validSets)
  {
    t' := t;
    for j := 0 to |items|
      invariant t' == AddItems(t, items[..j], recipes, flavorMap, validSets)
    {
      assert items[..j + 1][..j] == items[..j];
      t' := ConsumeItem(t', items[j], recipes, flavorMap, validSets);
    }
    assert items[..|items|] == items;
  }

  /** The outer loop, over the done orders. */
  method ComputeConsumption(done: seq<KitchenOrder>, recipes: map<string, seq<Use>>, flavorMap: map<string, seq<Use>>,
                            validSets: map<string, set<string>>) returns (t: Totals)
    ensures t == Aggregate(Flatten(done), recipes, flavorMap, validSets)
  {
    t := NoTotals;
    for i := 0 to |done|
      invariant t == Aggregate(Flatten(done[..i]), recipes, flavorMap, validSets)
    {
      assert done[..i + 1][..i] == done[..i];
      AddItemsAfter(Flatten(done[..i]), done[i].items, recipes, flavorMap, validSets);
      t := ConsumeItems(t, done[i].items, recipes, flavorMap, validSets);
    }
    assert done[..|done|] == done;
  }

  // ---------------------------------------------------------------------
  // The usage of one order
  // ---------------------------------------------------------------------

  /** The recipe lines naming an ingredient the inventory knows. */
  function KnownUses(uses: seq<Use>, known: set<int>): seq<Use>
    decreases |uses|
  {
    if uses == [] then []
    else
      var u := uses[|uses| - 1];
      KnownUses(uses[..|uses| - 1], known) + (if u.ingredientId in known then [u] else [])
  }

  /** getOrderIngredientUsage's totals after the items in order: each
      recipe line of a known ingredient adds its amount times the item's
      quantity (which is not checked). */
  function OrderUsage(items: seq<Item>, recipes: map<string, seq<Use>>, known: set<int>): map<int, real>
    decreases |items|
  {
    if items == [] then map[]
    else
      var it := items[|items| - 1];
      Accumulate(OrderUsage(items[..|items| - 1], recipes, known), KnownUses(RecipesOf(recipes, it.menuName), known), it.quantity)
  }

  /** What the items' recipes take of one ingredient. */
  function RecipeDemand(items: seq<Item>, recipes: map<string, seq<Use>>, ing: int): real
    decreases |items|
  {
    if items == [] then 0.0
    else
      var it := items[|items| - 1];
      RecipeDemand(items[..|items| - 1], recipes, ing) + ScaledAmount(RecipesOf(recipes, it.menuName), ing, it.quantity)
  }

  lemma {:induction false} KnownUsesAmount(uses: seq<Use>, known: set<int>, ing: int, qty: real)
    ensures ScaledAmount(KnownUses(uses, known), ing, qty) == if ing in known then ScaledAmount(uses, ing, qty) else 0.0
    ensures forall u :: u in KnownUses(uses, known) ==> u in uses && u.ingredientId in known
    decreases |uses|
  {
    if uses != [] {
      KnownUsesAmount(uses[..|uses| - 1], known, ing, qty);
      var k := KnownUses(uses[..|uses| - 1], known);
      var u := uses[|uses| - 1];
      if u.ingredientId in known {
        assert (k + [u])[..|k|] == k;
      } else {
        assert k + [] == k;
      }
    }
  }

  /** Only known ingredients appear, and each one's total is what the
      items' recipes take of it. */
  lemma {:induction false} OrderUsageTotals(items: seq<Item>, recipes: map<string, seq<Use>>, known: set<int>)
    ensures forall ing :: ing in OrderUsage(items, recipes, known) ==> ing in known
    ensures forall ing :: ing in known ==> Get(OrderUsage(items, recipes, known), ing) == RecipeDemand(items, recipes, ing)
    decreases |items|
  {
    if items != [] {
      var init, it := items[..|items| - 1], items[|items| - 1];
      OrderUsageTotals(init, recipes, known);
      var uses := KnownUses(RecipesOf(recipes, it.menuName), known);
      AccumulateAdds(OrderUsage(init, recipes, known), uses, it.quantity);
      forall ing | ing in known ensures Get(OrderUsage(items, recipes, known), ing) == RecipeDemand(items, recipes, ing) {
        KnownUsesAmount(RecipesOf(recipes, it.menuName), known, ing, it.quantity);
      }
      forall ing | ing in OrderUsage(items, recipes, known) ensures ing in known {
        if ing !in OrderUsage(init, recipes, known) {
          var u :| u in uses && u.ingredientId == ing;
          KnownUsesAmount(RecipesOf(recipes, it.menuName), known, ing, it.quantity);
        }
      }
    }
  }

  /** getOrderIngredientUsage, None standing for an order without items:
      the nested forEach over the items and their recipe lines. */
  method OrderIngredientUsage(items: Option<seq<Item>>, recipes: map<string, seq<Use>>, known: set<int>)
    returns (usage: map<int, real>)
    ensures items.None? ==> usage == map[]
    ensures items.Some? ==> usage == OrderUsage(items.value, recipes, known)
  {
    usage := map[];
    if items.None? {
      return;
    }
    var its := items.value;
    for i := 0 to |its|
      invariant usage == OrderUsage(its[..i], recipes, known)
    {
      assert its[..i + 1][..i] == its[..i];
      usage := AddKnownUses(usage, RecipesOf(recipes, its[i].menuName), known, its[i].quantity);
    }
    assert its[..|its|] == its;
  }

  /** The inner forEach: the recipe lines of known ingredients, each times
      the item's quantity. */
  method AddKnownUses(usage: map<int, real>, rs: seq<Use>, known: set<int>, qty: real) returns (usage': map<int, real>)
    ensures usage' == Accumulate(usage, KnownUses(rs, known), qty)
  {
    usage' := usage;
    for j := 0 to |rs|
      invariant usage' == Accumulate(usage, KnownUses(rs[..j], known), qty)
    {
      var r := rs[j];
      KnownUsesStep(usage, rs, known, qty, j);
      if r.ingredientId in known {
        usage' := usage'[r.ingredientId := Get(usage', r.ingredientId) + Scaled(r.quantity, qty)];
      }
    }
    assert rs[..|rs|] == rs;
  }

  /** One more recipe line adds its scaled amount when its ingredient is
      known, and nothing otherwise. */
  lemma KnownUsesStep(acc: map<int, real>, rs: seq<Use>, known: set<int>, qty: real, j: nat)
    requires j < |rs|
    ensures var before := Accumulate(acc, KnownUses(rs[..j], known), qty);
      Accumulate(acc, KnownUses(rs[..j + 1], known), qty)
      == if rs[j].ingredientId in known
         then before[rs[j].ingredientId := Get(before, rs[j].ingredientId) + Scaled(rs[j].quantity, qty)]
         else before
  {
    assert rs[..j + 1][..j] == rs[..j];
    var r := rs[j];
    var k := KnownUses(rs[..j], known);
    assert KnownUses(rs[..j + 1], known) == k + (if r.ingredientId in known then [r] else []);
    if r.ingredientId in known {
      assert (k + [r])[..|k|] == k;
    } else {
      assert k + [] == k;
    }
  }
}
