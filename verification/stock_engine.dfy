/** The stock engine of the inventory service: the batch check of an order's
    ingredient needs against the stock, the consumption of that stock, the
    consumption log that makes a repeated request harmless, and the rollback
    of a consumption (infinity/inventory_service/main.py).

    The pure functions below are the specification; the class
    InventoryStore holds the two tables the service changes and runs the
    same computation step by step, as the service does. */
module StockEngine {
  import opened Wrappers

  type IngredientId = int

  /** current_quantity of every row of the inventories table, by id. */
  type Stock = map<IngredientId, real>

  /** An order line's quantity; the request schema admits only values above zero. */
  type Quantity = q: int | q > 0 witness 1

  datatype OrderLine = OrderLine(menuName: string, quantity: Quantity)

  /** One row of a menu's recipe, as the menu service returns it. */
  datatype RecipeLine = RecipeLine(ingredientId: IngredientId, quantity: real, unit: string)

  type Recipes = map<string, seq<RecipeLine>>

  /** The answer of the menu service's batch recipe endpoint: a failure (network
      error, error status) or the recipes it found. */
  datatype RecipeFetch = FetchFailed(reason: string) | Fetched(recipes: Recipes)

  datatype MenuDetail = MenuDetail(menuName: string, recipeCount: nat, requestedQty: int)

  /** What the order needs of one ingredient: the total, the unit of the first
      recipe line naming it, and the menus that use it. */
  datatype Need = Need(needed: real, unit: string, menus: set<string>)

  /** The service's need map: a dictionary that remembers insertion order. */
  datatype NeedMap = NeedMap(keys: seq<IngredientId>, entries: map<IngredientId, Need>)

  datatype ConsumeFailure = MissingRow(ingredientId: IngredientId) | NegativeStock(ingredientId: IngredientId)

  datatype Shortage =
    | RecipeFetchError(reason: string)
    | MenuWithoutRecipe(menuName: string)
    | IngredientShort(ingredientId: IngredientId, required: real, available: real, unit: string, menus: set<string>)
    | ConsumeError(cause: ConsumeFailure)

  datatype Suggestion = Suggestion(menuName: string, requested: int, canMake: int)

  datatype StockResponse = StockResponse(
    canFulfill: bool,
    shortages: seq<Shortage>,
    partialSuggestions: seq<Suggestion>,
    details: seq<MenuDetail>)

  datatype Deduction = Deduction(ingredientId: IngredientId, deducted: real, before: real, after: real, unit: string)

  /** A row of consumption_log: the per-menu summary, the per-ingredient
      deductions (absent for a dry run) and the two flags. */
  datatype ConsumptionLog = ConsumptionLog(
    perMenu: seq<MenuDetail>,
    perIngredient: Option<seq<Deduction>>,
    consumed: bool,
    rolledBack: bool)

  /** consumption_log by order_id (the column is unique). */
  type Ledger = map<string, ConsumptionLog>

  datatype Outcome = Outcome(response: StockResponse, stock: Stock, ledger: Ledger)

  datatype RollbackStatus = Ignored | AlreadyRolledBack | RolledBack(restored: nat)

  datatype RollbackOutcome = RollbackOutcome(status: RollbackStatus, stock: Stock, ledger: Ledger)

  // ---------------------------------------------------------------------
  // Specification: one pass over the order lines

  /** recipes.get(menu, []) */
  function RecipeOf(recipes: Recipes, menu: string): seq<RecipeLine> {
    if menu in recipes then recipes[menu] else []
  }

  function MenuDetails(items: seq<OrderLine>, recipes: Recipes): seq<MenuDetail>
    decreases |items|
  {
    if items == [] then []
    else
      var item := items[|items| - 1];
      MenuDetails(items[..|items| - 1], recipes)
        + [MenuDetail(item.menuName, |RecipeOf(recipes, item.menuName)|, item.quantity)]
  }

  function MissingRecipes(items: seq<OrderLine>, recipes: Recipes): seq<Shortage>
    decreases |items|
  {
    if items == [] then []
    else
      var item := items[|items| - 1];
      MissingRecipes(items[..|items| - 1], recipes)
        + (if RecipeOf(recipes, item.menuName) == [] then [MenuWithoutRecipe(item.menuName)] else [])
  }

  /** setdefault, then add quantity times servings and the menu name. */
  function AddLine(nm: NeedMap, menu: string, servings: int, r: RecipeLine): NeedMap {
    var id := r.ingredientId;
    var entry := if id in nm.entries then nm.entries[id] else Need(0.0, r.unit, {});
    NeedMap(if id in nm.entries then nm.keys else nm.keys + [id],
            nm.entries[id := Need(entry.needed + r.quantity * servings as real, entry.unit, entry.menus + {menu})])
  }

  function AddLines(nm: NeedMap, menu: string, servings: int, lines: seq<RecipeLine>): NeedMap
    decreases |lines|
  {
    if lines == [] then nm
    else AddLine(AddLines(nm, menu, servings, lines[..|lines| - 1]), menu, servings, lines[|lines| - 1])
  }

  /** The need map after the first loop of check_and_consume. */
  function Needs(items: seq<OrderLine>, recipes: Recipes): NeedMap
    decreases |items|
  {
    if items == [] then NeedMap([], map[])
    else
      var item := items[|items| - 1];
      AddLines(Needs(items[..|items| - 1], recipes), item.menuName, item.quantity, RecipeOf(recipes, item.menuName))
  }

  ghost predicate NeedMapValid(nm: NeedMap) {
    (forall i, j :: 0 <= i < j < |nm.keys| ==> nm.keys[i] != nm.keys[j])
    && (forall id :: id in nm.entries <==> id in nm.keys)
    && (forall k :: 0 <= k < |nm.keys| ==> nm.keys[k] in nm.entries)
  }

  // ---------------------------------------------------------------------
  // Reference definitions of the need map

  function LineIds(lines: seq<RecipeLine>): set<IngredientId> {
    set r | r in lines :: r.ingredientId
  }

  /** What the lines need of ingredient id for the given number of servings. */
  function LineNeed(lines: seq<RecipeLine>, id: IngredientId, servings: int): real
    decreases |lines|
  {
    if lines == [] then 0.0
    else
      var r := lines[|lines| - 1];
      LineNeed(lines[..|lines| - 1], id, servings) + (if r.ingredientId == id then r.quantity * servings as real else 0.0)
  }

  /** The unit of the first of the lines that names id. */
  function FirstUnit(lines: seq<RecipeLine>, id: IngredientId): string
    requires id in LineIds(lines)
    decreases |lines|
  {
    var init := lines[..|lines| - 1];
    if id in LineIds(init) then FirstUnit(init, id)
    else
      assert forall r :: r in lines ==> r in init || r == lines[|lines| - 1] by {
        assert lines == init + [lines[|lines| - 1]];
      }
      lines[|lines| - 1].unit
  }

  /** Every ingredient some ordered menu's recipe names. */
  function Mentioned(items: seq<OrderLine>, recipes: Recipes): set<IngredientId>
    decreases |items|
  {
    if items == [] then {}
    else
      var item := items[|items| - 1];
      Mentioned(items[..|items| - 1], recipes) + LineIds(RecipeOf(recipes, item.menuName))
  }

  /** The whole order's need of ingredient id. */
  function TotalNeed(items: seq<OrderLine>, recipes: Recipes, id: IngredientId): real
    decreases |items|
  {
    if items == [] then 0.0
    else
      var item := items[|items| - 1];
      TotalNeed(items[..|items| - 1], recipes, id) + LineNeed(RecipeOf(recipes, item.menuName), id, item.quantity)
  }

  /** The ordered menus whose recipe names ingredient id. */
  function MenusUsing(items: seq<OrderLine>, recipes: Recipes, id: IngredientId): set<string>
    decreases |items|
  {
    if items == [] then {}
    else
      var item := items[|items| - 1];
      MenusUsing(items[..|items| - 1], recipes, id)
        + (if id in LineIds(RecipeOf(recipes, item.menuName)) then {item.menuName} else {})
  }

  /** The unit of the first recipe line of the order that names id. */
  function UnitOf(items: seq<OrderLine>, recipes: Recipes, id: IngredientId): string
    requires id in Mentioned(items, recipes)
    decreases |items|
  {
    var init := items[..|items| - 1];
    if id in Mentioned(init, recipes) then UnitOf(init, recipes, id)
    else FirstUnit(RecipeOf(recipes, items[|items| - 1].menuName), id)
  }

  lemma LineIdsSnoc(lines: seq<RecipeLine>)
    requires lines != []
    ensures LineIds(lines) == LineIds(lines[..|lines| - 1]) + {lines[|lines| - 1].ingredientId}
  {
    assert lines == lines[..|lines| - 1] + [lines[|lines| - 1]];
  }

  lemma {:induction false} LineNeedAbsent(lines: seq<RecipeLine>, id: IngredientId, servings: int)
    requires id !in LineIds(lines)
    ensures LineNeed(lines, id, servings) == 0.0
    decreases |lines|
  {
    if lines != [] {
      LineIdsSnoc(lines);
      LineNeedAbsent(lines[..|lines| - 1], id, servings);
    }
  }

  lemma {:induction false} TotalNeedAbsent(items: seq<OrderLine>, recipes: Recipes, id: IngredientId)
    requires id !in Mentioned(items, recipes)
    ensures TotalNeed(items, recipes, id) == 0.0
    decreases |items|
  {
    if items != [] {
      var item := items[|items| - 1];
      TotalNeedAbsent(items[..|items| - 1], recipes, id);
      LineNeedAbsent(RecipeOf(recipes, item.menuName), id, item.quantity);
    }
  }

  lemma {:induction false} MenusUsingAbsent(items: seq<OrderLine>, recipes: Recipes, id: IngredientId)
    requires id !in Mentioned(items, recipes)
    ensures MenusUsing(items, recipes, id) == {}
    decreases |items|
  {
    if items != [] {
      MenusUsingAbsent(items[..|items| - 1], recipes, id);
    }
  }

  /** Adding a recipe's lines to the need map adds exactly that recipe's need
      of every ingredient, keeps the first unit and records the menu. */
  lemma AddLinesSpec(nm: NeedMap, menu: string, servings: int, lines: seq<RecipeLine>)
    requires NeedMapValid(nm)
    ensures var out := AddLines(nm, menu, servings, lines);
      NeedMapValid(out) && nm.keys <= out.keys
      && (forall id :: id in out.entries <==> id in nm.entries || id in LineIds(lines))
      && (forall id :: id in out.entries ==>
            out.entries[id].needed == (if id in nm.entries then nm.entries[id].needed else 0.0) + LineNeed(lines, id, servings))
      && (forall id :: id in out.entries ==>
            out.entries[id].menus == (if id in nm.entries then nm.entries[id].menus else {})
                                      + (if id in LineIds(lines) then {menu} else {}))
      && (forall id :: id in out.entries ==>
            out.entries[id].unit == if id in nm.entries then nm.entries[id].unit else FirstUnit(lines, id))
  {
    AddLinesDomain(nm, menu, servings, lines);
    AddLinesNeeded(nm, menu, servings, lines);
    AddLinesMenus(nm, menu, servings, lines);
    AddLinesUnit(nm, menu, servings, lines);
  }

  lemma {:induction false} AddLinesDomain(nm: NeedMap, menu: string, servings: int, lines: seq<RecipeLine>)
    requires NeedMapValid(nm)
    ensures var out := AddLines(nm, menu, servings, lines);
      NeedMapValid(out) && nm.keys <= out.keys
      && forall id :: id in out.entries <==> id in nm.entries || id in LineIds(lines)
    decreases |lines|
  {
    if lines != [] {
      var init := lines[..|lines| - 1];
      AddLinesDomain(nm, menu, servings, init);
      LineIdsSnoc(lines);
      AddLineValid(AddLines(nm, menu, servings, init), menu, servings, lines[|lines| - 1]);
    }
  }

  lemma {:induction false} AddLinesNeeded(nm: NeedMap, menu: string, servings: int, lines: seq<RecipeLine>)
    requires NeedMapValid(nm)
    ensures var out := AddLines(nm, menu, servings, lines);
      forall id :: id in out.entries ==>
        out.entries[id].needed == (if id in nm.entries then nm.entries[id].needed else 0.0) + LineNeed(lines, id, servings)
    decreases |lines|
  {
    if lines != [] {
      var init := lines[..|lines| - 1];
      var r := lines[|lines| - 1];
      AddLinesNeeded(nm, menu, servings, init);
      AddLinesDomain(nm, menu, servings, init);
      if r.ingredientId !in AddLines(nm, menu, servings, init).entries {
        LineNeedAbsent(init, r.ingredientId, servings);
      }
    }
  }

  lemma {:induction false} AddLinesMenus(nm: NeedMap, menu: string, servings: int, lines: seq<RecipeLine>)
    requires NeedMapValid(nm)
    ensures var out := AddLines(nm, menu, servings, lines);
      forall id :: id in out.entries ==>
        out.entries[id].menus == (if id in nm.entries then nm.entries[id].menus else {})
                                 + (if id in LineIds(lines) then {menu} else {})
    decreases |lines|
  {
    if lines != [] {
      var init := lines[..|lines| - 1];
      AddLinesMenus(nm, menu, servings, init);
      AddLinesDomain(nm, menu, servings, init);
      LineIdsSnoc(lines);
    }
  }

  lemma {:induction false} AddLinesUnit(nm: NeedMap, menu: string, servings: int, lines: seq<RecipeLine>)
    requires NeedMapValid(nm)
    ensures var out := AddLines(nm, menu, servings, lines);
      forall id :: id in out.entries && (id in nm.entries || id in LineIds(lines)) ==>
        out.entries[id].unit == if id in nm.entries then nm.entries[id].unit else FirstUnit(lines, id)
    decreases |lines|
  {
    if lines != [] {
      var init := lines[..|lines| - 1];
      AddLinesUnit(nm, menu, servings, init);
      AddLinesDomain(nm, menu, servings, init);
      AddLinesDomain(nm, menu, servings, lines);
      LineIdsSnoc(lines);
    }
  }

  /** Adding one line keeps the keys distinct and in step with the entries. */
  lemma AddLineValid(nm: NeedMap, menu: string, servings: int, r: RecipeLine)
    requires NeedMapValid(nm)
    ensures NeedMapValid(AddLine(nm, menu, servings, r)) && nm.keys <= AddLine(nm, menu, servings, r).keys
  {
    var out := AddLine(nm, menu, servings, r);
    forall i, j | 0 <= i < j < |out.keys| ensures out.keys[i] != out.keys[j] {
      if r.ingredientId !in nm.entries && j == |out.keys| - 1 {
        assert out.keys[i] == nm.keys[i];
      }
    }
  }

  /** The need map holds, for exactly the ingredients the order's recipes
      name, the order's total need, the first unit and the menus using it. */
  lemma {:induction false} NeedsSpec(items: seq<OrderLine>, recipes: Recipes)
    ensures var nm := Needs(items, recipes);
      NeedMapValid(nm)
      && (forall id :: id in nm.entries <==> id in Mentioned(items, recipes))
      && (forall id :: id in nm.entries ==> nm.entries[id].needed == TotalNeed(items, recipes, id))
      && (forall id :: id in nm.entries ==> nm.entries[id].menus == MenusUsing(items, recipes, id))
      && (forall id :: id in nm.entries ==> nm.entries[id].unit == UnitOf(items, recipes, id))
    decreases |items|
  {
    if items != [] {
      var init := items[..|items| - 1];
      var item := items[|items| - 1];
      var lines := RecipeOf(recipes, item.menuName);
      var before := Needs(init, recipes);
      var nm := Needs(items, recipes);
      NeedsSpec(init, recipes);
      AddLinesSpec(before, item.menuName, item.quantity, lines);
      assert nm == AddLines(before, item.menuName, item.quantity, lines);
      forall id | id in nm.entries
        ensures nm.entries[id].needed == TotalNeed(items, recipes, id)
      {
        if id !in before.entries {
          TotalNeedAbsent(init, recipes, id);
        }
      }
      forall id | id in nm.entries
        ensures nm.entries[id].menus == MenusUsing(items, recipes, id)
      {
        if id !in before.entries {
          MenusUsingAbsent(init, recipes, id);
        }
      }
      forall id | id in nm.entries
        ensures nm.entries[id].unit == UnitOf(items, recipes, id)
      {
      }
    }
  }

  // ---------------------------------------------------------------------
  // Specification: shortages, partial suggestions, consumption

  /** inv.current_quantity if the row exists, else 0. */
  function Available(stock: Stock, id: IngredientId): real {
    if id in stock then stock[id] else 0.0
  }

  /** The shortage entries for the first n keys of the need map, in key order. */
  function ShortagesUpTo(nm: NeedMap, stock: Stock, n: nat): seq<Shortage>
    requires NeedMapValid(nm) && n <= |nm.keys|
    decreases n
  {
    if n == 0 then []
    else
      var id := nm.keys[n - 1];
      var need := nm.entries[id];
      ShortagesUpTo(nm, stock, n - 1)
        + (if Available(stock, id) < need.needed
           then [IngredientShort(id, need.needed, Available(stock, id), need.unit, need.menus)]
           else [])
  }

  function IngredientShortages(nm: NeedMap, stock: Stock): seq<Shortage>
    requires NeedMapValid(nm)
  {
    ShortagesUpTo(nm, stock, |nm.keys|)
  }

  /** The loop that computes max_make, with its two early exits; None stands
      for the initial infinity. */
  function MaxMakeFrom(lines: seq<RecipeLine>, stock: Stock, best: Option<int>): Option<int>
    decreases |lines|
  {
    if lines == [] then best
    else
      var r := lines[0];
      if r.ingredientId !in stock || r.quantity <= 0.0 then Some(0)
      else
        var possible := (stock[r.ingredientId] / r.quantity).Floor;
        var m := if best.None? || possible < best.value then Some(possible) else best;
        if m == Some(0) then m else MaxMakeFrom(lines[1..], stock, m)
  }

  /** How many servings of a menu the stock allows (for a non-empty recipe). */
  function MaxMake(lines: seq<RecipeLine>, stock: Stock): int
    requires lines != []
  {
    MaxMakeFrom(lines, stock, None).GetOr(0)
  }

  function Suggestions(items: seq<OrderLine>, recipes: Recipes, stock: Stock): seq<Suggestion>
    decreases |items|
  {
    if items == [] then []
    else
      var item := items[|items| - 1];
      var lines := RecipeOf(recipes, item.menuName);
      Suggestions(items[..|items| - 1], recipes, stock)
        + (if lines != [] && MaxMake(lines, stock) < item.quantity
           then [Suggestion(item.menuName, item.quantity, MaxMake(lines, stock))]
           else [])
  }

  /** The consumption loop over the first n keys: a missing row raises a
      KeyError, a negative result a ValueError; either aborts. */
  function ConsumeUpTo(stock: Stock, nm: NeedMap, n: nat): Result<(Stock, seq<Deduction>), ConsumeFailure>
    requires NeedMapValid(nm) && n <= |nm.keys|
    decreases n
  {
    if n == 0 then Success((stock, []))
    else
      match ConsumeUpTo(stock, nm, n - 1)
      case Failure(e) => Failure(e)
      case Success((s, ds)) =>
        var id := nm.keys[n - 1];
        var need := nm.entries[id];
        if id !in s then Failure(MissingRow(id))
        else
          var after := s[id] - need.needed;
          if after < 0.0 then Failure(NegativeStock(id))
          else Success((s[id := after], ds + [Deduction(id, need.needed, s[id], after, need.unit)]))
  }

  function Consume(stock: Stock, nm: NeedMap): Result<(Stock, seq<Deduction>), ConsumeFailure>
    requires NeedMapValid(nm)
  {
    ConsumeUpTo(stock, nm, |nm.keys|)
  }

  /** The consumption log of an order, if there is one. */
  function Existing(ledger: Ledger, orderId: string): Option<ConsumptionLog> {
    if orderId in ledger then Some(ledger[orderId]) else None
  }

  /** An order whose stock is consumed and not rolled back: the request is
      answered from the log. */
  predicate AlreadyConsumed(ledger: Ledger, orderId: string) {
    orderId in ledger && ledger[orderId].consumed && !ledger[orderId].rolledBack
  }

  /** POST /stock/check_and_consume: the response and the new tables. */
  function CheckAndConsume(stock: Stock, ledger: Ledger, orderId: string, items: seq<OrderLine>,
                           fetch: RecipeFetch, consume: bool): Outcome
  {
    var existing := Existing(ledger, orderId);
    if AlreadyConsumed(ledger, orderId) then
      Outcome(StockResponse(true, [], [], existing.value.perMenu), stock, ledger)
    else
      match fetch
      case FetchFailed(reason) =>
        Outcome(StockResponse(false, [RecipeFetchError(reason)], [], []), stock, ledger)
      case Fetched(recipes) =>
        var details := MenuDetails(items, recipes);
        var nm := Needs(items, recipes);
        NeedsSpec(items, recipes);
        var shortages := MissingRecipes(items, recipes) + IngredientShortages(nm, stock);
        if shortages != [] then
          Outcome(StockResponse(false, shortages, Suggestions(items, recipes, stock), details), stock, ledger)
        else if !consume then
          Outcome(StockResponse(true, [], [], details), stock,
                  if existing.None? then ledger[orderId := ConsumptionLog(details, None, false, false)] else ledger)
        else
          match Consume(stock, nm)
          case Failure(e) =>
            Outcome(StockResponse(false, [ConsumeError(e)], [], []), stock, ledger)
          case Success((after, deductions)) =>
            var log := if existing.Some?
              then existing.value.(perMenu := details, perIngredient := Some(deductions), consumed := true)
              else ConsumptionLog(details, Some(deductions), true, false);
            Outcome(StockResponse(true, [], [], details), after, ledger[orderId := log])
  }

  /** Adds every deduction back to its row, when the row still exists. */
  function Restore(stock: Stock, ds: seq<Deduction>): Stock
    decreases |ds|
  {
    if ds == [] then stock
    else
      var s := Restore(stock, ds[..|ds| - 1]);
      var d := ds[|ds| - 1];
      if d.ingredientId in s then s[d.ingredientId := s[d.ingredientId] + d.deducted] else s
  }

  /** POST /stock/rollback/{order_id}. */
  function Rollback(stock: Stock, ledger: Ledger, orderId: string): RollbackOutcome {
    if orderId !in ledger || !ledger[orderId].consumed then RollbackOutcome(Ignored, stock, ledger)
    else if ledger[orderId].rolledBack then RollbackOutcome(AlreadyRolledBack, stock, ledger)
    else
      var ds := ledger[orderId].perIngredient.GetOr([]);
      RollbackOutcome(RolledBack(|ds|), Restore(stock, ds), ledger[orderId := ledger[orderId].(rolledBack := true)])
  }

  // ---------------------------------------------------------------------
  // Properties

  /** Every ordered menu has a recipe. */
  predicate AllHaveRecipes(items: seq<OrderLine>, recipes: Recipes) {
    forall i :: 0 <= i < |items| ==> RecipeOf(recipes, items[i].menuName) != []
  }

  /** The stock covers the order's need of every ingredient it names. */
  ghost predicate Enough(items: seq<OrderLine>, recipes: Recipes, stock: Stock) {
    forall id :: id in Mentioned(items, recipes) ==> TotalNeed(items, recipes, id) <= Available(stock, id)
  }

  /** "Menu tanpa resep" is reported exactly when some ordered menu has no recipe. */
  lemma {:induction false} MissingRecipesEmpty(items: seq<OrderLine>, recipes: Recipes)
    ensures MissingRecipes(items, recipes) == [] <==> AllHaveRecipes(items, recipes)
    decreases |items|
  {
    if items != [] {
      var init := items[..|items| - 1];
      MissingRecipesEmpty(init, recipes);
      assert forall i :: 0 <= i < |init| ==> init[i] == items[i];
    }
  }

  /** The ingredients reported short are exactly those whose need exceeds
      what is available (a missing row counting as zero), each reported with
      its need and its availability. */
  lemma ShortagesUpToSpec(nm: NeedMap, stock: Stock, n: nat)
    requires NeedMapValid(nm) && n <= |nm.keys|
    ensures var sh := ShortagesUpTo(nm, stock, n);
      (forall x :: x in sh ==> x.IngredientShort? && x.ingredientId in nm.keys[..n]
                               && x.required == nm.entries[x.ingredientId].needed
                               && x.available == Available(stock, x.ingredientId))
      && (forall k :: 0 <= k < n && Available(stock, nm.keys[k]) < nm.entries[nm.keys[k]].needed
            ==> exists x :: x in sh && x.ingredientId == nm.keys[k])
      && (sh == [] <==> forall k :: 0 <= k < n ==> nm.entries[nm.keys[k]].needed <= Available(stock, nm.keys[k]))
  {
    ShortagesUpToSound(nm, stock, n);
    ShortagesUpToComplete(nm, stock, n);
    ShortagesUpToEmpty(nm, stock, n);
  }

  lemma {:induction false} ShortagesUpToSound(nm: NeedMap, stock: Stock, n: nat)
    requires NeedMapValid(nm) && n <= |nm.keys|
    ensures forall x :: x in ShortagesUpTo(nm, stock, n) ==>
      x.IngredientShort? && x.ingredientId in nm.keys[..n]
      && x.required == nm.entries[x.ingredientId].needed
      && x.available == Available(stock, x.ingredientId)
    decreases n
  {
    if n > 0 {
      ShortagesUpToSound(nm, stock, n - 1);
      assert nm.keys[..n] == nm.keys[..n - 1] + [nm.keys[n - 1]];
    }
  }

  lemma {:induction false} ShortagesUpToComplete(nm: NeedMap, stock: Stock, n: nat)
    requires NeedMapValid(nm) && n <= |nm.keys|
    ensures forall k :: 0 <= k < n && Available(stock, nm.keys[k]) < nm.entries[nm.keys[k]].needed ==>
      exists x :: x in ShortagesUpTo(nm, stock, n) && x.IngredientShort? && x.ingredientId == nm.keys[k]
    decreases n
  {
    if n > 0 {
      ShortagesUpToComplete(nm, stock, n - 1);
      var sh := ShortagesUpTo(nm, stock, n);
      var id := nm.keys[n - 1];
      if Available(stock, id) < nm.entries[id].needed {
        assert sh[|sh| - 1].ingredientId == id;
      }
    }
  }

  lemma {:induction false} ShortagesUpToEmpty(nm: NeedMap, stock: Stock, n: nat)
    requires NeedMapValid(nm) && n <= |nm.keys|
    ensures ShortagesUpTo(nm, stock, n) == []
      <==> forall k :: 0 <= k < n ==> nm.entries[nm.keys[k]].needed <= Available(stock, nm.keys[k])
    decreases n
  {
    if n > 0 {
      ShortagesUpToEmpty(nm, stock, n - 1);
    }
  }

  /** With no shortage, consuming fails only on an ingredient that has no
      inventory row. */
  lemma {:induction false} ConsumeUpToOutcome(stock: Stock, nm: NeedMap, n: nat)
    requires NeedMapValid(nm) && n <= |nm.keys|
    requires forall k :: 0 <= k < n ==> nm.entries[nm.keys[k]].needed <= Available(stock, nm.keys[k])
    ensures var res := ConsumeUpTo(stock, nm, n);
      (res.Success? <==> forall k :: 0 <= k < n ==> nm.keys[k] in stock)
      && (res.Failure? ==> res.error.MissingRow?)
      && (res.Success? ==> res.value.0.Keys == stock.Keys
                           && forall k :: n <= k < |nm.keys| && nm.keys[k] in stock ==> res.value.0[nm.keys[k]] == stock[nm.keys[k]])
    decreases n
  {
    if n > 0 {
      ConsumeUpToOutcome(stock, nm, n - 1);
    }
  }

  /** A successful consumption takes each ingredient's need off its row once
      and leaves every other row as it was. */
  lemma {:induction false} ConsumeUpToStock(stock: Stock, nm: NeedMap, n: nat)
    requires NeedMapValid(nm) && n <= |nm.keys|
    requires ConsumeUpTo(stock, nm, n).Success?
    ensures var after := ConsumeUpTo(stock, nm, n).value.0;
      after.Keys == stock.Keys
      && (forall id :: id in stock ==>
            after[id] == if id in nm.keys[..n] then stock[id] - nm.entries[id].needed else stock[id])
    decreases n
  {
    if n > 0 {
      ConsumeUpToStock(stock, nm, n - 1);
      var id := nm.keys[n - 1];
      assert nm.keys[..n] == nm.keys[..n - 1] + [id];
      assert id !in nm.keys[..n - 1];
    }
  }

  /** A successful consumption logs, in need-map order, one deduction per
      ingredient with the row's quantity before and after. */
  lemma {:induction false} ConsumeUpToLog(stock: Stock, nm: NeedMap, n: nat)
    requires NeedMapValid(nm) && n <= |nm.keys|
    requires ConsumeUpTo(stock, nm, n).Success?
    ensures var ds := ConsumeUpTo(stock, nm, n).value.1;
      |ds| == n
      && (forall k :: 0 <= k < n ==>
            nm.keys[k] in stock
            && ds[k] == Deduction(nm.keys[k], nm.entries[nm.keys[k]].needed, stock[nm.keys[k]],
                                  stock[nm.keys[k]] - nm.entries[nm.keys[k]].needed, nm.entries[nm.keys[k]].unit))
    decreases n
  {
    if n > 0 {
      ConsumeUpToLog(stock, nm, n - 1);
      ConsumeUpToStock(stock, nm, n - 1);
      var id := nm.keys[n - 1];
      assert id !in nm.keys[..n - 1];
    }
  }

  /** A dry run never changes the stock; it answers "can fulfil" exactly when
      every menu has a recipe and the stock covers every need, and then logs
      the order as checked unless it already has a log. */
  lemma DryRunVerdict(stock: Stock, ledger: Ledger, orderId: string, items: seq<OrderLine>, recipes: Recipes)
    requires !AlreadyConsumed(ledger, orderId)
    ensures var o := CheckAndConsume(stock, ledger, orderId, items, Fetched(recipes), false);
      o.stock == stock
      && (o.response.canFulfill <==> AllHaveRecipes(items, recipes) && Enough(items, recipes, stock))
      && (o.response.canFulfill ==>
            o.ledger == if orderId in ledger then ledger
                        else ledger[orderId := ConsumptionLog(MenuDetails(items, recipes), None, false, false)])
      && (!o.response.canFulfill ==> o.ledger == ledger)
  {
    VerdictCore(stock, items, recipes);
  }

  /** The shortage list of a fetched order is empty exactly when every menu
      has a recipe and the stock covers every need. */
  lemma VerdictCore(stock: Stock, items: seq<OrderLine>, recipes: Recipes)
    ensures NeedMapValid(Needs(items, recipes))
    ensures MissingRecipes(items, recipes) + IngredientShortages(Needs(items, recipes), stock) == []
        <==> AllHaveRecipes(items, recipes) && Enough(items, recipes, stock)
  {
    NeedsSpec(items, recipes);
    MissingRecipesEmpty(items, recipes);
    NoShortageIsEnough(stock, items, recipes);
    var a, b := MissingRecipes(items, recipes), IngredientShortages(Needs(items, recipes), stock);
    assert a + b == [] <==> a == [] && b == [] by {
      if a + b == [] {
        assert |a + b| == |a| + |b|;
      }
    }
  }

  /** No ingredient is reported short exactly when the stock covers every
      need. */
  lemma NoShortageIsEnough(stock: Stock, items: seq<OrderLine>, recipes: Recipes)
    ensures NeedMapValid(Needs(items, recipes))
    ensures IngredientShortages(Needs(items, recipes), stock) == [] <==> Enough(items, recipes, stock)
  {
    var nm := Needs(items, recipes);
    NeedsSpec(items, recipes);
    ShortagesUpToSpec(nm, stock, |nm.keys|);
    assert nm.keys[..|nm.keys|] == nm.keys;
    if IngredientShortages(nm, stock) == [] {
      forall id | id in Mentioned(items, recipes) ensures TotalNeed(items, recipes, id) <= Available(stock, id) {
        var k :| 0 <= k < |nm.keys| && nm.keys[k] == id;
      }
    }
    if Enough(items, recipes, stock) {
      forall k | 0 <= k < |nm.keys| ensures nm.entries[nm.keys[k]].needed <= Available(stock, nm.keys[k]) {
        assert nm.keys[k] in nm.entries;
      }
    }
  }

  /** The log a successful consumption leaves for the order. */
  function ConsumedLog(ledger: Ledger, orderId: string, details: seq<MenuDetail>, deductions: seq<Deduction>): ConsumptionLog {
    if orderId in ledger
    then ledger[orderId].(perMenu := details, perIngredient := Some(deductions), consumed := true)
    else ConsumptionLog(details, Some(deductions), true, false)
  }

  /** The consuming branch of check_and_consume, stated through the verdict
      and the consumption of the need map. */
  lemma ConsumeBranch(stock: Stock, ledger: Ledger, orderId: string, items: seq<OrderLine>, recipes: Recipes)
    requires !AlreadyConsumed(ledger, orderId)
    ensures NeedMapValid(Needs(items, recipes))
    ensures var o := CheckAndConsume(stock, ledger, orderId, items, Fetched(recipes), true);
      var res := Consume(stock, Needs(items, recipes));
      if !(AllHaveRecipes(items, recipes) && Enough(items, recipes, stock)) then
        !o.response.canFulfill && o.stock == stock && o.ledger == ledger
      else if res.Failure? then
        o.response == StockResponse(false, [ConsumeError(res.error)], [], []) && o.stock == stock && o.ledger == ledger
      else
        o.response == StockResponse(true, [], [], MenuDetails(items, recipes))
        && o.stock == res.value.0
        && o.ledger == ledger[orderId := ConsumedLog(ledger, orderId, MenuDetails(items, recipes), res.value.1)]
  {
    VerdictCore(stock, items, recipes);
  }

  /** A consuming request that is not a replay succeeds exactly when every
      menu has a recipe, the stock covers every need and every named
      ingredient has an inventory row; when it fails, neither table changes. */
  lemma ConsumeVerdict(stock: Stock, ledger: Ledger, orderId: string, items: seq<OrderLine>, recipes: Recipes)
    requires !AlreadyConsumed(ledger, orderId)
    ensures var o := CheckAndConsume(stock, ledger, orderId, items, Fetched(recipes), true);
      (o.response.canFulfill <==>
         AllHaveRecipes(items, recipes) && Enough(items, recipes, stock)
         && forall id :: id in Mentioned(items, recipes) ==> id in stock)
      && (!o.response.canFulfill ==> o.stock == stock && o.ledger == ledger)
  {
    var nm := Needs(items, recipes);
    ConsumeBranch(stock, ledger, orderId, items, recipes);
    NeedsSpec(items, recipes);
    if AllHaveRecipes(items, recipes) && Enough(items, recipes, stock) {
      NoShortageWithinStock(stock, items, recipes);
      ConsumeUpToOutcome(stock, nm, |nm.keys|);
      if forall id :: id in Mentioned(items, recipes) ==> id in stock {
        assert forall k :: 0 <= k < |nm.keys| ==> nm.keys[k] in stock by {
          forall k | 0 <= k < |nm.keys| ensures nm.keys[k] in stock {
            assert nm.keys[k] in nm.entries;
          }
        }
      } else {
        var id :| id in Mentioned(items, recipes) && id !in stock;
        var k :| 0 <= k < |nm.keys| && nm.keys[k] == id;
      }
    }
  }

  lemma NoShortageWithinStock(stock: Stock, items: seq<OrderLine>, recipes: Recipes)
    requires Enough(items, recipes, stock)
    ensures var nm := Needs(items, recipes);
      NeedMapValid(nm)
      && forall k :: 0 <= k < |nm.keys| ==> nm.entries[nm.keys[k]].needed <= Available(stock, nm.keys[k])
  {
    var nm := Needs(items, recipes);
    NeedsSpec(items, recipes);
    forall k | 0 <= k < |nm.keys| ensures nm.entries[nm.keys[k]].needed <= Available(stock, nm.keys[k]) {
      assert nm.keys[k] in nm.entries;
    }
  }

  /** A successful consuming request takes off each named ingredient's row
      exactly the order's need of it and leaves it non-negative, and changes
      no other row. */
  lemma ConsumeStockEffect(stock: Stock, ledger: Ledger, orderId: string, items: seq<OrderLine>, recipes: Recipes)
    requires !AlreadyConsumed(ledger, orderId)
    requires CheckAndConsume(stock, ledger, orderId, items, Fetched(recipes), true).response.canFulfill
    ensures var o := CheckAndConsume(stock, ledger, orderId, items, Fetched(recipes), true);
      o.stock.Keys == stock.Keys
      && (forall id :: id in stock ==>
            o.stock[id] == if id in Mentioned(items, recipes) then stock[id] - TotalNeed(items, recipes, id) else stock[id])
      && (forall id :: id in Mentioned(items, recipes) ==> id in o.stock && o.stock[id] >= 0.0)
  {
    var nm := Needs(items, recipes);
    var o := CheckAndConsume(stock, ledger, orderId, items, Fetched(recipes), true);
    ConsumeBranch(stock, ledger, orderId, items, recipes);
    ConsumeVerdict(stock, ledger, orderId, items, recipes);
    var res := Consume(stock, nm);
    assert AllHaveRecipes(items, recipes) && Enough(items, recipes, stock) && res.Success?;
    assert o.stock == res.value.0;
    NeedsSpec(items, recipes);
    ConsumeUpToStock(stock, nm, |nm.keys|);
    assert nm.keys[..|nm.keys|] == nm.keys;
  }

  /** A successful consuming request marks the order's log consumed, with the
      per-menu summary and one deduction per named ingredient, and changes no
      other order's log. */
  lemma ConsumeLogEffect(stock: Stock, ledger: Ledger, orderId: string, items: seq<OrderLine>, recipes: Recipes)
    requires !AlreadyConsumed(ledger, orderId)
    requires CheckAndConsume(stock, ledger, orderId, items, Fetched(recipes), true).response.canFulfill
    ensures var o := CheckAndConsume(stock, ledger, orderId, items, Fetched(recipes), true);
      orderId in o.ledger && o.ledger[orderId].consumed
      && o.ledger[orderId].perMenu == MenuDetails(items, recipes)
      && o.ledger[orderId].perIngredient.Some?
      && |o.ledger[orderId].perIngredient.value| == |Mentioned(items, recipes)|
      && o.ledger[orderId].rolledBack == (orderId in ledger && ledger[orderId].rolledBack)
      && (forall other :: other in ledger && other != orderId ==> other in o.ledger && o.ledger[other] == ledger[other])
  {
    var nm := Needs(items, recipes);
    ConsumeBranch(stock, ledger, orderId, items, recipes);
    ConsumeVerdict(stock, ledger, orderId, items, recipes);
    var res := Consume(stock, nm);
    assert AllHaveRecipes(items, recipes) && Enough(items, recipes, stock) && res.Success?;
    var o := CheckAndConsume(stock, ledger, orderId, items, Fetched(recipes), true);
    var log := ConsumedLog(ledger, orderId, MenuDetails(items, recipes), res.value.1);
    assert o.ledger == ledger[orderId := log];
    NeedsSpec(items, recipes);
    ConsumeUpToLog(stock, nm, |nm.keys|);
    KeysCount(nm);
    assert nm.entries.Keys == Mentioned(items, recipes) by {
      forall id ensures id in nm.entries.Keys <==> id in Mentioned(items, recipes) {
        assert id in nm.entries.Keys <==> id in nm.entries;
      }
    }
    assert |res.value.1| == |Mentioned(items, recipes)|;
  }

  /** A need map holds as many keys as entries. */
  lemma KeysCount(nm: NeedMap)
    requires NeedMapValid(nm)
    ensures |nm.entries.Keys| == |nm.keys|
  {
    var ks := set k | k in nm.keys;
    forall id ensures id in ks <==> id in nm.entries {
    }
    assert ks == nm.entries.Keys;
    DistinctCard(nm.keys);
  }

  lemma {:induction false} DistinctCard(s: seq<IngredientId>)
    requires forall i, j :: 0 <= i < j < |s| ==> s[i] != s[j]
    ensures |set k | k in s| == |s|
    decreases |s|
  {
    if s != [] {
      var init := s[..|s| - 1];
      DistinctCard(init);
      assert (set k | k in s) == (set k | k in init) + {s[|s| - 1]};
      assert s[|s| - 1] !in init;
    }
  }

  // ---------------------------------------------------------------------
  // Replay, rollback and the stock invariant

  /** A request for an order whose stock is consumed and not rolled back is
      answered from its log, whatever the request holds, and changes nothing. */
  lemma ReplayAnswersFromLog(stock: Stock, ledger: Ledger, orderId: string, items: seq<OrderLine>,
                             fetch: RecipeFetch, consume: bool)
    requires AlreadyConsumed(ledger, orderId)
    ensures CheckAndConsume(stock, ledger, orderId, items, fetch, consume)
         == Outcome(StockResponse(true, [], [], ledger[orderId].perMenu), stock, ledger)
  {
  }

  /** When the recipes cannot be fetched, the request fails with that error
      alone and changes nothing. */
  lemma FetchFailureChangesNothing(stock: Stock, ledger: Ledger, orderId: string, items: seq<OrderLine>,
                                   reason: string, consume: bool)
    requires !AlreadyConsumed(ledger, orderId)
    ensures CheckAndConsume(stock, ledger, orderId, items, FetchFailed(reason), consume)
         == Outcome(StockResponse(false, [RecipeFetchError(reason)], [], []), stock, ledger)
  {
  }

  /** Once a consuming request for a fresh order (or one only dry-run
      checked) succeeds, every later request for that order is a replay: it
      gets the same per-menu details and changes nothing. */
  lemma ConsumeIsIdempotent(stock: Stock, ledger: Ledger, orderId: string, items: seq<OrderLine>, recipes: Recipes,
                            items2: seq<OrderLine>, fetch2: RecipeFetch, consume2: bool)
    requires orderId !in ledger || (!ledger[orderId].consumed && !ledger[orderId].rolledBack)
    requires CheckAndConsume(stock, ledger, orderId, items, Fetched(recipes), true).response.canFulfill
    ensures var o1 := CheckAndConsume(stock, ledger, orderId, items, Fetched(recipes), true);
      AlreadyConsumed(o1.ledger, orderId)
      && CheckAndConsume(o1.stock, o1.ledger, orderId, items2, fetch2, consume2)
         == Outcome(StockResponse(true, [], [], o1.response.details), o1.stock, o1.ledger)
  {
    ConsumeLogEffect(stock, ledger, orderId, items, recipes);
    ConsumeBranch(stock, ledger, orderId, items, recipes);
  }

  /** Adding deductions with distinct ingredients back to the stock adds each
      to its row, when the row exists, and changes nothing else. */
  lemma {:induction false} RestoreSpec(stock: Stock, ds: seq<Deduction>)
    requires forall i, j :: 0 <= i < j < |ds| ==> ds[i].ingredientId != ds[j].ingredientId
    ensures Restore(stock, ds).Keys == stock.Keys
    ensures forall k :: 0 <= k < |ds| && ds[k].ingredientId in stock ==>
              Restore(stock, ds)[ds[k].ingredientId] == stock[ds[k].ingredientId] + ds[k].deducted
    ensures forall id :: id in stock && (forall k :: 0 <= k < |ds| ==> ds[k].ingredientId != id) ==>
              Restore(stock, ds)[id] == stock[id]
    decreases |ds|
  {
    if ds != [] {
      RestoreSpec(stock, ds[..|ds| - 1]);
    }
  }

  /** Adding back the deductions a successful consumption logged gives the
      stock before it. */
  lemma ConsumedDeductionsRestore(stock: Stock, ledger: Ledger, orderId: string, items: seq<OrderLine>, recipes: Recipes)
    requires !AlreadyConsumed(ledger, orderId)
    requires CheckAndConsume(stock, ledger, orderId, items, Fetched(recipes), true).response.canFulfill
    ensures var o := CheckAndConsume(stock, ledger, orderId, items, Fetched(recipes), true);
      orderId in o.ledger && o.ledger[orderId].perIngredient.Some?
      && |o.ledger[orderId].perIngredient.value| == |Mentioned(items, recipes)|
      && Restore(o.stock, o.ledger[orderId].perIngredient.value) == stock
  {
    var nm := Needs(items, recipes);
    var o := CheckAndConsume(stock, ledger, orderId, items, Fetched(recipes), true);
    ConsumeBranch(stock, ledger, orderId, items, recipes);
    ConsumeVerdict(stock, ledger, orderId, items, recipes);
    ConsumeLogEffect(stock, ledger, orderId, items, recipes);
    assert Consume(stock, nm).Success?;
    ConsumeRestores(stock, nm);
  }

  /** Adding back the deductions of a successful consumption gives the
      stock before it. */
  lemma ConsumeRestores(stock: Stock, nm: NeedMap)
    requires NeedMapValid(nm) && Consume(stock, nm).Success?
    ensures Restore(Consume(stock, nm).value.0, Consume(stock, nm).value.1) == stock
  {
    var after, ds := Consume(stock, nm).value.0, Consume(stock, nm).value.1;
    ConsumeUpToStock(stock, nm, |nm.keys|);
    ConsumeUpToLog(stock, nm, |nm.keys|);
    assert nm.keys[..|nm.keys|] == nm.keys;
    RestoreSpec(after, ds);
    var back := Restore(after, ds);
    forall id | id in stock ensures back[id] == stock[id] {
      if id in nm.keys {
        var k :| 0 <= k < |nm.keys| && nm.keys[k] == id;
        assert ds[k].ingredientId == id;
      }
    }
    assert back == stock;
  }

  /** Consuming an order that has no log yet (or only a dry-run log) and then
      rolling it back gives back exactly the stock before the consumption,
      reports one restored entry per ingredient and marks the log rolled back. */
  lemma ConsumeThenRollbackRestores(stock: Stock, ledger: Ledger, orderId: string, items: seq<OrderLine>, recipes: Recipes)
    requires orderId !in ledger || (!ledger[orderId].consumed && !ledger[orderId].rolledBack)
    requires CheckAndConsume(stock, ledger, orderId, items, Fetched(recipes), true).response.canFulfill
    ensures var o := CheckAndConsume(stock, ledger, orderId, items, Fetched(recipes), true);
      var r := Rollback(o.stock, o.ledger, orderId);
      r.status == RolledBack(|Mentioned(items, recipes)|)
      && r.stock == stock
      && orderId in r.ledger && r.ledger[orderId] == o.ledger[orderId].(rolledBack := true)
  {
    ConsumedDeductionsRestore(stock, ledger, orderId, items, recipes);
    ConsumeLogEffect(stock, ledger, orderId, items, recipes);
  }

  /** Rolling back twice is rolling back once: the second call changes nothing. */
  lemma RollbackIsIdempotent(stock: Stock, ledger: Ledger, orderId: string)
    ensures var r1 := Rollback(stock, ledger, orderId);
      var r2 := Rollback(r1.stock, r1.ledger, orderId);
      r2.stock == r1.stock && r2.ledger == r1.ledger && (r1.status.RolledBack? ==> r2.status == AlreadyRolledBack)
  {
  }

  /** No request drives a row of the stock below zero. */
  lemma CheckAndConsumeKeepsStockNonNegative(stock: Stock, ledger: Ledger, orderId: string, items: seq<OrderLine>,
                                             fetch: RecipeFetch, consume: bool)
    requires forall id :: id in stock ==> stock[id] >= 0.0
    ensures var o := CheckAndConsume(stock, ledger, orderId, items, fetch, consume);
      forall id :: id in o.stock ==> o.stock[id] >= 0.0
  {
    var o := CheckAndConsume(stock, ledger, orderId, items, fetch, consume);
    if !AlreadyConsumed(ledger, orderId) && fetch.Fetched? && consume && o.response.canFulfill {
      ConsumeStockEffect(stock, ledger, orderId, items, fetch.recipes);
    }
  }

  /** A rollback whose logged deductions are non-negative keeps the stock non-negative. */
  lemma RollbackKeepsStockNonNegative(stock: Stock, ledger: Ledger, orderId: string)
    requires forall id :: id in stock ==> stock[id] >= 0.0
    requires orderId in ledger ==> forall d :: d in ledger[orderId].perIngredient.GetOr([]) ==> d.deducted >= 0.0
    ensures var r := Rollback(stock, ledger, orderId);
      forall id :: id in r.stock ==> r.stock[id] >= 0.0
  {
    if orderId in ledger {
      RestoreGrows(stock, ledger[orderId].perIngredient.GetOr([]));
    }
  }

  lemma {:induction false} RestoreGrows(stock: Stock, ds: seq<Deduction>)
    requires forall d :: d in ds ==> d.deducted >= 0.0
    ensures Restore(stock, ds).Keys == stock.Keys
    ensures forall id :: id in stock ==> Restore(stock, ds)[id] >= stock[id]
    decreases |ds|
  {
    if ds != [] {
      RestoreGrows(stock, ds[..|ds| - 1]);
      assert ds[|ds| - 1] in ds;
    }
  }

  /** A consumption after a rollback leaves the log marked rolled back: the
      next request for the order is not a replay, and a rollback restores
      nothing. */
  lemma RolledBackOrderConsumesAgain(stock: Stock, ledger: Ledger, orderId: string, items: seq<OrderLine>, recipes: Recipes)
    requires orderId in ledger && ledger[orderId].consumed && ledger[orderId].rolledBack
    requires CheckAndConsume(stock, ledger, orderId, items, Fetched(recipes), true).response.canFulfill
    ensures var o := CheckAndConsume(stock, ledger, orderId, items, Fetched(recipes), true);
      o.ledger[orderId].rolledBack
      && !AlreadyConsumed(o.ledger, orderId)
      && Rollback(o.stock, o.ledger, orderId) == RollbackOutcome(AlreadyRolledBack, o.stock, o.ledger)
  {
    ConsumeLogEffect(stock, ledger, orderId, items, recipes);
  }

  // ---------------------------------------------------------------------
  // Partial suggestions

  lemma MulMonotone(a: real, b: real, q: real)
    requires a <= b && q > 0.0
    ensures a * q <= b * q
  {
  }

  lemma MulStrict(a: real, b: real, q: real)
    requires a < b && q > 0.0
    ensures a * q < b * q
  {
  }

  lemma DivTimes(x: real, q: real)
    requires q > 0.0
    ensures (x / q) * q == x
  {
  }

  /** floor(x / q) servings of q fit in x, one more does not. */
  lemma FloorTimes(x: real, q: real)
    requires q > 0.0
    ensures (x / q).Floor as real * q <= x < ((x / q).Floor + 1) as real * q
    ensures x >= 0.0 ==> (x / q).Floor >= 0
  {
    var y := x / q;
    var f := y.Floor;
    DivTimes(x, q);
    assert f as real <= y < f as real + 1.0;
    assert (f + 1) as real == f as real + 1.0;
    MulMonotone(f as real, y, q);
    MulStrict(y, (f + 1) as real, q);
    assert y * q == x;
    assert y * q < (f + 1) as real * q;
    assert x < (f + 1) as real * q;
    if x >= 0.0 {
      PositiveFactor((f + 1) as real, q);
    }
  }

  lemma PositiveFactor(a: real, q: real)
    requires a * q > 0.0 && q > 0.0
    ensures a > 0.0
  {
    if a <= 0.0 {
      MulMonotone(a, 0.0, q);
    }
  }

  /** A line the stock cannot serve at all: no row, or a quantity not above zero. */
  predicate Unservable(r: RecipeLine, stock: Stock) {
    r.ingredientId !in stock || r.quantity <= 0.0
  }

  function Possible(r: RecipeLine, stock: Stock): int
    requires !Unservable(r, stock)
  {
    (stock[r.ingredientId] / r.quantity).Floor
  }

  /** The max_make loop from a running minimum gives a value, never negative
      on a non-negative stock, never above the running minimum and never
      above what any line allows. */
  lemma {:induction false} MaxMakeFromRange(lines: seq<RecipeLine>, stock: Stock, best: Option<int>)
    requires lines != [] || best.Some?
    requires best.Some? ==> best.value >= 0
    requires forall r :: r in lines && r.ingredientId in stock ==> stock[r.ingredientId] >= 0.0
    ensures var m := MaxMakeFrom(lines, stock, best);
      m.Some? && 0 <= m.value
      && (best.Some? ==> m.value <= best.value)
      && (forall r :: r in lines ==> Unservable(r, stock) ==> m.value == 0)
      && (forall r :: r in lines ==> !Unservable(r, stock) ==> m.value <= Possible(r, stock))
    decreases |lines|
  {
    if lines != [] {
      var r := lines[0];
      assert r in lines;
      if !Unservable(r, stock) {
        FloorTimes(stock[r.ingredientId], r.quantity);
        var p := Possible(r, stock);
        var m := if best.None? || p < best.value then Some(p) else best;
        if m != Some(0) {
          forall l | l in lines[1..] ensures l in lines {
          }
          MaxMakeFromRange(lines[1..], stock, m);
          forall l | l in lines ensures l == r || l in lines[1..] {
            assert lines == [r] + lines[1..];
          }
        }
      }
    }
  }

  /** The line that fixes the servings: it cannot be served and none are
      made, or it allows exactly that many. */
  predicate Bounds(r: RecipeLine, stock: Stock, m: int) {
    if Unservable(r, stock) then m == 0 else m == Possible(r, stock)
  }

  /** The loop's value is the running minimum or is fixed by some line. */
  lemma {:induction false} MaxMakeFromAttained(lines: seq<RecipeLine>, stock: Stock, best: Option<int>)
    requires lines != [] || best.Some?
    ensures var m := MaxMakeFrom(lines, stock, best);
      m.Some?
      && ((best.Some? && m.value == best.value) || exists r :: r in lines && Bounds(r, stock, m.value))
    decreases |lines|
  {
    if lines != [] {
      var r := lines[0];
      assert r in lines;
      if !Unservable(r, stock) {
        var p := Possible(r, stock);
        var m := if best.None? || p < best.value then Some(p) else best;
        if m != Some(0) {
          forall l | l in lines[1..] ensures l in lines {
          }
          MaxMakeFromAttained(lines[1..], stock, m);
        }
      }
    }
  }

  /** The servings a stock of non-negative rows allows: none is negative, that
      many fit every line, and when every line needs a positive quantity one
      more serving does not fit some line. */
  lemma MaxMakeSpec(lines: seq<RecipeLine>, stock: Stock)
    requires lines != []
    requires forall id :: id in stock ==> stock[id] >= 0.0
    ensures var m := MaxMake(lines, stock);
      0 <= m
      && (forall r :: r in lines ==> m as real * r.quantity <= Available(stock, r.ingredientId))
      && ((forall r :: r in lines ==> r.quantity > 0.0) ==>
            exists r :: r in lines && (m + 1) as real * r.quantity > Available(stock, r.ingredientId))
  {
    MaxMakeFits(lines, stock);
    if forall r :: r in lines ==> r.quantity > 0.0 {
      MaxMakeTight(lines, stock);
    }
  }

  lemma MaxMakeFits(lines: seq<RecipeLine>, stock: Stock)
    requires lines != []
    requires forall id :: id in stock ==> stock[id] >= 0.0
    ensures 0 <= MaxMake(lines, stock)
    ensures forall r :: r in lines ==> MaxMake(lines, stock) as real * r.quantity <= Available(stock, r.ingredientId)
  {
    MaxMakeFromRange(lines, stock, None);
    forall r | r in lines ensures MaxMake(lines, stock) as real * r.quantity <= Available(stock, r.ingredientId) {
      LineFits(lines, stock, r);
    }
  }

  /** The servings MaxMake gives fit one line of the recipe. */
  lemma LineFits(lines: seq<RecipeLine>, stock: Stock, r: RecipeLine)
    requires lines != [] && r in lines
    requires forall id :: id in stock ==> stock[id] >= 0.0
    ensures MaxMake(lines, stock) as real * r.quantity <= Available(stock, r.ingredientId)
  {
    var m := MaxMake(lines, stock);
    MaxMakeFromRange(lines, stock, None);
    if !Unservable(r, stock) {
      WithinPossibleFits(r, stock, m);
    } else {
      assert m as real == 0.0;
    }
  }

  /** No more servings than a line allows fit its stock. */
  lemma WithinPossibleFits(r: RecipeLine, stock: Stock, m: int)
    requires !Unservable(r, stock) && m <= Possible(r, stock)
    ensures m as real * r.quantity <= Available(stock, r.ingredientId)
  {
    FloorTimes(stock[r.ingredientId], r.quantity);
    MulMonotone(m as real, Possible(r, stock) as real, r.quantity);
  }

  lemma MaxMakeTight(lines: seq<RecipeLine>, stock: Stock)
    requires lines != []
    requires forall r :: r in lines ==> r.quantity > 0.0
    ensures exists r :: r in lines && (MaxMake(lines, stock) + 1) as real * r.quantity > Available(stock, r.ingredientId)
  {
    var r := BoundingLine(lines, stock);
    BoundingLineDoesNotFit(r, stock, MaxMake(lines, stock));
  }

  /** Some line fixes the servings MaxMake gives. */
  lemma BoundingLine(lines: seq<RecipeLine>, stock: Stock) returns (r: RecipeLine)
    requires lines != []
    ensures r in lines && Bounds(r, stock, MaxMake(lines, stock))
  {
    MaxMakeFromAttained(lines, stock, None);
    r :| r in lines && Bounds(r, stock, MaxMake(lines, stock));
  }

  /** A line that bounds the servings (it allows exactly that many, or it
      cannot be served and none are made) has no room for one more. */
  lemma BoundingLineDoesNotFit(r: RecipeLine, stock: Stock, m: int)
    requires r.quantity > 0.0
    requires Bounds(r, stock, m)
    ensures (m + 1) as real * r.quantity > Available(stock, r.ingredientId)
  {
    if !Unservable(r, stock) {
      OneMoreDoesNotFit(r, stock);
    } else {
      assert (m + 1) as real == 1.0;
    }
  }

  /** One serving more than a line allows is more than its stock. */
  lemma OneMoreDoesNotFit(r: RecipeLine, stock: Stock)
    requires !Unservable(r, stock)
    ensures (Possible(r, stock) + 1) as real * r.quantity > Available(stock, r.ingredientId)
  {
    FloorTimes(stock[r.ingredientId], r.quantity);
  }

  /** Every partial suggestion is for an ordered menu with a recipe, names its
      requested quantity, and offers the servings the stock allows, which are
      fewer than requested; every such menu gets one. */
  lemma {:induction false} SuggestionsSpec(items: seq<OrderLine>, recipes: Recipes, stock: Stock)
    ensures forall x :: x in Suggestions(items, recipes, stock) ==>
      x.canMake < x.requested
      && RecipeOf(recipes, x.menuName) != []
      && x.canMake == MaxMake(RecipeOf(recipes, x.menuName), stock)
      && exists i :: 0 <= i < |items| && items[i].menuName == x.menuName && items[i].quantity == x.requested
    ensures forall i :: 0 <= i < |items| && RecipeOf(recipes, items[i].menuName) != []
                        && MaxMake(RecipeOf(recipes, items[i].menuName), stock) < items[i].quantity ==>
      Suggestion(items[i].menuName, items[i].quantity, MaxMake(RecipeOf(recipes, items[i].menuName), stock))
        in Suggestions(items, recipes, stock)
    decreases |items|
  {
    if items != [] {
      var init := items[..|items| - 1];
      SuggestionsSpec(init, recipes, stock);
      forall x | x in Suggestions(init, recipes, stock)
        ensures exists i :: 0 <= i < |items| && items[i].menuName == x.menuName && items[i].quantity == x.requested
      {
        var i :| 0 <= i < |init| && init[i].menuName == x.menuName && init[i].quantity == x.requested;
        assert items[i] == init[i];
      }
      forall i | 0 <= i < |init| ensures items[i] == init[i] {
      }
    }
  }

  /** The response to a request that hits a shortage: the shortages, the
      suggestions and the per-menu details, with both tables unchanged. */
  lemma ShortageResponse(stock: Stock, ledger: Ledger, orderId: string, items: seq<OrderLine>, recipes: Recipes, consume: bool)
    requires !AlreadyConsumed(ledger, orderId)
    requires !(AllHaveRecipes(items, recipes) && Enough(items, recipes, stock))
    ensures NeedMapValid(Needs(items, recipes))
    ensures CheckAndConsume(stock, ledger, orderId, items, Fetched(recipes), consume)
         == Outcome(StockResponse(false,
                                  MissingRecipes(items, recipes) + IngredientShortages(Needs(items, recipes), stock),
                                  Suggestions(items, recipes, stock),
                                  MenuDetails(items, recipes)),
                    stock, ledger)
  {
    VerdictCore(stock, items, recipes);
  }

  // ---------------------------------------------------------------------
  // A consumption after a rollback, worked through

  /** Order "A-1" for one Kopi (2 grams of ingredient 1 against 10 in stock):
      consume, roll back, consume again, roll back again, consume a third
      time. The second rollback restores nothing and the third request
      deducts again, so 4 grams are gone for an order that was rolled back. */
  lemma RollbackThenReconsumeExample()
    ensures var stock := map[1 := 10.0];
      var recipes := map["Kopi" := [RecipeLine(1, 2.0, "gram")]];
      var items := [OrderLine("Kopi", 1)];
      var o1 := CheckAndConsume(stock, map[], "A-1", items, Fetched(recipes), true);
      var r1 := Rollback(o1.stock, o1.ledger, "A-1");
      var o2 := CheckAndConsume(r1.stock, r1.ledger, "A-1", items, Fetched(recipes), true);
      var r2 := Rollback(o2.stock, o2.ledger, "A-1");
      var o3 := CheckAndConsume(r2.stock, r2.ledger, "A-1", items, Fetched(recipes), true);
      o1.stock == map[1 := 8.0] && r1.stock == stock
      && o2.response.canFulfill && o2.stock == map[1 := 8.0]
      && r2.status == AlreadyRolledBack && r2.stock == map[1 := 8.0]
      && o3.response.canFulfill && o3.stock == map[1 := 6.0]
  {
    KopiConsumes(10.0, map[]);
    var o1 := CheckAndConsume(map[1 := 10.0], map[], "A-1", KopiItems(), Fetched(KopiRecipes()), true);
    assert Restore(o1.stock, [Deduction(1, 2.0, 10.0, 8.0, "gram")]) == map[1 := 10.0] by {
      var ds := [Deduction(1, 2.0, 10.0, 8.0, "gram")];
      assert ds[..0] == [];
    }
    var r1 := Rollback(o1.stock, o1.ledger, "A-1");
    KopiConsumes(10.0, r1.ledger);
    var o2 := CheckAndConsume(r1.stock, r1.ledger, "A-1", KopiItems(), Fetched(KopiRecipes()), true);
    var r2 := Rollback(o2.stock, o2.ledger, "A-1");
    KopiConsumes(8.0, r2.ledger);
  }

  function KopiItems(): seq<OrderLine> {
    [OrderLine("Kopi", 1)]
  }

  function KopiRecipes(): Recipes {
    map["Kopi" := [RecipeLine(1, 2.0, "gram")]]
  }

  /** One Kopi for order "A-1" against a row of at least 2 grams: the 2
      grams are deducted, and the log is marked consumed while its rollback
      mark is kept as it was. */
  lemma KopiConsumes(before: real, ledger: Ledger)
    requires before >= 2.0 && !AlreadyConsumed(ledger, "A-1")
    ensures var o := CheckAndConsume(map[1 := before], ledger, "A-1", KopiItems(), Fetched(KopiRecipes()), true);
      o.response.canFulfill && o.stock == map[1 := before - 2.0]
      && "A-1" in o.ledger && o.ledger["A-1"].consumed
      && o.ledger["A-1"].rolledBack == ("A-1" in ledger && ledger["A-1"].rolledBack)
      && o.ledger["A-1"].perIngredient == Some([Deduction(1, 2.0, before, before - 2.0, "gram")])
  {
    var stock := map[1 := before];
    KopiNeeds();
    var nm := Needs(KopiItems(), KopiRecipes());
    assert IngredientShortages(nm, stock) == [] by {
      assert Enough(KopiItems(), KopiRecipes(), stock) by {
        assert TotalNeed(KopiItems(), KopiRecipes(), 1) == 2.0 by {
          NeedsSpec(KopiItems(), KopiRecipes());
        }
      }
      VerdictCore(stock, KopiItems(), KopiRecipes());
    }
    assert MissingRecipes(KopiItems(), KopiRecipes()) == [] by {
      MissingRecipesEmpty(KopiItems(), KopiRecipes());
    }
    assert ConsumeUpTo(stock, nm, 0) == Success((stock, []));
    var d := Deduction(1, 2.0, before, before - 2.0, "gram");
    var none: seq<Deduction> := [];
    assert none + [d] == [d];
    assert stock[1 := before - 2.0] == map[1 := before - 2.0];
    assert ConsumeUpTo(stock, nm, 1) == Success((stock[1 := before - 2.0], none + [d]));
    assert Consume(stock, nm) == Success((map[1 := before - 2.0], [Deduction(1, 2.0, before, before - 2.0, "gram")]));
  }

  /** The need map of one Kopi. */
  lemma KopiNeeds()
    ensures Needs(KopiItems(), KopiRecipes()) == NeedMap([1], map[1 := Need(2.0, "gram", {"Kopi"})])
    ensures Mentioned(KopiItems(), KopiRecipes()) == {1}
    ensures AllHaveRecipes(KopiItems(), KopiRecipes())
  {
    var items, recipes := KopiItems(), KopiRecipes();
    var lines := RecipeOf(recipes, "Kopi");
    assert items[..0] == [];
    assert lines[..0] == [];
    assert Needs(items[..0], recipes) == NeedMap([], map[]);
    assert Needs(items, recipes) == AddLines(NeedMap([], map[]), "Kopi", 1, lines);
    assert AddLines(NeedMap([], map[]), "Kopi", 1, lines[..0]) == NeedMap([], map[]);
    assert AddLines(NeedMap([], map[]), "Kopi", 1, lines)
        == AddLine(NeedMap([], map[]), "Kopi", 1, lines[0]);
    assert lines[0] == RecipeLine(1, 2.0, "gram");
    var empty: seq<IngredientId> := [];
    assert empty + [1] == [1];
    var none: set<string> := {};
    assert none + {"Kopi"} == {"Kopi"};
  }

  /** A recipe line of quantity zero for an ingredient without an inventory
      row passes the check (the missing row counts as 0 available, and 0 is
      not below the need of 0) but makes the consumption fail on the lookup. */
  lemma DryRunAcceptsWhatConsumeRejects()
    ensures var recipes := map["Es Teh" := [RecipeLine(7, 0.0, "gram")]];
      var items := [OrderLine("Es Teh", 1)];
      CheckAndConsume(map[], map[], "B-2", items, Fetched(recipes), false).response.canFulfill
      && CheckAndConsume(map[], map[], "B-2", items, Fetched(recipes), true).response
         == StockResponse(false, [ConsumeError(MissingRow(7))], [], [])
  {
    var recipes := map["Es Teh" := [RecipeLine(7, 0.0, "gram")]];
    var items := [OrderLine("Es Teh", 1)];
    assert Needs(items, recipes) == NeedMap([7], map[7 := Need(0.0, "gram", {"Es Teh"})]) by {
      var lines := RecipeOf(recipes, "Es Teh");
      assert items[..0] == [];
      assert lines[..0] == [];
      assert Needs(items[..0], recipes) == NeedMap([], map[]);
      assert Needs(items, recipes) == AddLines(NeedMap([], map[]), "Es Teh", 1, lines);
      assert AddLines(NeedMap([], map[]), "Es Teh", 1, lines[..0]) == NeedMap([], map[]);
      var empty: seq<IngredientId> := [];
      assert empty + [7] == [7];
      var none: set<string> := {};
      assert none + {"Es Teh"} == {"Es Teh"};
    }
    assert MissingRecipes(items, recipes) == [] by {
      assert items[..0] == [];
    }
  }

  // ---------------------------------------------------------------------
  // The consumption with the rollback mark cleared

  /** check_and_consume with the one change that a successful consumption
      also clears the order's rolled_back mark. */
  function CheckAndConsumeCorrected(stock: Stock, ledger: Ledger, orderId: string, items: seq<OrderLine>,
                                    fetch: RecipeFetch, consume: bool): Outcome
  {
    var o := CheckAndConsume(stock, ledger, orderId, items, fetch, consume);
    if !AlreadyConsumed(ledger, orderId) && fetch.Fetched? && consume && o.response.canFulfill then
      ConsumeLogEffect(stock, ledger, orderId, items, fetch.recipes);
      o.(ledger := o.ledger[orderId := o.ledger[orderId].(rolledBack := false)])
    else o
  }

  /** With the mark cleared, every successful consumption, including one
      after a rollback, is answered from the log on later requests and is
      undone exactly by the next rollback. */
  lemma CorrectedConsumeIsUndoneAndIdempotent(stock: Stock, ledger: Ledger, orderId: string, items: seq<OrderLine>,
                                              recipes: Recipes, items2: seq<OrderLine>, fetch2: RecipeFetch, consume2: bool)
    requires !AlreadyConsumed(ledger, orderId)
    requires CheckAndConsumeCorrected(stock, ledger, orderId, items, Fetched(recipes), true).response.canFulfill
    ensures var o := CheckAndConsumeCorrected(stock, ledger, orderId, items, Fetched(recipes), true);
      AlreadyConsumed(o.ledger, orderId)
      && CheckAndConsumeCorrected(o.stock, o.ledger, orderId, items2, fetch2, consume2)
         == Outcome(StockResponse(true, [], [], o.response.details), o.stock, o.ledger)
      && Rollback(o.stock, o.ledger, orderId).stock == stock
  {
    ConsumeLogEffect(stock, ledger, orderId, items, recipes);
    ConsumedDeductionsRestore(stock, ledger, orderId, items, recipes);
  }
}
