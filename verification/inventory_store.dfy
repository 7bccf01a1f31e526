/** The inventory service's handlers for /stock/check_and_consume and
    /stock/rollback/{order_id}, written as the service runs them: loops over
    the order lines, the recipe lines and the need map, and in-place updates
    of the inventory rows inside a transaction. Each is proved to compute
    what the specification in StockEngine says. */
module StockService {
  import opened Wrappers
  import opened StockEngine

  /** The first loop of check_and_consume: the per-menu details, the menus
      without a recipe, and the need map. */
  method AccumulateNeeds(items: seq<OrderLine>, recipes: Recipes)
    returns (details: seq<MenuDetail>, missing: seq<Shortage>, nm: NeedMap)
    ensures details == MenuDetails(items, recipes)
    ensures missing == MissingRecipes(items, recipes)
    ensures nm == Needs(items, recipes)
  {
    details, missing, nm := [], [], NeedMap([], map[]);
    var i := 0;
    while i < |items|
      invariant 0 <= i <= |items|
      invariant details == MenuDetails(items[..i], recipes)
      invariant missing == MissingRecipes(items[..i], recipes)
      invariant nm == Needs(items[..i], recipes)
    {
      var item := items[i];
      var lines := if item.menuName in recipes then recipes[item.menuName] else [];
      details := details + [MenuDetail(item.menuName, |lines|, item.quantity)];
      if lines == [] {
        missing := missing + [MenuWithoutRecipe(item.menuName)];
      }
      ghost var start := nm;
      var j := 0;
      while j < |lines|
        invariant 0 <= j <= |lines|
        invariant nm == AddLines(start, item.menuName, item.quantity, lines[..j])
      {
        // need_map.setdefault(id, ...), then needed += qty * servings and the menu added
        nm := AddLine(nm, item.menuName, item.quantity, lines[j]);
        assert lines[..j + 1][..j] == lines[..j];
        j := j + 1;
      }
      assert lines[..j] == lines;
      assert items[..i + 1][..i] == items[..i];
      i := i + 1;
    }
    assert items[..i] == items;
  }

  /** The second loop: one shortage per ingredient whose need exceeds what
      is available, in need-map order. */
  method FindShortages(nm: NeedMap, stock: Stock) returns (shortages: seq<Shortage>)
    requires NeedMapValid(nm)
    ensures shortages == IngredientShortages(nm, stock)
  {
    shortages := [];
    var k := 0;
    while k < |nm.keys|
      invariant 0 <= k <= |nm.keys|
      invariant shortages == ShortagesUpTo(nm, stock, k)
    {
      var id := nm.keys[k];
      var data := nm.entries[id];
      var available := if id in stock then stock[id] else 0.0;
      if available < data.needed {
        shortages := shortages + [IngredientShort(id, data.needed, available, data.unit, data.menus)];
      }
      k := k + 1;
    }
  }

  /** The max_make loop for one menu, with its early exits; `best` None is
      the initial infinity. */
  method MaxServings(lines: seq<RecipeLine>, stock: Stock) returns (maxMake: int)
    requires lines != []
    ensures maxMake == MaxMake(lines, stock)
  {
    var best: Option<int> := None;
    var j := 0;
    while j < |lines|
      invariant 0 <= j <= |lines|
      invariant MaxMakeFrom(lines, stock, None) == MaxMakeFrom(lines[j..], stock, best)
    {
      var r := lines[j];
      if r.ingredientId !in stock || r.quantity <= 0.0 {
        best := Some(0);
        break;
      }
      var possible := (stock[r.ingredientId] / r.quantity).Floor;
      if best.None? || possible < best.value {
        best := Some(possible);
      }
      if best == Some(0) {
        break;
      }
      assert lines[j..][1..] == lines[j + 1..];
      j := j + 1;
    }
    maxMake := best.GetOr(0);
  }

  /** The partial-suggestion loop: one suggestion per menu with a recipe
      whose servings fall short of the request. */
  method PartialSuggestions(items: seq<OrderLine>, recipes: Recipes, stock: Stock) returns (partial: seq<Suggestion>)
    ensures partial == Suggestions(items, recipes, stock)
  {
    partial := [];
    var i := 0;
    while i < |items|
      invariant 0 <= i <= |items|
      invariant partial == Suggestions(items[..i], recipes, stock)
    {
      var item := items[i];
      var lines := if item.menuName in recipes then recipes[item.menuName] else [];
      if lines != [] {
        var maxMake := MaxServings(lines, stock);
        if maxMake < item.quantity {
          partial := partial + [Suggestion(item.menuName, item.quantity, maxMake)];
        }
      }
      assert items[..i + 1][..i] == items[..i];
      i := i + 1;
    }
    assert items[..i] == items;
  }

  /** The inventories and consumption_log tables of the inventory service. */
  class InventoryStore {
    var stock: Stock
    var ledger: Ledger

    constructor (stock0: Stock, ledger0: Ledger)
      ensures stock == stock0 && ledger == ledger0
    {
      stock := stock0;
      ledger := ledger0;
    }

    /** The consumption loop: each need taken off its row in place, in
        need-map order, stopping at the first missing row or negative
        result. On a failure the rows are left part-way; the caller rolls
        the transaction back. */
    method Deduct(nm: NeedMap) returns (failure: Option<ConsumeFailure>, deductions: seq<Deduction>)
      requires NeedMapValid(nm)
      modifies this
      ensures ledger == old(ledger)
      ensures failure.None? <==> Consume(old(stock), nm).Success?
      ensures failure.Some? ==> Consume(old(stock), nm) == Failure(failure.value)
      ensures failure.None? ==> Consume(old(stock), nm) == Success((stock, deductions))
    {
      deductions := [];
      failure := None;
      var k := 0;
      while k < |nm.keys|
        invariant 0 <= k <= |nm.keys|
        invariant ledger == old(ledger)
        invariant ConsumeUpTo(old(stock), nm, k) == Success((stock, deductions))
      {
        var id := nm.keys[k];
        var data := nm.entries[id];
        if id !in stock {
          failure := Some(MissingRow(id));
          FailureSticks(old(stock), nm, k + 1);
          return;
        }
        var before := stock[id];
        stock := stock[id := before - data.needed];
        if stock[id] < 0.0 {
          failure := Some(NegativeStock(id));
          FailureSticks(old(stock), nm, k + 1);
          return;
        }
        deductions := deductions + [Deduction(id, data.needed, before, stock[id], data.unit)];
        k := k + 1;
      }
    }

    /** POST /stock/check_and_consume as written: consuming an order again
        after its rollback keeps the rolled-back mark (see
        RolledBackOrderConsumesAgain). */
    method CheckAndConsume(orderId: string, items: seq<OrderLine>, fetch: RecipeFetch, consume: bool)
      returns (response: StockResponse)
      modifies this
      ensures Outcome(response, stock, ledger)
           == StockEngine.CheckAndConsume(old(stock), old(ledger), orderId, items, fetch, consume)
    {
      var existing := if orderId in ledger then Some(ledger[orderId]) else None;
      if existing.Some? && existing.value.consumed && !existing.value.rolledBack {
        return StockResponse(true, [], [], existing.value.perMenu);
      }
      if fetch.FetchFailed? {
        return StockResponse(false, [RecipeFetchError(fetch.reason)], [], []);
      }
      var recipes := fetch.recipes;
      var details, missing, nm := AccumulateNeeds(items, recipes);
      NeedsSpec(items, recipes);
      var ingredientShortages := FindShortages(nm, stock);
      var shortages := missing + ingredientShortages;
      if shortages != [] {
        var partial := PartialSuggestions(items, recipes, stock);
        return StockResponse(false, shortages, partial, details);
      }
      if !consume {
        if existing.None? {
          ledger := ledger[orderId := ConsumptionLog(details, None, false, false)];
        }
        return StockResponse(true, [], [], details);
      }
      var snapshot := stock;
      var failure, deductions := Deduct(nm);
      if failure.Some? {
        stock := snapshot;  // db.rollback()
        return StockResponse(false, [ConsumeError(failure.value)], [], []);
      }
      if existing.Some? {
        ledger := ledger[orderId := existing.value.(perMenu := details, perIngredient := Some(deductions),
                                                    consumed := true)];
      } else {
        ledger := ledger[orderId := ConsumptionLog(details, Some(deductions), true, false)];
      }
      response := StockResponse(true, [], [], details);
    }

    /** POST /stock/rollback/{order_id}. */
    method Rollback(orderId: string) returns (status: RollbackStatus)
      modifies this
      ensures RollbackOutcome(status, stock, ledger) == StockEngine.Rollback(old(stock), old(ledger), orderId)
    {
      if orderId !in ledger || !ledger[orderId].consumed {
        return Ignored;
      }
      var log := ledger[orderId];
      if log.rolledBack {
        return AlreadyRolledBack;
      }
      var perIngredient := log.perIngredient.GetOr([]);
      var i := 0;
      while i < |perIngredient|
        invariant 0 <= i <= |perIngredient|
        invariant stock == Restore(old(stock), perIngredient[..i])
        invariant ledger == old(ledger)
      {
        var d := perIngredient[i];
        if d.ingredientId in stock {
          stock := stock[d.ingredientId := stock[d.ingredientId] + d.deducted];
        }
        assert perIngredient[..i + 1][..i] == perIngredient[..i];
        i := i + 1;
      }
      assert perIngredient[..i] == perIngredient;
      ledger := ledger[orderId := log.(rolledBack := true)];
      status := RolledBack(|perIngredient|);
    }
  }

  /** Once the consumption loop fails it stays failed. */
  lemma {:induction false} FailureSticks(stock: Stock, nm: NeedMap, n: nat)
    requires NeedMapValid(nm) && n <= |nm.keys|
    requires ConsumeUpTo(stock, nm, n).Failure?
    ensures Consume(stock, nm) == ConsumeUpTo(stock, nm, n)
    decreases |nm.keys| - n
  {
    if n < |nm.keys| {
      FailureSticks(stock, nm, n + 1);
    }
  }
}
