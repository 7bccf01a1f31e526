# InfinityCafe in Dafny

InfinityCafe is a café ordering system. Customers order from a QR menu. The order service gives each order a daily queue number and forwards it to the kitchen service, which keeps the kitchen tickets. Before an order is accepted, the inventory service checks and deducts the ingredients its recipes need, and it can roll that deduction back. The menu service keeps menus, flavours, recipes and customer menu suggestions. The report service sums the sales. Staff pages in the browser show the kitchen board, stock, menus, users, suggestions and reports.

This project models the logic of those services and pages and proves what they promise. One module stands for each source file or concern:

- `StockEngine` (stock_engine.dfy) holds the rules of the stock check, consumption and rollback as functions over the stock table and the consumption ledger. `StockService` (inventory_store.dfy) is the inventory service's handlers as a class whose methods update those tables in place. Each method is proved equal to the rules.
- `InventoryOutbox` (outbox.dfy) models the retrying event outbox. `IngredientValidation` (ingredient_validation.dfy) models the validators of an ingredient request.
- `MenuCatalog` (menu_catalog.dfy) holds the menu service's rules. `MenuService` (menu_store.dfy) is its handlers as a class over the tables.
- `KitchenService` (kitchen.dfy), `OrderService` (order.dfy) and `ReportService` (report.dfy) model the other three services.
- The pages each have a module:
  - `KitchenBoard` and `KitchenOrderForm` model index.js;
  - `LegacyBoard` models script.js;
  - `QrCart` models qr-cart.js;
  - `StockPage` models kelola-stok.js;
  - `MenuAdmin` models menu.js;
  - `UserAdmin` models user-management.js;
  - `SuggestionPage` models menu-suggestion.js;
  - `ReportPage`, `ReportDates` and `ReportConsumption` model report.js.
- `PageWindow` holds the pagination that menu.js and user-management.js share.
- `Text`, `Lists`, `Sorting` and `Wrappers` model what the two runtimes provide: trimming, lower-casing, splitting, filtering, tallying, stable sorting, and Option/Result.

Where the source updates state in place, the model is a class with `modifies` clauses: the inventory and menu tables, the kitchen tickets, the order book, the cart, the stock page, the forms and the screens' filtered lists. Each of its methods is proved against a function of the old state. Where the source computes a value, the model is a function with lemmas about it. The network is an input: the recipe fetch either fails or supplies recipes. The clock and generated ids are parameters. A failed database transaction leaves the state unchanged.

Four defects in the source are listed under Findings. For each, the model keeps the definition as written, with a lemma that exhibits the defect. It also defines the corrected behaviour and proves the intended property of it. The stateful classes follow the code as written; the corrected definitions stand beside them with their proofs.

## Model

| member | source | states |
|---|---|---|
| StockEngine.NeedsSpec | infinity/inventory_service/main.py:343-360 | the need map holds exactly the ingredients the order's recipes name; for each, the needed amount is the sum over order lines of recipe quantity × line quantity, the unit is that of the first line naming it, and the menus are those using it |
| StockEngine.AddLinesSpec | infinity/inventory_service/main.py:356-360 | adding one menu's recipe lines adds that recipe's need to each ingredient, keeps an existing entry's unit (`setdefault`), records the menu, and keeps the keys distinct and in insertion order |
| StockEngine.MissingRecipesEmpty | infinity/inventory_service/main.py:354-355 | a "Menu tanpa resep" shortage is reported exactly when some ordered menu has no recipe |
| StockEngine.ShortagesUpToSpec | infinity/inventory_service/main.py:369-379 | every reported shortage names a needed ingredient with its need and its availability (0 without a row); every ingredient whose availability is below its need is reported; none is reported exactly when every need is covered |
| StockEngine.NoShortageIsEnough | infinity/inventory_service/main.py:369-372 | no ingredient is reported short exactly when the stock covers the order's total need of every ingredient |
| StockEngine.VerdictCore | infinity/inventory_service/main.py:347-381 | the shortage list of a fetched order is empty exactly when every menu has a recipe and the stock covers every need |
| StockEngine.ReplayAnswersFromLog | infinity/inventory_service/main.py:322-329 | an order consumed and not rolled back is answered with can_fulfill and its stored per-menu details, whatever the request, and neither table changes |
| StockEngine.FetchFailureChangesNothing | infinity/inventory_service/main.py:332-341 | a failed recipe fetch answers can_fulfill=false with that one error, no suggestions and no details, and changes nothing |
| StockEngine.ShortageResponse | infinity/inventory_service/main.py:381-410 | a request with a shortage returns the shortages, the partial suggestions and the per-menu details with both tables unchanged |
| StockEngine.DryRunVerdict | infinity/inventory_service/main.py:412-421 | a dry run never changes the stock; it can fulfil exactly when every menu has a recipe and the stock suffices, and then adds an unconsumed log only when the order has none |
| StockEngine.ConsumeBranch | infinity/inventory_service/main.py:423-454 | the consuming path: a shortage or a failed deduction leaves both tables as they were; a success installs the deducted stock and the consumed log |
| StockEngine.ConsumeVerdict | infinity/inventory_service/main.py:369-454 | a consuming request that is not a replay succeeds exactly when every menu has a recipe, the stock covers every need and every named ingredient has an inventory row; a failure changes nothing |
| StockEngine.ConsumeUpToOutcome | infinity/inventory_service/main.py:426-431 | with every need covered, the deduction loop fails only on an ingredient with no inventory row, and keeps the set of rows |
| StockEngine.ConsumeUpToStock | infinity/inventory_service/main.py:426-431 | a successful deduction loop takes each ingredient's need off its row once and leaves the other rows as they were |
| StockEngine.ConsumeUpToLog | infinity/inventory_service/main.py:432-438 | a successful deduction loop logs one deduction per ingredient, in need-map order, with the amount, the quantity before and after, and the unit |
| StockEngine.ConsumeStockEffect | infinity/inventory_service/main.py:424-451 | a successful consumption takes off each named ingredient's row exactly the order's total need of it, leaves it non-negative, and changes no other row |
| StockEngine.ConsumeLogEffect | infinity/inventory_service/main.py:439-449 | a successful consumption marks the order's log consumed with the per-menu details and one deduction per named ingredient, keeps an existing log's rolled-back mark, and changes no other order's log |
| StockEngine.ConsumeIsIdempotent | infinity/inventory_service/main.py:320-329 | after a successful consumption of a fresh (or only dry-run) order, every later request for it is a replay with the same details and no change |
| StockEngine.RestoreSpec | infinity/inventory_service/main.py:465-473 | adding back deductions of distinct ingredients adds each amount to its row when the row exists and changes nothing else |
| StockEngine.ConsumeRestores | infinity/inventory_service/main.py:424-438 | adding back the deductions of a successful deduction loop gives back the stock before it |
| StockEngine.ConsumedDeductionsRestore | infinity/inventory_service/main.py:424-473 | the log of a successful consumption holds one deduction per named ingredient, and adding them back gives the stock before the consumption |
| StockEngine.ConsumeThenRollbackRestores | infinity/inventory_service/main.py:457-476 | consuming a fresh order and rolling it back restores exactly the previous stock, reports one restored entry per ingredient, and marks the log rolled back |
| StockEngine.RollbackIsIdempotent | infinity/inventory_service/main.py:459-463 | a second rollback changes nothing, and after a successful one it answers "already rolled back" |
| StockEngine.CheckAndConsumeKeepsStockNonNegative | infinity/inventory_service/main.py:429-431 | no request drives a non-negative stock row below zero |
| StockEngine.RollbackKeepsStockNonNegative | infinity/inventory_service/main.py:470-473 | a rollback of non-negative deductions keeps the stock non-negative |
| StockEngine.RolledBackOrderConsumesAgain | infinity/inventory_service/main.py:439-442 | as written: consuming an order again after a rollback leaves its log marked rolled back, so it is no replay and the next rollback restores nothing |
| StockEngine.RollbackThenReconsumeExample | infinity/inventory_service/main.py:439-442 | as written, for one concrete order: consume, roll back, consume again, roll back (nothing restored), consume a third time; 4 of 10 grams end up gone for a rolled-back order |
| StockEngine.KopiConsumes | infinity/inventory_service/main.py:424-449 | one concrete consumption: 2 grams are deducted and the existing log's rolled-back mark is kept |
| StockEngine.DryRunAcceptsWhatConsumeRejects | infinity/inventory_service/main.py:369-372 | a recipe line of quantity 0 for an ingredient without a row passes the dry run yet makes the consuming call fail with a missing row (`inv_map[ing_id]`) |
| StockEngine.CorrectedConsumeIsUndoneAndIdempotent | infinity/inventory_service/main.py:439-442 | corrected: with the rolled-back mark cleared on every consumption, a later request is a replay and the next rollback restores the stock before it |
| StockEngine.FloorTimes | infinity/inventory_service/main.py:394 | floor(x / q) servings of q fit in x and one more does not |
| StockEngine.MaxMakeFromRange | infinity/inventory_service/main.py:388-398 | the max_make loop yields a value that is non-negative on a non-negative stock, at most the running minimum, 0 when a line has no row or a non-positive quantity, and at most every line's floor |
| StockEngine.MaxMakeFromAttained | infinity/inventory_service/main.py:388-398 | the loop's value is the running minimum or is fixed by some line: 0 for an unservable line, otherwise exactly that line's floor |
| StockEngine.MaxMakeSpec | infinity/inventory_service/main.py:388-398 | the servings are non-negative and fit every line; with all quantities positive, one more serving exceeds some line's stock |
| StockEngine.MaxMakeFits | infinity/inventory_service/main.py:388-398 | that many servings fit every line of the recipe |
| StockEngine.LineFits | infinity/inventory_service/main.py:389-396 | the computed servings fit one given line |
| StockEngine.MaxMakeTight | infinity/inventory_service/main.py:388-398 | with positive quantities, one serving more does not fit some line |
| StockEngine.BoundingLine | infinity/inventory_service/main.py:389-398 | some recipe line fixes the computed servings |
| StockEngine.BoundingLineDoesNotFit | infinity/inventory_service/main.py:391-396 | the line that fixes the servings has no room for one more |
| StockEngine.SuggestionsSpec | infinity/inventory_service/main.py:383-404 | every suggestion is for an ordered menu with a recipe, carries its requested quantity and the servings the stock allows, which are fewer than requested; every such menu gets one |
| StockService.AccumulateNeeds | infinity/inventory_service/main.py:343-360 | the first loop returns the per-menu details, the missing-recipe shortages and the need map of the reference definitions |
| StockService.FindShortages | infinity/inventory_service/main.py:369-379 | the shortage loop returns the reference shortage list |
| StockService.MaxServings | infinity/inventory_service/main.py:388-398 | the max_make loop with its two early exits returns MaxMake |
| StockService.PartialSuggestions | infinity/inventory_service/main.py:383-404 | the suggestion loop returns the reference suggestions |
| StockService.InventoryStore.constructor | infinity/inventory_service/main.py:66-97 | the store starts with the given inventory and consumption tables |
| StockService.InventoryStore.Deduct | infinity/inventory_service/main.py:424-438 | the in-place deduction loop agrees with the reference consumption: it fails exactly when that fails, and otherwise leaves the deducted stock and returns its deductions; the ledger is untouched |
| StockService.InventoryStore.CheckAndConsume | infinity/inventory_service/main.py:314-454 | the endpoint's response and new tables are those of the as-written reference definition, under which a consumption after a rollback keeps the rolled-back mark |
| StockService.InventoryStore.Rollback | infinity/inventory_service/main.py:457-479 | the endpoint's status and new tables are those of the reference rollback |
| StockService.FailureSticks | infinity/inventory_service/main.py:430-431 | once the deduction loop fails, the whole consumption fails with that error |
| InventoryOutbox.NewEvent | infinity/inventory_service/main.py:76-86 | a new event is unprocessed, with no retries and the default budget of 3, so the next pass selects it |
| InventoryOutbox.Attempt | infinity/inventory_service/main.py:175-194 | an event outside the selection is untouched; a delivered one becomes processed with the time and no error; a failed one gains one retry and the error text |
| InventoryOutbox.ProcessAll | infinity/inventory_service/main.py:170-195 | a pass makes one attempt on every event |
| InventoryOutbox.Outbox.constructor | infinity/inventory_service/main.py:76-86 | the table starts empty |
| InventoryOutbox.Outbox.CreateEvent | infinity/inventory_service/main.py:161-167 | a fresh event is appended to the table |
| InventoryOutbox.Outbox.ProcessOutboxEvents | infinity/inventory_service/main.py:170-195 | the loop updates the rows in place to the reference pass |
| InventoryOutbox.ProcessKeepsRetriesBounded | infinity/inventory_service/main.py:171-174 | a pass keeps every retry count within its budget |
| InventoryOutbox.ProcessLeavesSettledEvents | infinity/inventory_service/main.py:171-174 | a processed event or one out of retries comes out of a pass unchanged |
| InventoryOutbox.ProcessedStaysProcessed | infinity/inventory_service/main.py:187-194 | a pass never un-processes an event or revives a failed one |
| InventoryOutbox.Count | infinity/inventory_service/main.py:207-212 | a count is at most the number of events |
| InventoryOutbox.PendingIsEligible | infinity/inventory_service/main.py:205-218 | pending = total − processed − failed is exactly the number of events the next pass selects, hence never negative |
| IngredientValidation.ParseCategory | infinity/inventory_service/main.py:55-58 | a category is accepted exactly when its lower-cased, stripped text is "ingredient" or "packaging" |
| IngredientValidation.ParseUnit | infinity/inventory_service/main.py:60-64 | a unit is accepted exactly when its lower-cased, stripped text is "gram", "milliliter" or "piece" |
| IngredientValidation.ValidateAccepts | infinity/inventory_service/main.py:100-136 | an input is accepted exactly when the name is not blank, category and unit are known in any case and spacing, and 0 ≤ minimum ≤ current; the stored name is stripped and the quantities kept |
| IngredientValidation.ValidateRejects | infinity/inventory_service/main.py:121-136 | field errors are reported together; otherwise a negative quantity, then current below minimum, is the one error |
| IngredientValidation.StoredNameTrimmed | infinity/inventory_service/main.py:123-126 | the stored name is non-empty and neither starts nor ends with a space |
| IngredientValidation.ValidateSeesParsedNames | infinity/inventory_service/main.py:108-119 | validation sees category and unit only through what they parse to |
| IngredientValidation.CaseInsensitive | infinity/inventory_service/main.py:107-113 | the letter case of category and unit does not change the outcome |
| IngredientValidation.CategoryNameRoundTrip | infinity/inventory_service/main.py:115-119 | a stored category's text parses back to it |
| IngredientValidation.UnitNameRoundTrip | infinity/inventory_service/main.py:115-119 | a stored unit's text parses back to it |
| IngredientValidation.RevalidateStored | infinity/inventory_service/main.py:100-136 | validating what was stored accepts it unchanged |
| MenuCatalog.BlankIsStripEmpty | infinity/menu_service/main.py:297 | a name is blank exactly when stripping it leaves nothing |
| MenuCatalog.HandleHttpExceptionSpec | infinity/menu_service/main.py:68-101 | the original status is always reported; the HTTP status changes (to 200) exactly for 400/404 outside `/flavors`; the error type is "http_error" exactly for other codes outside `/flavors` |
| MenuCatalog.AnswerStatusSpec | infinity/menu_service/main.py:37-54 | a body that fails validation is answered with HTTP 200 on every path; any other error keeps its status under `/flavors`; the answer is always 200 or the error's own status |
| MenuCatalog.StrippedName | infinity/menu_service/main.py:176-181 | the stripped form of a non-blank name is non-blank and stripping it again changes nothing |
| MenuCatalog.CreateFlavorSpec | infinity/menu_service/main.py:170-188 | a flavor is created exactly when the name is not blank, the price (0 when absent or null) is not negative and no flavor has the stripped name; a blank name is refused as an invalid `flavor_name` body and a negative price as an invalid `additional_price` body, so the handler's own blank and negative checks never answer; it stores the stripped name and changes no other flavor |
| MenuCatalog.CreateFlavorKeepsNamesUnique | infinity/menu_service/main.py:305-307 | creating a flavor keeps flavor names unique |
| MenuCatalog.UpdateFlavorSpec | infinity/menu_service/main.py:170-188 | the body is validated first (blank name, negative price); a valid body for an unknown id is "not found"; an update succeeds exactly for a known id, a non-blank name, a non-negative price (0 when absent) and a name no other flavor has; the flavor then holds the stripped name and that price, and only it changes |
| MenuCatalog.UpdateFlavorKeepsNamesUnique | infinity/menu_service/main.py:360-365 | updating a flavor keeps flavor names unique |
| MenuCatalog.DeleteFlavorSpec | infinity/menu_service/main.py:384-412 | deletion succeeds exactly for a known flavor no menu uses; it removes the flavor and its association rows and nothing else, and keeps every association pointing at existing rows |
| MenuCatalog.FlavorCountCheck | infinity/menu_service/main.py:442-446 | the number of flavors found equals the number of ids sent exactly when every id exists and no id repeats |
| MenuCatalog.RepeatedFlavorIdRejected | infinity/menu_service/main.py:442-446 | as written: a menu whose flavor list names an existing flavor twice is refused with 404, while the corrected check accepts it |
| MenuCatalog.CreateMenuItemCorrectedAccepts | infinity/menu_service/main.py:427-461 | corrected: a menu is created exactly when the body passes validation, the name is new, and every listed flavor exists |
| MenuCatalog.CreateMenuItemAccepts | infinity/menu_service/main.py:194-223 | as written: a menu is created exactly when the body passes validation (name, positive price, non-negative making time, no blank flavor id), the stripped name is new, every listed flavor exists and no id repeats; it stores the stripped name and the price; the handler's own input errors never answer |
| MenuCatalog.AddMenuEffect | infinity/menu_service/main.py:450-461 | the new menu holds the stripped name and a positive price, no other menu changes, and exactly its listed flavors are linked to it |
| MenuCatalog.AddMenuKeepsNamesUnique | infinity/menu_service/main.py:438-440 | creating a menu keeps menu names unique |
| MenuCatalog.CreateMenuItemKeepsLinksValid | infinity/menu_service/main.py:442-461 | as written: every association of the new catalog points at an existing menu and flavor |
| MenuCatalog.SuggestMenuSpec | infinity/menu_service/main.py:536-579 | a blank menu or customer name is refused by body validation, in that order; otherwise the table changes exactly when the suggestion is added; "duplicate" exactly for names matching a menu or an earlier suggestion; an addition appends the stripped names; suggestion names stay distinct; the handler's own blank-name errors never answer |
| MenuCatalog.ReceiveIngredientIdempotent | infinity/menu_service/main.py:632-667 | the add event succeeds exactly when all six fields are present; it is an upsert that a repeat leaves unchanged, and no other ingredient changes |
| MenuCatalog.UpdateIngredientSpec | infinity/menu_service/main.py:670-692 | the update event succeeds exactly for a present, known id; it overwrites only the fields present, changes no other ingredient, and a repeat changes nothing |
| MenuCatalog.DeleteIngredientIdempotent | infinity/menu_service/main.py:695-705 | deleting removes only that ingredient; deleting a missing one succeeds as "already gone" without change |
| MenuCatalog.EntriesFor | infinity/menu_service/main.py:721-727 | the recipe entries are exactly the (ingredient, quantity, unit) of the rows of the given menus |
| MenuCatalog.RecipesBatchSpec | infinity/menu_service/main.py:714-731 | a non-list or empty name list is refused; otherwise there is a key for exactly every requested name, [] for an unknown menu, and each entry comes from a recipe row of a menu of that name |
| MenuService.MenuStore.constructor | infinity/menu_service/main.py:283-288 | the store starts with empty tables |
| MenuService.MenuStore.CreateFlavor | infinity/menu_service/main.py:293-317 | the body is validated before the handler runs; the endpoint's outcome is the reference one; a refusal leaves the tables as they were |
| MenuService.MenuStore.UpdateFlavor | infinity/menu_service/main.py:347-372 | the body is validated before the handler runs (a missing price becomes 0); the endpoint's outcome is the reference one; a refusal leaves the tables as they were |
| MenuService.MenuStore.DeleteFlavor | infinity/menu_service/main.py:384-412 | the endpoint's outcome is the reference one; a refusal leaves the tables as they were |
| MenuService.MenuStore.CreateMenuItem | infinity/menu_service/main.py:423-461 | the body is validated, then the handler runs as written (a flavor id sent twice fails the count check); the outcome is the as-written reference creation; a refusal leaves the tables as they were |
| MenuService.MenuStore.SuggestMenu | infinity/menu_service/main.py:536-579 | the body is validated first; the status and the new suggestion table are the reference ones; nothing else changes |
| MenuService.MenuStore.ReceiveIngredient | infinity/menu_service/main.py:632-667 | the synced table follows the reference upsert; a refusal changes nothing |
| MenuService.MenuStore.UpdateIngredient | infinity/menu_service/main.py:670-692 | the synced table follows the reference update; a refusal changes nothing |
| MenuService.MenuStore.DeleteIngredient | infinity/menu_service/main.py:695-705 | the status and synced table are the reference ones |
| KitchenService.DetailLines | infinity/kitchen_service/main.py:133 | one "{qty}x {menu} ({pref})" line per ordered item, in order |
| KitchenService.DetailLineNoNewline | infinity/kitchen_service/main.py:133 | a detail line holds no newline when the menu name and preference hold none |
| KitchenService.DetailHasOneLinePerItem | infinity/kitchen_service/main.py:133 | splitting the stored detail at newlines gives back exactly the item lines |
| KitchenService.ApplyStatusSpec | infinity/kitchen_service/main.py:158-173 | cancel, habis and pending without a reason are refused; otherwise the status is set as requested with no transition guard, each stage time is stamped only when still empty, pending stores its reason, cancel and habis store theirs, and nothing else changes |
| KitchenService.StageTimesFirstWriteWins | infinity/kitchen_service/main.py:161-166 | over any series of updates, each stage time is the one already set or else the time of the first update to that stage; the receive time and the detail never change |
| KitchenService.Durations | infinity/kitchen_service/main.py:195-200 | a duration key is present exactly when both its times are set, and holds their difference |
| KitchenService.KitchenList | infinity/kitchen_service/main.py:148-150 | GET /kitchen/orders as served (the first of its two handlers): every ticket is listed, whatever its status and day, and nothing else |
| KitchenService.TodayList | infinity/kitchen_service/main.py:252-267 | the second, shadowed handler: a ticket is listed exactly when it is active or pending, or finished and received within today's window: both directions |
| KitchenService.ServedListKeepsOldTickets | infinity/kitchen_service/main.py:148-150 | as written: a ticket finished before today is in the served list, yet the list of the second handler leaves it out |
| KitchenService.Kitchen.constructor | infinity/kitchen_service/main.py:95-101 | a kitchen starts with no status record and no tickets |
| KitchenService.Kitchen.GetKitchenStatus | infinity/kitchen_service/main.py:95-101 | afterwards the status record exists; an existing one is kept, a missing one is created open |
| KitchenService.Kitchen.SetKitchenStatus | infinity/kitchen_service/main.py:103-113 | the status becomes the one requested and the tickets are unchanged |
| KitchenService.Kitchen.ReceiveOrder | infinity/kitchen_service/main.py:123-146 | a closed kitchen adds nothing, a known order id is refused, and otherwise exactly one new ticket with the detail and the receive time is added |
| KitchenService.Kitchen.UpdateStatus | infinity/kitchen_service/main.py:152-175 | an unknown order is "not found" and changes nothing; otherwise the ticket becomes the reference update, or stays as it was on a refusal |
| KitchenService.Kitchen.GetOrderDurations | infinity/kitchen_service/main.py:190-200 | an unknown order is "not found"; otherwise the reference durations |
| OrderService.NextQueueNumber | infinity/order_service/main.py:121-127 | the new queue number is above every queue number of today, 1 when today has none, and otherwise one more than today's largest |
| OrderService.NextQueueNumberAbove | infinity/order_service/main.py:123-125 | with today's largest number known, the next is one more than it |
| OrderService.Greatest | infinity/order_service/main.py:123 | the loop over today's numbers finds none exactly for an empty set, and otherwise the largest |
| OrderService.FindNextQueueNumber | infinity/order_service/main.py:121-127 | the method's queue number is the reference one |
| OrderService.ItemsFor | infinity/order_service/main.py:138-139 | one stored item per requested line, in order, each carrying the new order id |
| OrderService.NewOrderItems | infinity/order_service/main.py:138-140 | after the insert, the items of the new order are exactly the requested lines |
| OrderService.SecondDayOrderRejected | infinity/order_service/main.py:63-64 | as written: the first order of a new day gets number 1, which the globally unique column refuses when yesterday also had a number 1 |
| OrderService.CreateOrderOutcomeSpec | infinity/order_service/main.py:117-140 | as written: creation succeeds exactly when no stored order holds the next number of today; it then adds the order under that number and keeps queue numbers unique |
| OrderService.CreateOrderCorrected | infinity/order_service/main.py:121-137 | corrected (number unique per day): the new order is added with a number above every number of today |
| OrderService.CreateOrderCorrectedKeepsQueuesDistinct | infinity/order_service/main.py:121-137 | corrected: numbers stay distinct within each day, and today's numbers gain exactly the new one |
| OrderService.CancelSpec | infinity/order_service/main.py:161-186 | a cancel succeeds exactly for a known order still in "receive"; it sets "cancelled" and the reason, changes no other order, and a second cancel is refused |
| OrderService.KitchenUpdateSpec | infinity/order_service/main.py:188-199 | an unknown id reports not found and changes nothing; otherwise only that order's status is set, verbatim; a repeat changes nothing |
| OrderService.OrderBook.constructor | infinity/order_service/main.py:61-80 | the book starts with no orders and no items |
| OrderService.OrderBook.CreateOrder | infinity/order_service/main.py:117-140 | as written: the next number is one above the last of today; when an order of an earlier day already holds it the commit fails and neither the order nor its items are stored; otherwise the order is added and the items gain one row per requested line |
| OrderService.OrderBook.CancelOrder | infinity/order_service/main.py:161-186 | the outcome is the reference cancel; a refusal changes nothing; items are untouched |
| OrderService.OrderBook.UpdateFromKitchen | infinity/order_service/main.py:188-199 | the outcome and the new orders are the reference update; items are untouched |
| ReportService.MonthField | infinity/report_service/main.py:140 | a parsed month lies in 1..12 |
| ReportService.DayField | infinity/report_service/main.py:140 | a parsed day lies in 1..31 |
| ReportService.ParseIsoDate | infinity/report_service/main.py:139-143 | `%Y-%m-%d` accepts only real calendar dates |
| ReportService.Digits4Value | infinity/report_service/main.py:140 | a four-digit field reads back as its number |
| ReportService.ParseFormatIsoDate | infinity/report_service/main.py:139-143 | every valid date, written as yyyy-mm-dd, parses back to itself |
| ReportService.February30Rejected | infinity/report_service/main.py:139-143 | "2024-02-30" is refused, while "2024-2-9" (unpadded fields) is accepted |
| ReportService.Select | infinity/report_service/main.py:145-153 | the selected rows are exactly those of done orders stamped within [start 00:00:00, end 23:59:59] whose menu name matches `ILIKE '%<filter>%'` when a non-empty filter is given |
| ReportService.SelectKeepsOrder | infinity/report_service/main.py:145-153 | the query keeps each qualifying row as often as the table holds it, drops every other row, and keeps the table's order |
| ReportService.ILikeLiteralIsContains | infinity/report_service/main.py:150-151 | for a filter with no `%`, `_` or `\`, the ILIKE match is the case-insensitive substring test |
| ReportService.UnderscoreFilterKeepsEveryName | infinity/report_service/main.py:150-151 | a filter of "_" is a wildcard: every non-empty menu name matches it |
| ReportService.LastSecondExcluded | infinity/report_service/main.py:141 | a sale in the last second of the end day (after 23:59:59) is left out |
| ReportService.FindGroup | infinity/report_service/main.py:157 | the lookup finds the group of that menu name, or reports that there is none |
| ReportService.Named | infinity/report_service/main.py:155-160 | the rows of one menu all carry that name |
| ReportService.GroupsStep | infinity/report_service/main.py:156-160 | adding one row keeps the groups describing the rows: one group per name, whose quantity and total are the sums over that name's rows and whose unit price is that of the first such row |
| ReportService.GroupsStepFound | infinity/report_service/main.py:159-160 | a row for a menu already grouped adds its quantity and amount to that group only |
| ReportService.GroupsStepNew | infinity/report_service/main.py:157-158 | a row for a new menu opens a group with its unit price |
| ReportService.GroupsSpec | infinity/report_service/main.py:155-160 | the groups of the rows describe them: names distinct, sums per name, first row's unit price, every row's menu grouped |
| ReportService.GroupTotalsAddUp | infinity/report_service/main.py:154-160 | the group totals add up to total_income (null quantity or price counting as 0) |
| ReportService.GetReportSpec | infinity/report_service/main.py:132-168 | a malformed date is a 400; otherwise total_order is the number of selected rows, total_income their sum, the details a permutation of the groups sorted by quantity, non-increasing, and the group totals add up to total_income |
| ReportService.GroupRows | infinity/report_service/main.py:155-160 | the grouping loop returns the reference groups |
| ReportService.AddSaleRow | infinity/report_service/main.py:157-160 | one pass of the loop body adds a row to the reference groups |
| PageWindow.CeilDiv | frontend/public/menu.js:138 | `Math.ceil(n / size)`: the smallest page count whose pages hold n rows |
| PageWindow.PageCount | frontend/public/menu.js:137-139 | the page count is at least 1, exactly 1 for no rows, and otherwise the fewest pages holding all rows (user-management.js:166-168 is the same code) |
| PageWindow.Window | frontend/public/menu.js:164-170 | the numbered buttons run from a first to a last page around the current one, within 1..total, and number min(total, 5) |
| PageWindow.WindowPages | frontend/public/menu.js:172-182 | the buttons are consecutive pages of the window, include the current page, number at most 5, and stay within 1..total |
| PageWindow.Target | frontend/public/menu.js:196-199 | a prev/next step lands on current + direction exactly when that lies within 1..total |
| PageWindow.DisabledButtonsGoNowhere | frontend/public/menu.js:159-160 | "previous" is disabled exactly on page 1 and "next" exactly on the last page, and those are the positions where the step goes nowhere |
| PageWindow.Pager.constructor | frontend/public/menu.js:14-17 | a pager starts on page 1 of 1 with the given page size |
| PageWindow.Pager.Update | frontend/public/menu.js:137-146 | the page count is recomputed for the rows and the current page clamped down to it (user-management.js:166-175 likewise) |
| PageWindow.Pager.ChangePage | frontend/public/menu.js:196-203 | the page moves by the direction only when it stays within 1..total; otherwise nothing changes (user-management.js:218-225 likewise) |
| PageWindow.Pager.SelectPage | frontend/public/menu.js:176-180 | a numbered button sets exactly its page |
| PageWindow.Pager.ChangePageSize | frontend/public/menu.js:206-211 | a new page size restarts on page 1 with the page count recomputed (user-management.js:227-232 likewise) |
| PageWindow.Pager.Restart | frontend/public/admin/user-management.js:251-252 | after a filter: page 1 and the page count of the filtered rows |
| UserAdmin.FilterUsers | frontend/public/admin/user-management.js:239-249 | a user is kept exactly when the lower-cased name contains the lower-cased search, the role matches or is not chosen, and `String(is_active)` matches the status or it is not chosen |
| UserAdmin.StatusChoicesSplitUsers | frontend/public/admin/user-management.js:247 | the "true" and "false" status choices together keep exactly the users that "any" keeps |
| UserAdmin.CheckRename | frontend/public/admin/user-management.js:328-343 | a rename goes ahead exactly when the original name is there, the trimmed new name is non-empty and differs from it; the trimmed name is sent; each failure names its first failing check |
| UserAdmin.PaddedSameNameRejected | frontend/public/admin/user-management.js:330-343 | the current name padded with spaces is refused as unchanged |
| UserAdmin.ToggleRequest | frontend/public/admin/user-management.js:447-460 | the request names the user and disables exactly an active one; the action label agrees with the flag |
| UserAdmin.UserScreen.constructor | frontend/public/admin/user-management.js:3-10 | the screen starts with no users on page 1 with 10 per page |
| UserAdmin.UserScreen.ApplyUserFilter | frontend/public/admin/user-management.js:239-253 | the filtered list becomes the reference filter of all users, the pager goes to page 1 with the pages recounted, and all users are untouched |
| MenuAdmin.FilterMenus | frontend/public/menu.js:398-413 | a menu is shown exactly when its name or price contains the search text (ignoring case), its availability matches the status choice, and its price lies within the bounds given |
| MenuAdmin.BlankFilterKeepsAll | frontend/public/menu.js:400-410 | an empty search, status and pair of bounds shows every menu, in order |
| MenuAdmin.UnparsableBoundKeepsNothing | frontend/public/menu.js:409-410 | a price bound `parseInt` cannot read (NaN) makes every comparison false, so nothing is shown |
| MenuAdmin.PruneSelected | frontend/public/menu.js:966-968 | the selected flavour ids kept are exactly those still among the flavours: each as often as it was selected, in the selection's order |
| MenuAdmin.PruneIdempotent | frontend/public/menu.js:966-968 | pruning the selection twice gives what pruning once gives |
| MenuAdmin.CheckPrice | frontend/public/menu.js:503-506 | a price passes exactly when `parseInt` gave a number that is not negative, and the failure carries the page's message (the same check at 886-889) |
| MenuAdmin.FlavorPriceCheckAgreesWithService | frontend/public/menu.js:886-889 | a flavour price the page accepts is accepted by the menu service's create_flavor for a fresh, unused name |
| MenuAdmin.ZeroMenuPricePassesPageOnly | frontend/public/menu.js:503-506 | a menu price of 0 passes the page and is refused by the menu service's body validation as an invalid `base_price` |
| MenuAdmin.MenuScreen.constructor | frontend/public/menu.js:4-22 | the page starts with no menus, flavours or selection, both tables on page 1 of size 10 |
| MenuAdmin.MenuScreen.ApplyMenuFilter | frontend/public/menu.js:392-416 | the filtered menus become FilterMenus of all menus, the menu table goes back to page 1 with its pages recounted, and nothing else changes |
| MenuAdmin.MenuScreen.PopulateFlavorCheckboxes | frontend/public/menu.js:959-968 | the selection becomes its pruned form, so every selected id names an existing flavour, and nothing else changes |
| SuggestionPage.MatchingSuggestions | frontend/public/js/menu-suggestion.js:121-130 | a blank query shows every suggestion; otherwise a suggestion is shown exactly when its menu or customer name contains the query, ignoring case |
| SuggestionPage.SuggestionScreen.constructor | frontend/public/js/menu-suggestion.js:7-8 | the page starts with no suggestions loaded or shown |
| SuggestionPage.SuggestionScreen.FilterSuggestions | frontend/public/js/menu-suggestion.js:121-130 | the shown list becomes MatchingSuggestions of the loaded ones, which stay as they were |
| SuggestionPage.SuggestionScreen.SortSuggestions | frontend/public/js/menu-suggestion.js:135-148 | "oldest" orders the shown list earliest first, "newest" and "popular" latest first, each a permutation keeping suggestions of the same instant in their order; any other choice changes nothing |
| SuggestionPage.UpdateStats | frontend/public/js/menu-suggestion.js:152-176 | the total is the number of suggestions and the popular count the number of distinct menu names suggested more than once |
| SuggestionPage.CountAbove1OfTally | frontend/public/js/menu-suggestion.js:170-174 | counting the tally entries above 1 counts the names that occur more than once |
| SuggestionPage.PopularMeansRepeated | frontend/public/js/menu-suggestion.js:170-174 | a menu name at two positions is counted as popular |
| SuggestionPage.CheckSuggestion | frontend/public/js/menu-suggestion.js:215-221 | a suggestion is sent exactly when both fields are present and non-empty after trimming, and then the trimmed pair is sent; otherwise the page's message is shown |
| SuggestionPage.PageAndServiceDisagreeOnBlank | frontend/public/js/menu-suggestion.js:215-220 | a menu name made of U+001C passes the page's trim and is blank to the menu service's Python strip |
| ReportPage.StatusText | frontend/public/report.js:1244-1253 | the five known statuses get their Indonesian labels and any other status is shown unchanged |
| ReportPage.StatusTextDistinguishes | frontend/public/report.js:1245-1251 | no two known statuses share a label and no label is itself a status |
| ReportPage.ToInt32 | frontend/public/report.js:1557 | `\| 0` gives a signed 32-bit value congruent to its operand modulo 2^32 |
| ReportPage.HashStepIsTimes31 | frontend/public/report.js:1557 | `(hash << 5) - hash + code` is `31 * hash + code` taken modulo 2^32 |
| ReportPage.HashIsWrappedPoly | frontend/public/report.js:1556-1557 | the hash of a sequence of UTF-16 code units is its polynomial hash Σ unit·31^k wrapped to a signed 32-bit value |
| ReportPage.RowKeys | frontend/public/report.js:1555 | one key per row, built from the menu name, quantity and total joined by "\|" |
| ReportPage.HashKey | frontend/public/report.js:1556-1557 | the loop over the key's UTF-16 code units (`charCodeAt`) returns the wrapped polynomial hash of those units, a signed 32-bit value |
| ReportPage.ComputeDataHash | frontend/public/report.js:1551-1559 | "0" for something that is not an array, otherwise the decimal text of the wrapped polynomial hash of the UTF-16 units of the rows' keys joined by "#" |
| ReportPage.Units | frontend/public/report.js:1557 | a character below U+10000 is one code unit equal to it; any other is a high surrogate followed by a low surrogate |
| ReportPage.UnitsDecode | frontend/public/report.js:1557 | the surrogate pair of an astral character decodes back to that character |
| ReportPage.Utf16 | frontend/public/report.js:1556-1557 | a string has at least as many UTF-16 units as characters and at most twice as many |
| ReportPage.AstralCharIsTwoUnits | frontend/public/report.js:1556-1557 | an emoji outside the basic plane counts as two code units in the hash loop |
| ReportPage.TableFilter | frontend/public/report.js:2018-2033 | an empty term keeps every row; otherwise a row is kept exactly when it matches the lower-cased term (five fields in the ingredient view, the menu name otherwise), as often as the data holds it and in the data's order |
| ReportPage.ReportTable.constructor | frontend/public/report.js:28-31 | the table starts on page 1 of 10 rows with no data, in the sales view (1566) |
| ReportPage.ReportTable.ChangePage | frontend/public/report.js:1869-1877 | the page moves by the direction exactly when the new page lies within the filtered rows' pages; the data is untouched |
| ReportPage.ReportTable.FilterTableData | frontend/public/report.js:2016-2038 | without data nothing changes; otherwise the filtered rows become TableFilter of the data and the table returns to page 1 |
| ReportDates.ToIso | frontend/public/report.js:346-351 | a dd/mm/yyyy day becomes yyyy-mm-dd with the same calendar position; anything else is left as it is |
| ReportDates.FromIsoToIso | frontend/public/report.js:347-351 | converting a dd/mm/yyyy day to ISO loses nothing: rearranging it back gives the day again |
| ReportDates.DigitsOrder | frontend/public/report.js:353-354 | between digit strings of one length, string order is numeric order |
| ReportDates.IsoOrderIsDateOrder | frontend/public/report.js:353-354 | comparing ISO dates as strings compares them as calendar dates |
| ReportDates.ConvertedOrderIsDateOrder | frontend/public/report.js:381-386 | two dd/mm/yyyy days compare, once converted, as calendar dates |
| ReportDates.RawDisplay | frontend/public/report.js:346 | the day text is the first ten characters of the log's date, "" without a date |
| ReportDates.InRangeIsBetweenDates | frontend/public/report.js:353-355 | with both ends chosen, a dd/mm/yyyy day is kept exactly when it lies between them, both included |
| ReportDates.MenusOf | frontend/public/report.js:371-377 | the menus counted for a log are the named menus of the cached order with its id, none when no order has it |
| ReportDates.ByDateIsPerDay | frontend/public/report.js:343-378 | a day has a row exactly when some counted log falls on it, and its counters are those of its logs |
| ReportDates.ByDateOnDay | frontend/public/report.js:356-368 | the same for one day |
| ReportDates.DayKeysAreTheDays | frontend/public/report.js:381 | the day list names each day of the map exactly once |
| ReportDates.CountLog | frontend/public/report.js:344-378 | the callback on one log adds it to its day when it is counted and leaves the map alone otherwise |
| ReportDates.GroupByDate | frontend/public/report.js:343-378 | the loop over the logs builds exactly the per-day map and its day list |
| ReportDates.NewestFirst | frontend/public/report.js:381-386 | the daily rows are a permutation of the days, sorted by converted date descending |
| ReportDates.NewestFirstIsByDate | frontend/public/report.js:381-386 | when every day is a dd/mm/yyyy date, the rows run from the latest calendar date to the earliest |
| ReportConsumption.ScaledAmountIsScaled | frontend/public/report.js:290-299 | taking the recipe lines one by one for a quantity takes their amount per serving times the quantity |
| ReportConsumption.AccumulateAdds | frontend/public/report.js:290-299 | each ingredient's total grows by what the lines take of it, and entries appear exactly for the ingredients the lines name |
| ReportConsumption.AddUses | frontend/public/report.js:290-299 | the loop over a list of recipe lines adds exactly their scaled amounts |
| ReportConsumption.FlavorMapCollects | frontend/public/report.js:195-203 | a flavour is in the map exactly when a kept mapping row names it, and its list holds those rows' uses in order |
| ReportConsumption.FlavorMapClean | frontend/public/report.js:196-200 | every flavour key is a non-empty lower-case name and every use has an ingredient id and a positive amount |
| ReportConsumption.BuildFlavorMap | frontend/public/report.js:195-203 | the loop builds exactly that flavour map |
| ReportConsumption.DoneOrders | frontend/public/report.js:211-219 | an order is kept exactly when it is done and, with a range chosen, finished within it; kept orders come as often as in the data and in its order |
| ReportConsumption.UnreadableTimeKept | frontend/public/report.js:214-217 | with a range chosen, a done order whose time cannot be read (an Invalid Date) is kept and one without a time is dropped |
| ReportConsumption.Distinct | frontend/public/report.js:222 | `new Set` keeps exactly the names given, each once, ordered by the position of each name's first occurrence |
| ReportConsumption.MenuNamesFor | frontend/public/report.js:222-226 | the menus whose recipes are fetched are the named menus of the done orders, each once, or the menu list's names when there are none |
| ReportConsumption.FlavorDisplay | frontend/public/report.js:268-282 | an item is always shown under a non-empty flavour name |
| ReportConsumption.DisplayWithoutValidSets | frontend/public/report.js:249 | with the valid sets emptied, an item counts under its trimmed preference, else its other flavour text, else "-" |
| ReportConsumption.VariantKeysCollide | frontend/public/report.js:284 | two different menu/flavour pairs can share a variant key when a name holds "\|\|" |
| ReportConsumption.OrderCountPerMenu | frontend/public/report.js:259-265 | a menu is counted exactly when one of its items is, and its order count is the sum of their quantities |
| ReportConsumption.ConsumptionMenus | frontend/public/report.js:261-262 | a menu has a consumption entry exactly when it has a counted item |
| ReportConsumption.ConsumptionPerMenu | frontend/public/report.js:256-320 | a menu's consumption of each ingredient is what its counted items' recipes and flavours take of it |
| ReportConsumption.VariantPerKey | frontend/public/report.js:282-286 | `variantConsumption` has a key exactly when some counted item is filed under it; the entry carries the menu and shown flavour of the first such item, and its `orderQty` is the sum of their quantities |
| ReportConsumption.VariantConsumption | frontend/public/report.js:288-315 | a variant's amount of each ingredient is what the recipes and chosen flavours of the items filed under its key take of it, times their quantities |
| ReportConsumption.FlavorUsagePerMenu | frontend/public/report.js:258-303 | `menuFlavorUsage` has a menu exactly when it has counted items; a lower-cased flavour other than "-" is in it exactly when some of them show it, and its count is the sum of their quantities |
| ReportConsumption.FlavorUsageNamesFlavors | frontend/public/report.js:302-303 | the flavour usage never counts "-" or an empty name |
| ReportConsumption.ComputeConsumption | frontend/public/report.js:252-320 | the nested loops over the done orders and their items compute exactly the aggregate of the items |
| ReportConsumption.OrderUsageTotals | frontend/public/report.js:1285-1305 | only ingredients with inventory data appear, and each one's total is what the items' recipes take of it |
| ReportConsumption.OrderIngredientUsage | frontend/public/report.js:1280-1307 | an order without items uses nothing; otherwise the nested loops compute the per-ingredient totals of its items |
| ReportConsumption.ConsumeItems | frontend/public/report.js:258-319 | the loop over one order's items adds exactly those items to the totals |
| ReportConsumption.ConsumeItem | frontend/public/report.js:259-318 | one item is skipped without a name or a positive quantity, and otherwise adds its count, flavour and amounts to its menu and variant |
| ReportConsumption.AddItemUses | frontend/public/report.js:288-317 | the recipe's lines and then the chosen flavour's lines, times the quantity, are added to the menu's and the variant's totals, and the flavour's count grows unless it is "-" |
| ReportConsumption.AddKnownUses | frontend/public/report.js:1290-1304 | the recipe lines of ingredients with inventory data, each times the item's quantity, are added to the usage |
| QrCart.LoadRoute | frontend/public/qr-cart.js:41-76 | the page goes to tracking exactly when an order id, customer and room name are stored but no cart, and shows the cart exactly when cart, customer and room are stored and the cart text parses; otherwise it goes to the menu |
| QrCart.EstimatedTime | frontend/public/qr-cart.js:190 | the estimate is not negative, no entry takes longer, and it is 0 or the time of some entry |
| QrCart.TotalItemsAppend | frontend/public/qr-cart.js:188 | the item total of two carts joined is the sum of their totals |
| QrCart.TotalPriceAppend | frontend/public/qr-cart.js:189 | the price total of two carts joined is the sum of their totals |
| QrCart.TotalItemsWithout | frontend/public/qr-cart.js:168-172 | removing an entry takes exactly its quantity off the item total |
| QrCart.TotalPriceWithout | frontend/public/qr-cart.js:168-172 | removing an entry takes exactly its price times quantity off the total |
| QrCart.TotalItemsUpdate | frontend/public/qr-cart.js:151-165 | setting one entry's quantity moves the item total by the difference |
| QrCart.OrderLines | frontend/public/qr-cart.js:214-220 | one order line per cart entry, in order, with its menu and quantity, a missing preference or note sent as "", under the given Telegram id |
| QrCart.TelegramId | frontend/public/qr-cart.js:210 | the stored Telegram id when there is one, else "0"; never empty |
| QrCart.ConfirmOrder | frontend/public/qr-cart.js:199-222 | the confirm button is disabled and nothing is sent exactly when the cart is empty; otherwise one line per entry with its menu and quantity and a non-empty Telegram id |
| QrCart.CartManager.constructor | frontend/public/qr-cart.js:22-26 | the manager starts with an empty cart and no customer or room |
| QrCart.CartManager.LoadCartData | frontend/public/qr-cart.js:41-76 | the page is the one LoadRoute chooses, and the cart, customer and room are taken from storage only when the cart is shown |
| QrCart.CartManager.RemoveItem | frontend/public/qr-cart.js:168-177 | the entry goes and the rest keep their order, storage follows, the totals drop by its quantity and price, and an emptied cart sends the page to the menu |
| QrCart.CartManager.UpdateQuantity | frontend/public/qr-cart.js:151-166 | a new quantity of 0 or less removes the entry, taking its quantity and line price off the totals, and an emptied cart sends the page to the menu; otherwise the quantity is set with no upper limit and the item total moves by the change; storage follows and positive quantities stay positive |
| StockPage.GetStockStatus | frontend/public/js/kelola-stok.js:324-334 | out of stock exactly at 0 or below, low stock exactly above 0 up to the minimum, warning exactly above the minimum up to 1.5 times it, in stock above that |
| StockPage.OverviewOf | frontend/public/js/kelola-stok.js:489-494 | the total card counts every row, and the three status cards together count no more rows than there are |
| StockPage.OverviewMatchesStatus | frontend/public/js/kelola-stok.js:491-493 | each status card counts exactly the rows whose badge shows that status (324-334) |
| StockPage.OverviewCountsDisjoint | frontend/public/js/kelola-stok.js:491-493 | no row is counted on two status cards |
| StockPage.SearchResult | frontend/public/js/kelola-stok.js:255-263 | a blank term shows every row; otherwise a row is shown exactly when its name or category contains the term, ignoring case |
| StockPage.MarksUpToShown | frontend/public/js/kelola-stok.js:366-380 | a page gets a button exactly when it is the first, the last or within one of the current page, and an ellipsis exactly when it is otherwise two away from it |
| StockPage.MarksUpToOrdered | frontend/public/js/kelola-stok.js:366-380 | the buttons and ellipses come in page order, each page at most once, within 1..total |
| StockPage.InventoryManager.constructor | frontend/public/js/kelola-stok.js:4-8 | the manager starts with no rows, on page 1 of 10 rows |
| StockPage.InventoryManager.HandleSearch | frontend/public/js/kelola-stok.js:255-266 | the shown rows become SearchResult of the inventory and the table returns to page 1; nothing else changes |
| StockPage.InventoryManager.PageMarks | frontend/public/js/kelola-stok.js:340-380 | the loop lays out exactly the marks of the filtered rows' page count around the current page |
| StockPage.InventoryManager.GoToPage | frontend/public/js/kelola-stok.js:392-395 | the page becomes the one asked for, without a range check, and nothing else changes |
| StockPage.InventoryManager.HandleLocalFormSubmission | frontend/public/js/kelola-stok.js:471-496 | an edit merges the form into the row with the edited id, an add appends a row with a fresh id above all others; distinct ids stay distinct, and the shown rows and overview are recomputed |
| StockPage.InventoryManager.HandleLocalDelete | frontend/public/js/kelola-stok.js:521-536 | the row with the id goes; with distinct ids no row keeps it; the shown rows and overview are recomputed only when a row was found |
| StockPage.FindId | frontend/public/js/kelola-stok.js:474 | no index exactly when no row has the id; otherwise the first row with it |
| StockPage.MaxId | frontend/public/js/kelola-stok.js:481 | at least 0 and at least every row's id |
| StockPage.NewItem | frontend/public/js/kelola-stok.js:481-482 | the new row's id is at least 1 and above every existing id |
| StockPage.Merge | frontend/public/js/kelola-stok.js:476 | the merged row keeps its id and takes every field of the form |
| StockPage.EditLocal | frontend/public/js/kelola-stok.js:474-478 | the table keeps its length and ids, and every row but the edited one is unchanged |
| StockPage.EditLocalKeepsIds | frontend/public/js/kelola-stok.js:474-478 | an edit keeps distinct ids distinct |
| StockPage.DeleteLocal | frontend/public/js/kelola-stok.js:522-524 | without a row with the id nothing changes; otherwise exactly that row is removed |
| StockPage.DeleteLocalKeepsIds | frontend/public/js/kelola-stok.js:522-524 | with distinct ids, a delete leaves no row with the id and keeps the rest distinct |
| KitchenBoard.LeadingDigits | frontend/public/index.js:348 | the length of the run of ASCII digits `\d+` can take at the start of a line |
| KitchenBoard.CardReadsDetailLine | frontend/public/index.js:186-204 | the card reads a line the kitchen service writes (kitchen_service/main.py:133) back into the item's quantity, menu name and preference |
| KitchenBoard.CardMissesEmptyPreference | frontend/public/index.js:191-203 | for an item ordered without a preference the kitchen writes `Nx Name ()`, neither pattern matches, and the card shows the whole line as the name with no quantity |
| KitchenBoard.CardFieldsOfCount | frontend/public/index.js:191-203 | after a count and "x ", the card takes the name and variant apart when the rest has that shape, and otherwise keeps the whole line as the name |
| KitchenBoard.SummaryMatchOfDetail | frontend/public/index.js:348 | the summary's lazy regular expression takes `Nx Name (Variant)` apart into N, the name and the variant |
| KitchenBoard.SummaryReadsDetailLine | frontend/public/index.js:341-364 | the summary reads a kitchen detail line back into its quantity, menu name and preference |
| KitchenBoard.ColumnOf | frontend/public/index.js:294-304 | a ticket is placed exactly when its status is one of the six the board knows, and in the cancel column exactly for "cancel" and "habis" |
| KitchenBoard.Placed | frontend/public/index.js:285-288 | the placed tickets are a permutation of those with an id and a detail, oldest first |
| KitchenBoard.ColumnContents | frontend/public/index.js:290-305 | a column holds exactly the placeable tickets whose status maps to it |
| KitchenBoard.QueueNumbers | frontend/public/index.js:327-330 | every ticket of the day gets a queue number, between 1 and the number of tickets |
| KitchenBoard.QueueNumbersArePositions | frontend/public/index.js:324-330 | with distinct ids the k-th ticket of the day, oldest first, gets number k + 1 |
| KitchenBoard.BuildSpec | frontend/public/index.js:367-395 | each menu named by an item has an entry whose count sums its items' units (0 counting as 1) and whose rows are its items in order; no other menu has one |
| KitchenBoard.BuildValid | frontend/public/index.js:372-394 | the summary's entries and its list of names stay consistent push after push |
| KitchenBoard.AddTicket | frontend/public/index.js:367-395 | adding one ticket's items in order extends the summary by exactly those pushes |
| KitchenBoard.Summarize | frontend/public/index.js:332-396 | the loop over the tickets builds exactly the summary of the active tickets' items |
| KitchenBoard.SummarizeTicket | frontend/public/index.js:332-366 | one ticket adds its items when it is active and nothing otherwise |
| KitchenBoard.DedupeById | frontend/public/index.js:415-417 | the rows left have distinct ids, come from the input, and cover every id of it |
| KitchenBoard.DedupeKeepsFirst | frontend/public/index.js:415-417 | the first row of each id is the one kept |
| KitchenBoard.DedupeKeepsSorted | frontend/public/index.js:412-417 | removing duplicates keeps the rows sorted by queue number |
| KitchenBoard.ShownRows | frontend/public/index.js:412-417 | a menu's table shows one row per ticket, sorted by queue number, with every ticket of the menu |
| KitchenBoard.MenuOrder | frontend/public/index.js:407-408 | the menus are a permutation of the summary's names, ordered by smallest queue number |
| KitchenBoard.SummaryView | frontend/public/index.js:407-408 | the sidebar entries are the summary's entries for exactly the listed menus, each as often as listed, ordered by smallest queue number |
| KitchenBoard.MenuSummaries | frontend/public/index.js:407-424 | the sidebar lists exactly the given menus, each as often as given; each entry shows its menu's count and first queue number and the table of its rows as ShownRows cuts it; entries come by smallest queue number |
| KitchenBoard.BoardSummary | frontend/public/index.js:283-308 | built over the placed tickets (`validOrders`): a menu appears once exactly when some active ticket orders it; its count is the units of its items, its first queue number the lowest among its rows (numbered over today's placed tickets), its table those rows as ShownRows cuts them; menus come by that queue number |
| KitchenOrderForm.Without | frontend/public/index.js:713 | `splice(idx, 1)` removes exactly the element at idx and keeps the rest in order |
| KitchenOrderForm.OrderForm.constructor | frontend/public/index.js:661-662 | the form starts with one blank regular item and one blank custom item |
| KitchenOrderForm.OrderForm.Reset | frontend/public/index.js:617-624 | closing the modal resets both lists to one blank item |
| KitchenOrderForm.OrderForm.AddItem | frontend/public/index.js:827-830 | a blank item is appended and nothing else changes |
| KitchenOrderForm.OrderForm.RemoveItem | frontend/public/index.js:712-716 | the item goes, and an emptied list gets one blank item back |
| KitchenOrderForm.OrderForm.Minus | frontend/public/index.js:803-808 | the quantity drops by 1 only while it is above 1, so it never goes below 1 |
| KitchenOrderForm.OrderForm.Plus | frontend/public/index.js:816-819 | the quantity rises by 1 with no upper bound |
| KitchenOrderForm.OrderForm.SelectMenu | frontend/public/index.js:730-736 | choosing a menu sets it and clears the preference |
| KitchenOrderForm.OrderForm.SetPreference | frontend/public/index.js:778 | the item's preference is set |
| KitchenOrderForm.OrderForm.SetNotes | frontend/public/index.js:790 | the item's note is set |
| KitchenOrderForm.OrderForm.AddCustomItem | frontend/public/index.js:1078-1080 | a blank custom item is appended |
| KitchenOrderForm.OrderForm.RemoveCustomItem | frontend/public/index.js:888-891 | the custom item goes, and an emptied list gets one blank item back |
| KitchenOrderForm.OrderForm.CustomMinus | frontend/public/index.js:1048-1053 | the custom quantity drops by 1 only while it is above 1 |
| KitchenOrderForm.OrderForm.CustomPlus | frontend/public/index.js:1063-1066 | the custom quantity rises by 1 |
| KitchenOrderForm.OrderForm.SelectCustomMenu | frontend/public/index.js:908-913 | choosing a menu for a custom item drops its flavours |
| KitchenOrderForm.OrderForm.AddFlavour | frontend/public/index.js:1007-1013 | a flavour is added only when one is selected and the item does not already have it |
| KitchenOrderForm.OrderForm.RemoveFlavour | frontend/public/index.js:968-971 | the flavour at that position is removed |
| KitchenOrderForm.RegularLines | frontend/public/index.js:1194-1200 | only items with a menu and a positive quantity become lines, none of them custom |
| KitchenOrderForm.CustomLines | frontend/public/index.js:1203-1218 | only custom items with a menu and a positive quantity become lines, each marked custom |
| KitchenOrderForm.RegularLinesOfValidForm | frontend/public/index.js:1194-1200 | on a form whose quantities are at least 1, every item with a menu becomes one line with its own fields and Telegram id "0" |
| KitchenOrderForm.CustomLinesOfValidForm | frontend/public/index.js:1203-1218 | on a form whose quantities are at least 1, every custom item with a menu becomes one line, in order, with its quantity, its flavours joined by ", " ("" for none), its note, Telegram id "0" and the custom flag |
| KitchenOrderForm.CustomPreferenceSplits | frontend/public/index.js:1206-1208 | flavour names without a comma come back one by one from splitting the joined preference at ", " |
| LegacyBoard.CardLineOfPlainLine | frontend/public/script.js:122-126 | a line without " - " is shown whole with quantity "1x", which is how the kitchen's `2x Latte (Less Sugar)` lines appear |
| LegacyBoard.CardLineOfNamedLine | frontend/public/script.js:124-126 | `Name - Quantity` is taken apart into the name and the quantity |
| LegacyBoard.NextStatus | frontend/public/script.js:2 | a ticket has a next status exactly when it is "receive", "making" or "deliver" |
| LegacyBoard.StatusFlowEndsAtDone | frontend/public/script.js:2 | three steps take a new ticket to "done", which has no next step |
| LegacyBoard.Placement | frontend/public/script.js:193-201 | a ticket is placed exactly when its status is one of six, and in the done grid exactly for "done", "cancel" and "habis" |
| LegacyBoard.NewestFirst | frontend/public/script.js:185 | the tickets are a permutation of the input, newest first |
| LegacyBoard.ColumnCards | frontend/public/script.js:187-202 | a column holds exactly the tickets with an id and a detail whose status maps to it |
| LegacyBoard.CountSummary | frontend/public/script.js:208-233 | each line name's count is the number of lines of active tickets with that name |

## Left out

- The user service (infinity/user_service/main.py) is not part of this model. It is password hashing, tokens and an ORM toggle. The API gateway, frontend/server.js and login.js are not part of it either: they pass requests on and hold no logic of their own.
- Network calls are inputs. The recipe fetch of check_and_consume either fails or supplies recipes. An outbox delivery is delivered or raises an error. The forwards between the order and kitchen services are not modelled. The page fetches are replaced by the data they return.
- Concurrency is not modelled: row locks, the background outbox thread, the kitchen's server-sent events and the pages' timers. Every operation runs alone, and a database rollback restores the state from before the call.
- The clock and the id generators are parameters. This covers `datetime.now` in Jakarta time, `new Date()`, and the uuid-based order, menu and flavour ids. "Today" is a day number.
- Floating point is modelled as `real`. Stock quantities, recipe amounts and report consumption do not model IEEE rounding. The `parseInt`/`parseFloat`/`Number` conversions are inputs that are already parsed; None stands for NaN where the page tests for it.
- DOM rendering, Chart.js, the PDF/CSV exports, toasts and modals are not modelled. So are sessionStorage and localStorage, except the values the cart page reads from storage, which are inputs.
- The inventory service has no flavour-to-ingredient mapping, no split between out-of-stock and short ingredients, and no per-line ledger or partial rollback. The model follows the code: one consumption log per order, holding its per-ingredient deductions.
- KitchenService.Durations: durations are whole seconds, as the model's times are. `total_seconds()` gives a float that keeps microseconds, so sub-second parts of the source's answer are not modelled.
- StockEngine.Quantity: an order line's quantity is a positive integer by its type. The 422 that the request model (`Field(gt=0)`) returns for a quantity of 0 or less is therefore not modelled.
- The report page's `normalizeFlavorForKey`/`getItemFlavorRaw` key scanning is not modelled. An item's other flavour text is an input.
- The report page's JSON shape normalisation is not modelled. That is the choice between `data`, `mappings` and bare arrays, and the `??` chains over alternative field names. The model starts from the normalised records.
- The units kept beside report.js totals are not modelled. Neither are the ingredient name and unit that `getOrderIngredientUsage` copies into its rows: only the per-ingredient totals are.
- The daily rows' status text and their `Daily …` order id are not modelled. They are display strings built from the counters the model computes.
- The "today" counter of menu-suggestion.js and the greeting dates are not modelled: they read the clock.
- JavaScript objects keep insertion order for string keys but not for integer-like keys. The model keeps an explicit list of names wherever the order of `Object.entries` matters: the kitchen board summary and the report's days. Elsewhere it uses maps.
- The pages' tallies are plain JavaScript objects, and a key that names an `Object.prototype` property ("constructor", "toString", "valueOf", "__proto__", …) does not behave like a map key there: `m[k] || 0` and `if (!m[k])` find the inherited value. The model treats every menu, flavour and date name as an ordinary map key, so it does not capture what the pages do with such names. This concerns SuggestionPage.UpdateStats, KitchenBoard.BuildSpec, LegacyBoard.CountSummary, ReportConsumption.FlavorMapCollects, ConsumptionPerMenu, VariantPerKey, FlavorUsagePerMenu and ReportDates.ByDateIsPerDay.
- ReportDates.NewestFirst: the daily rows are sorted with `localeCompare`. The model compares code unit by code unit, which agrees on the digit-and-dash ISO dates the page compares and may differ on other text.
- KitchenBoard.QueueNumbers: a ticket's day is the UTC day of its receive time (`toISOString`). The model computes it as milliseconds divided by a day length, and does not model leap seconds or dates the `Date` type cannot represent.
- KitchenBoard.Placed: a ticket with no receive time sorts as time 0. The page's comparator gives NaN there, and the model does not capture the order JavaScript's sort makes of NaN comparisons.
- SuggestionPage.SuggestionScreen.SortSuggestions: suggestion times are the instants the timestamp texts parse to. An unparsable timestamp, which gives NaN in the comparator, is not modelled.
- Text.Lower: it lower-cases ASCII letters only. Python's `str.lower()` and JavaScript's `toLowerCase()` also map other alphabets, and the model treats such letters as unchanged.
- ReportService.Select: the menu filter follows PostgreSQL's ILIKE, with `\` as the escape character. The database engine is configuration, and another engine's LIKE may treat `\` differently. A pattern that ends in a lone `\`, which PostgreSQL refuses as an error, is matched as a literal backslash. Only ASCII letters are folded.
- MenuCatalog.AnswerStatusSpec: the text of pydantic's error message and its `details` list are not modelled. The model names the first failing field, in declaration order. Bodies whose fields have the wrong JSON type are not modelled: the inputs arrive typed.
- OrderService.OrderBook.CreateOrder: the failed commit of a reused queue number is the `QueueNumberTaken` error. The 500 response body that the unhandled database error produces is not modelled.
- SQL aggregates are not modelled. These are the report service's top-customer and suggested-menu queries, and table creation and server setup.

## Findings

| source | as written | input that shows it | evidently intended | confidence | as-written member | corrected member |
|---|---|---|---|---|---|---|
| infinity/inventory_service/main.py:438-441 | a consumption for an order whose log exists sets `consumed` again but leaves `rolled_back` as it was | consume order A-1, roll it back, consume it again: the log stays rolled back, a second rollback restores nothing, and a third request deducts again | a new consumption after a rollback clears the rollback mark, so it is replayed by later requests and undone by the next rollback | not executed; follows from the code as read | StockEngine.RolledBackOrderConsumesAgain | StockEngine.CorrectedConsumeIsUndoneAndIdempotent |
| infinity/menu_service/main.py:442-446 | the flavour check compares the number of flavours found with the number of ids sent | POST /menu with `flavor_ids` ["FLAV01", "FLAV01"] where FLAV01 exists: one row is found for two ids, and the request is refused with 404 naming no missing id | the request is refused only when some id names no flavour | not executed; follows from the code as read | MenuCatalog.RepeatedFlavorIdRejected | MenuCatalog.CreateMenuItemCorrectedAccepts |
| infinity/order_service/main.py:63-64 | `queue_number` is unique over the whole table, while create_order restarts the numbering at 1 each day (121-127) | one order on day 0 gets number 1; the first order of day 1 gets number 1 again and violates the unique column | queue numbers unique within a day | not executed; follows from the code as read | OrderService.SecondDayOrderRejected | OrderService.CreateOrderCorrectedKeepsQueuesDistinct |
| infinity/kitchen_service/main.py:148-150 | GET /kitchen/orders is registered twice; the first handler, which lists every ticket, is the one that answers, and the day-and-status filter of the second (252-267) never runs | a ticket finished yesterday: GET /kitchen/orders still lists it | the list holds active and pending tickets and those finished today | not executed; follows from first-match routing | KitchenService.ServedListKeepsOldTickets | KitchenService.TodayList |
