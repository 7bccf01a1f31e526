/** The stock management page (kelola-stok.js): stock status badges, the
    overview counts, the search box, the page buttons, and the local add,
    edit and delete it falls back to when the inventory service is not
    reachable. */
module StockPage {
  import opened Wrappers
  import opened Text
  import opened Lists
  import opened PageWindow

  /** A row of the inventory table. */
  datatype StockItem = StockItem(id: int, name: string, category: string, unit: string,
                                 currentQuantity: real, minimumQuantity: real)

  /** The fields of the add/edit form. */
  datatype ItemData = ItemData(name: string, category: string, unit: string,
                               currentQuantity: real, minimumQuantity: real)

  // ---------------------------------------------------------------------
  // Stock status
  // ---------------------------------------------------------------------

  datatype StockStatus = OutOfStock | LowStock | Warning | InStock

  /** getStockStatus: the first threshold the quantity is at or below. */
  function GetStockStatus(item: StockItem): (st: StockStatus)
    ensures st == OutOfStock <==> item.currentQuantity <= 0.0
    ensures st == LowStock <==> 0.0 < item.currentQuantity <= item.minimumQuantity
    ensures st == Warning <==>
      0.0 < item.currentQuantity && item.minimumQuantity < item.currentQuantity <= item.minimumQuantity * 1.5
    ensures st == InStock <==> 0.0 < item.currentQuantity && item.minimumQuantity * 1.5 < item.currentQuantity
  {
    var q, m := item.currentQuantity, item.minimumQuantity;
    if q <= 0.0 then OutOfStock
    else if q <= m then LowStock
    else if q <= m * 1.5 then Warning
    else InStock
  }

  // ---------------------------------------------------------------------
  // Overview counts
  // ---------------------------------------------------------------------

  /** The three filters the overview cards count with. */
  predicate Critical(item: StockItem) { item.currentQuantity <= 0.0 }

  predicate Low(item: StockItem) {
    item.currentQuantity > 0.0 && item.currentQuantity <= item.minimumQuantity
  }

  predicate Warned(item: StockItem) {
    item.currentQuantity > item.minimumQuantity && item.currentQuantity <= item.minimumQuantity * 1.5
  }

  datatype Overview = Overview(totalItems: nat, criticalCount: nat, lowStockCount: nat, warningCount: nat)

  /** The overview cards after a local add or delete. */
  function OverviewOf(inventory: seq<StockItem>): (o: Overview)
    ensures o.totalItems == |inventory|
    ensures o.criticalCount + o.lowStockCount + o.warningCount <= o.totalItems
  {
    var c, l, w := Keep(inventory, Critical), Keep(inventory, Low), Keep(inventory, Warned);
    OverviewCountsDisjoint(inventory);
    Overview(|inventory|, |c|, |l|, |w|)
  }

  function WithStatus(inventory: seq<StockItem>, st: StockStatus): seq<StockItem> {
    Keep(inventory, (item: StockItem) => GetStockStatus(item) == st)
  }

  /** The overview filters are the status badges: a card counts exactly the
      rows showing its badge. The warning filter does not test for a
      positive quantity, and needs none: above the minimum and at most half
      again as much puts the minimum, and so the quantity, above zero. */
  lemma OverviewMatchesStatus(inventory: seq<StockItem>)
    ensures OverviewOf(inventory).criticalCount == |WithStatus(inventory, OutOfStock)|
    ensures OverviewOf(inventory).lowStockCount == |WithStatus(inventory, LowStock)|
    ensures OverviewOf(inventory).warningCount == |WithStatus(inventory, Warning)|
  {
    KeepAgreeing(inventory, Critical, (item: StockItem) => GetStockStatus(item) == OutOfStock);
    KeepAgreeing(inventory, Low, (item: StockItem) => GetStockStatus(item) == LowStock);
    forall item | item in inventory
      ensures Warned(item) == (GetStockStatus(item) == Warning)
    {
      if Warned(item) {
        WarnedIsPositive(item.currentQuantity, item.minimumQuantity);
      }
    }
    KeepAgreeing(inventory, Warned, (item: StockItem) => GetStockStatus(item) == Warning);
  }

  lemma WarnedIsPositive(q: real, m: real)
    requires m < q <= m * 1.5
    ensures 0.0 < m && 0.0 < q
  {
  }

  /** No row is counted on two cards. */
  lemma {:induction false} OverviewCountsDisjoint(inventory: seq<StockItem>)
    ensures |Keep(inventory, Critical)| + |Keep(inventory, Low)| + |Keep(inventory, Warned)| <= |inventory|
    decreases |inventory|
  {
    if inventory != [] {
      var init, last := inventory[..|inventory| - 1], inventory[|inventory| - 1];
      OverviewCountsDisjoint(init);
      if Warned(last) {
        WarnedIsPositive(last.currentQuantity, last.minimumQuantity);
      }
    }
  }

  // ---------------------------------------------------------------------
  // Search
  // ---------------------------------------------------------------------

  /** The name or the category contains the term, ignoring case. */
  predicate Matches(item: StockItem, term: string) {
    Contains(Lower(item.name), Lower(term)) || Contains(Lower(item.category), Lower(term))
  }

  /** handleSearch: a blank term shows every row again; otherwise the rows
      whose name or category contains the term (untrimmed), in order. */
  function SearchResult(inventory: seq<StockItem>, term: string): (r: seq<StockItem>)
    ensures JsTrim(term) == "" ==> r == inventory
    ensures JsTrim(term) != "" ==> forall item :: item in r <==> item in inventory && Matches(item, term)
  {
    if JsTrim(term) == "" then inventory else Keep(inventory, (item: StockItem) => Matches(item, term))
  }

  // ---------------------------------------------------------------------
  // Page buttons
  // ---------------------------------------------------------------------

  /** A numbered button or a "..." gap, each with the page it stands for. */
  datatype PageMark = PageButton(page: int) | Gap(page: int)

  /** What the loop of updatePagination adds for page `i`. */
  function MarkFor(i: int, current: int, total: int): seq<PageMark> {
    if i == 1 || i == total || (current - 1 <= i && i <= current + 1) then [PageButton(i)]
    else if i == current - 2 || i == current + 2 then [Gap(i)]
    else []
  }

  /** The marks for pages 1 to n. */
  function MarksUpTo(n: nat, current: int, total: int): seq<PageMark>
    decreases n
  {
    if n == 0 then [] else MarksUpTo(n - 1, current, total) + MarkFor(n, current, total)
  }

  /** A page has a button exactly when it is the first, the last, or next
      to the current page; and it has a gap exactly when it is two away
      from the current page and neither the first nor the last. */
  lemma {:induction false} MarksUpToShown(n: nat, current: int, total: int)
    ensures forall i :: PageButton(i) in MarksUpTo(n, current, total) <==>
      1 <= i <= n && (i == 1 || i == total || current - 1 <= i <= current + 1)
    ensures forall i :: Gap(i) in MarksUpTo(n, current, total) <==>
      1 <= i <= n && i != 1 && i != total && (i == current - 2 || i == current + 2)
    decreases n
  {
    if n > 0 {
      MarksUpToShown(n - 1, current, total);
    }
  }

  /** The marks come in page order, each page once. */
  lemma {:induction false} MarksUpToOrdered(n: nat, current: int, total: int)
    ensures forall a, b :: 0 <= a < b < |MarksUpTo(n, current, total)| ==>
      MarksUpTo(n, current, total)[a].page < MarksUpTo(n, current, total)[b].page
    ensures forall a :: 0 <= a < |MarksUpTo(n, current, total)| ==> 1 <= MarksUpTo(n, current, total)[a].page <= n
    decreases n
  {
    if n > 0 {
      MarksUpToOrdered(n - 1, current, total);
    }
  }

  class InventoryManager {
    var inventory: seq<StockItem>
    var filteredInventory: seq<StockItem>
    var currentPage: int
    var itemsPerPage: nat
    var overview: Overview

    /** Every row has its own id. */
    ghost predicate IdsDistinct()
      reads this
    {
      forall a, b :: 0 <= a < b < |inventory| ==> inventory[a].id != inventory[b].id
    }

    constructor ()
      ensures inventory == [] && filteredInventory == [] && currentPage == 1 && itemsPerPage == 10
      ensures IdsDistinct()
    {
      inventory, filteredInventory, currentPage, itemsPerPage := [], [], 1, 10;
      overview := Overview(0, 0, 0, 0);
    }

    method HandleSearch(term: string)
      modifies this
      ensures filteredInventory == SearchResult(inventory, term)
      ensures currentPage == 1
      ensures inventory == old(inventory) && overview == old(overview) && itemsPerPage == old(itemsPerPage)
    {
      if JsTrim(term) == "" {
        filteredInventory := inventory;
      } else {
        filteredInventory := Keep(inventory, (item: StockItem) => Matches(item, term));
      }
      currentPage := 1;
    }

    /** The marks updatePagination lays out for the filtered rows. */
    method PageMarks() returns (marks: seq<PageMark>)
      requires itemsPerPage > 0
      ensures marks == MarksUpTo(CeilDiv(|filteredInventory|, itemsPerPage), currentPage, CeilDiv(|filteredInventory|, itemsPerPage))
    {
      var total := CeilDiv(|filteredInventory|, itemsPerPage);
      marks := [];
      var i := 1;
      while i <= total
        invariant 1 <= i <= total + 1
        invariant marks == MarksUpTo(i - 1, currentPage, total)
      {
        if i == 1 || i == total || (i >= currentPage - 1 && i <= currentPage + 1) {
          marks := marks + [PageButton(i)];
        } else if i == currentPage - 2 || i == currentPage + 2 {
          marks := marks + [Gap(i)];
        }
        i := i + 1;
      }
    }

    /** A page button: no range check. */
    method GoToPage(page: int)
      modifies this
      ensures currentPage == page
      ensures inventory == old(inventory) && filteredInventory == old(filteredInventory)
      ensures overview == old(overview) && itemsPerPage == old(itemsPerPage)
    {
      currentPage := page;
    }

    /** handleLocalFormSubmission. An edit merges the form into the row with
        the edited id and leaves everything else alone (nothing changes when
        no row has it); an add appends the form under one more than the
        largest id. The table shows every row again and the cards are
        recounted. */
    method HandleLocalFormSubmission(editingId: Option<int>, data: ItemData)
      modifies this
      ensures editingId.Some? ==> inventory == EditLocal(old(inventory), editingId.value, data)
      ensures editingId.None? ==> inventory == old(inventory) + [NewItem(old(inventory), data)]
      ensures old(IdsDistinct()) ==> IdsDistinct()
      ensures filteredInventory == inventory && overview == OverviewOf(inventory)
      ensures currentPage == old(currentPage) && itemsPerPage == old(itemsPerPage)
    {
      if editingId.Some? {
        EditLocalKeepsIds(inventory, editingId.value, data);
        inventory := EditLocal(inventory, editingId.value, data);
      } else {
        var item := NewItem(inventory, data);
        inventory := inventory + [item];
      }
      filteredInventory := inventory;
      overview := OverviewOf(inventory);
    }

    /** handleLocalDelete: the row with the deleted id goes (the first one,
        should there be two), the rest keep their order. */
    method HandleLocalDelete(id: int)
      modifies this
      ensures inventory == DeleteLocal(old(inventory), id)
      ensures old(IdsDistinct()) ==> IdsDistinct() && forall item :: item in inventory ==> item.id != id
      ensures FindId(old(inventory), id).Some? ==>
        filteredInventory == inventory && overview == OverviewOf(inventory)
      ensures FindId(old(inventory), id).None? ==>
        filteredInventory == old(filteredInventory) && overview == old(overview)
      ensures currentPage == old(currentPage) && itemsPerPage == old(itemsPerPage)
    {
      DeleteLocalKeepsIds(inventory, id);
      var found := FindId(inventory, id);
      if found.Some? {
        inventory := DeleteLocal(inventory, id);
        filteredInventory := inventory;
        overview := OverviewOf(inventory);
      }
    }
  }

  // ---------------------------------------------------------------------
  // The local edits
  // ---------------------------------------------------------------------

  /** `findIndex(item => item.id === id)`. */
  function FindId(inventory: seq<StockItem>, id: int): (r: Option<nat>)
    ensures r.None? <==> forall k :: 0 <= k < |inventory| ==> inventory[k].id != id
    ensures r.Some? ==> r.value < |inventory| && inventory[r.value].id == id
    ensures r.Some? ==> forall k :: 0 <= k < r.value ==> inventory[k].id != id
    decreases |inventory|
  {
    if inventory == [] then None
    else if inventory[0].id == id then Some(0)
    else
      var r := FindId(inventory[1..], id);
      if r.None? then None else Some(r.value + 1)
  }

  /** `Math.max(...inventory.map(item => item.id), 0)`. */
  function MaxId(inventory: seq<StockItem>): (m: int)
    ensures m >= 0 && forall k :: 0 <= k < |inventory| ==> inventory[k].id <= m
    decreases |inventory|
  {
    if inventory == [] then 0
    else
      var rest := MaxId(inventory[1..]);
      assert forall k :: 1 <= k < |inventory| ==> inventory[k] == inventory[1..][k - 1];
      if inventory[0].id > rest then inventory[0].id else rest
  }

  /** The row a local add appends. */
  function NewItem(inventory: seq<StockItem>, data: ItemData): (item: StockItem)
    ensures forall k :: 0 <= k < |inventory| ==> inventory[k].id < item.id
    ensures item.id >= 1
  {
    StockItem(MaxId(inventory) + 1, data.name, data.category, data.unit, data.currentQuantity, data.minimumQuantity)
  }

  /** `{ ...inventory[index], ...itemData }`: the form's fields over the
      row's, which keeps its id. */
  function Merge(item: StockItem, data: ItemData): (r: StockItem)
    ensures r.id == item.id
    ensures r.name == data.name && r.category == data.category && r.unit == data.unit
    ensures r.currentQuantity == data.currentQuantity && r.minimumQuantity == data.minimumQuantity
  {
    StockItem(item.id, data.name, data.category, data.unit, data.currentQuantity, data.minimumQuantity)
  }

  /** A local edit: the first row with the id takes the form's fields. */
  function EditLocal(inventory: seq<StockItem>, id: int, data: ItemData): (r: seq<StockItem>)
    ensures |r| == |inventory|
    ensures forall k :: 0 <= k < |r| ==> r[k].id == inventory[k].id
    ensures forall k :: 0 <= k < |r| && FindId(inventory, id) != Some(k) ==> r[k] == inventory[k]
  {
    var found := FindId(inventory, id);
    if found.None? then inventory else inventory[found.value := Merge(inventory[found.value], data)]
  }

  lemma EditLocalKeepsIds(inventory: seq<StockItem>, id: int, data: ItemData)
    ensures var r := EditLocal(inventory, id, data);
      (forall a, b :: 0 <= a < b < |inventory| ==> inventory[a].id != inventory[b].id) ==>
      forall a, b :: 0 <= a < b < |r| ==> r[a].id != r[b].id
  {
  }

  /** A local delete: the first row with the id goes. */
  function DeleteLocal(inventory: seq<StockItem>, id: int): (r: seq<StockItem>)
    ensures FindId(inventory, id).None? ==> r == inventory
    ensures FindId(inventory, id).Some? ==> |r| == |inventory| - 1
    ensures FindId(inventory, id).Some? ==>
      multiset(r) + multiset{inventory[FindId(inventory, id).value]} == multiset(inventory)
  {
    var found := FindId(inventory, id);
    if found.None? then inventory
    else
      var k := found.value;
      assert inventory == inventory[..k] + [inventory[k]] + inventory[k + 1..];
      inventory[..k] + inventory[k + 1..]
  }

  /** With distinct ids, a delete removes the id from the table and keeps
      the rest distinct. */
  lemma DeleteLocalKeepsIds(inventory: seq<StockItem>, id: int)
    ensures var r := DeleteLocal(inventory, id);
      (forall a, b :: 0 <= a < b < |inventory| ==> inventory[a].id != inventory[b].id) ==>
      (forall a, b :: 0 <= a < b < |r| ==> r[a].id != r[b].id) && forall item :: item in r ==> item.id != id
  {
    var r := DeleteLocal(inventory, id);
    var found := FindId(inventory, id);
    if found.Some? && forall a, b :: 0 <= a < b < |inventory| ==> inventory[a].id != inventory[b].id {
      var k := found.value;
      assert r == inventory[..k] + inventory[k + 1..];
      forall j | 0 <= j < |r| ensures r[j] == inventory[if j < k then j else j + 1] && r[j].id != id {
      }
    }
  }
}
