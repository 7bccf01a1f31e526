/** The menu administration page (menu.js): the menu filter, the pruning
    of the chosen flavours, and the price checks before a save. The page's
    two tables use the shared pagination. */
module MenuAdmin {
  import opened Wrappers
  import opened Text
  import opened Lists
  import opened PageWindow
  import MenuCatalog

  /** A row of the menu table. */
  datatype MenuRow = MenuRow(id: string, baseName: string, basePrice: int, isAvail: bool)

  /** A row of the flavour table. */
  datatype FlavorRow = FlavorRow(id: string, flavorName: string, additionalPrice: int, isAvail: bool)

  /** A price box of the filter: empty, or what `parseInt` made of it
      (NaN when it is not a number, and every comparison with NaN fails). */
  datatype PriceBox = Empty | Parsed(value: int) | NotANumber

  /** The filter form: the search text, the status choice ("", "Yes" or
      "No"; anything else is matched by no menu), and the price bounds. */
  datatype MenuFilter = MenuFilter(search: string, status: string, priceMin: PriceBox, priceMax: PriceBox)

  predicate AtLeast(price: int, box: PriceBox) {
    box.Empty? || (box.Parsed? && price >= box.value)
  }

  predicate AtMost(price: int, box: PriceBox) {
    box.Empty? || (box.Parsed? && price <= box.value)
  }

  /** The three tests of applyMenuFilter. The search text is lower-cased
      once and compared with the lower-cased name and the price digits. */
  predicate MatchesSearch(m: MenuRow, search: string) {
    Contains(Lower(m.baseName), Lower(search)) || Contains(IntToString(m.basePrice), Lower(search))
  }

  predicate MatchesStatus(m: MenuRow, status: string) {
    status == "" || (status == "Yes" && m.isAvail) || (status == "No" && !m.isAvail)
  }

  predicate MatchesMenu(m: MenuRow, f: MenuFilter) {
    MatchesSearch(m, f.search) && MatchesStatus(m, f.status)
    && AtLeast(m.basePrice, f.priceMin) && AtMost(m.basePrice, f.priceMax)
  }

  /** The rows the filter keeps, in their order. */
  function FilterMenus(menus: seq<MenuRow>, f: MenuFilter): (r: seq<MenuRow>)
    ensures forall m :: m in r <==> m in menus && MatchesMenu(m, f)
  {
    Keep(menus, (m: MenuRow) => MatchesMenu(m, f))
  }

  /** A blank form keeps every menu. */
  lemma BlankFilterKeepsAll(menus: seq<MenuRow>)
    ensures FilterMenus(menus, MenuFilter("", "", Empty, Empty)) == menus
  {
    forall m | m in menus ensures MatchesMenu(m, MenuFilter("", "", Empty, Empty)) {
      assert OccursAt(Lower(m.baseName), Lower(""), 0);
    }
    KeepAll(menus, (m: MenuRow) => MatchesMenu(m, MenuFilter("", "", Empty, Empty)));
  }

  /** A price box that does not parse empties the table. */
  lemma UnparsableBoundKeepsNothing(menus: seq<MenuRow>, search: string, status: string, other: PriceBox)
    ensures FilterMenus(menus, MenuFilter(search, status, NotANumber, other)) == []
    ensures FilterMenus(menus, MenuFilter(search, status, other, NotANumber)) == []
  {
    KeepNone(menus, (m: MenuRow) => MatchesMenu(m, MenuFilter(search, status, NotANumber, other)));
    KeepNone(menus, (m: MenuRow) => MatchesMenu(m, MenuFilter(search, status, other, NotANumber)));
  }

  // ---------------------------------------------------------------------
  // Flavour choice and prices
  // ---------------------------------------------------------------------

  function FlavorIds(flavors: seq<FlavorRow>): set<string> {
    set f | f in flavors :: f.id
  }

  /** populateFlavorCheckboxes drops the chosen ids no flavour has any
      more, keeping the others in their order. */
  function PruneSelected(selected: seq<string>, flavors: seq<FlavorRow>): (r: seq<string>)
    ensures forall id :: id in r <==> id in selected && id in FlavorIds(flavors)
    ensures forall id :: multiset(r)[id] == if id in FlavorIds(flavors) then multiset(selected)[id] else 0
    ensures Subsequence(r, selected)
    ensures |r| <= |selected|
  {
    KeepSpec(selected, (id: string) => exists f :: f in flavors && f.id == id);
    Keep(selected, (id: string) => exists f :: f in flavors && f.id == id)
  }

  /** Pruning twice is pruning once. */
  lemma PruneIdempotent(selected: seq<string>, flavors: seq<FlavorRow>)
    ensures PruneSelected(PruneSelected(selected, flavors), flavors) == PruneSelected(selected, flavors)
  {
    var once := PruneSelected(selected, flavors);
    KeepAll(once, (id: string) => exists f :: f in flavors && f.id == id);
  }

  /** The check saveMenu and saveFlavour make: `parseInt` gave a number
      (None stands for NaN) and it is not negative. */
  function CheckPrice(parsed: Option<int>, message: string): (r: Result<int, string>)
    ensures r.Success? <==> parsed.Some? && parsed.value >= 0
    ensures r.Success? ==> r.value == parsed.value
    ensures r.Failure? ==> r.error == message
  {
    if parsed.None? || parsed.value < 0 then Failure(message) else Success(parsed.value)
  }

  const MenuPriceMessage: string := "Harga menu tidak boleh negatif."
  const FlavorPriceMessage: string := "Harga tambahan tidak boleh negatif."

  /** The flavour price check is the one the menu service makes on a new
      flavour: a price the page lets through the service accepts. */
  lemma FlavorPriceCheckAgreesWithService(parsed: Option<int>, flavors: MenuCatalog.Flavors, newId: string, name: string)
    requires newId !in flavors && !MenuCatalog.Blank(name)
    requires !MenuCatalog.FlavorNameTaken(flavors, PyStrip(name), None)
    ensures CheckPrice(parsed, FlavorPriceMessage).Success? ==>
      MenuCatalog.CreateFlavor(flavors, newId, MenuCatalog.FlavorInput(name, parsed, true)).Success?
  {
    MenuCatalog.CreateFlavorSpec(flavors, newId, MenuCatalog.FlavorInput(name, parsed, true));
  }

  /** The menu price check is weaker than the service's: a price of 0
      passes the page and is refused by the service's validation of a body
      whose name is not blank. */
  lemma ZeroMenuPricePassesPageOnly(input: MenuCatalog.MenuInput)
    requires input.basePrice == Some(0) && !MenuCatalog.Blank(input.baseName)
    ensures CheckPrice(input.basePrice, MenuPriceMessage).Success?
    ensures MenuCatalog.ValidateMenu(input) == Failure(MenuCatalog.Invalid("base_price"))
  {
  }

  class MenuScreen {
    var allMenus: seq<MenuRow>
    var filteredMenus: seq<MenuRow>
    var allFlavors: seq<FlavorRow>
    var selectedFlavorIds: seq<string>
    const menuPager: Pager
    const flavorPager: Pager

    ghost predicate Valid()
      reads this, menuPager, flavorPager
    {
      menuPager != flavorPager && menuPager.Valid() && flavorPager.Valid()
    }

    constructor ()
      ensures Valid()
      ensures allMenus == [] && filteredMenus == [] && allFlavors == [] && selectedFlavorIds == []
      ensures menuPager.currentPage == 1 && menuPager.pageSize == 10
      ensures flavorPager.currentPage == 1 && flavorPager.pageSize == 10
    {
      allMenus, filteredMenus, allFlavors, selectedFlavorIds := [], [], [], [];
      menuPager := new Pager(10);
      flavorPager := new Pager(10);
    }

    /** applyMenuFilter: the matching menus, the first page, pages
        recounted; the flavour table is untouched. */
    method ApplyMenuFilter(f: MenuFilter)
      requires Valid()
      modifies this, menuPager
      ensures Valid()
      ensures filteredMenus == FilterMenus(allMenus, f)
      ensures menuPager.currentPage == 1 && menuPager.totalPages == PageCount(|filteredMenus|, menuPager.pageSize)
      ensures allMenus == old(allMenus) && allFlavors == old(allFlavors) && selectedFlavorIds == old(selectedFlavorIds)
      ensures unchanged(flavorPager)
    {
      filteredMenus := Keep(allMenus, (m: MenuRow) => MatchesMenu(m, f));
      menuPager.Restart(|filteredMenus|);
    }

    /** The pruning step of populateFlavorCheckboxes. */
    method PopulateFlavorCheckboxes()
      modifies this
      ensures selectedFlavorIds == PruneSelected(old(selectedFlavorIds), allFlavors)
      ensures forall id :: id in selectedFlavorIds ==> id in FlavorIds(allFlavors)
      ensures allMenus == old(allMenus) && filteredMenus == old(filteredMenus) && allFlavors == old(allFlavors)
    {
      selectedFlavorIds := PruneSelected(selectedFlavorIds, allFlavors);
    }
  }
}
