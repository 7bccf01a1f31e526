/** The menu service's write endpoints as they run: the body's validation,
    the handler's checks in order, then the rows changed in place. Each is proved to produce what MenuCatalog says. */
module MenuService {
  import opened Wrappers
  import opened Text
  import opened MenuCatalog

  class MenuStore {
    var flavors: Flavors
    var menus: Menus
    var links: set<Link>
    var suggestions: seq<MenuSuggestion>
    var synced: Synced

    constructor ()
      ensures flavors == map[] && menus == map[] && links == {} && suggestions == [] && synced == map[]
    {
      flavors, menus, links, suggestions, synced := map[], map[], {}, [], map[];
    }

    /** POST /flavors. */
    method CreateFlavor(newId: string, input: FlavorInput) returns (err: Option<ApiError>)
      requires newId !in flavors
      modifies this
      ensures MenuCatalog.CreateFlavor(old(flavors), newId, input)
           == (if err.Some? then Failure(err.value) else Success(flavors))
      ensures err.Some? ==> flavors == old(flavors)
      ensures menus == old(menus) && links == old(links) && suggestions == old(suggestions) && synced == old(synced)
    {
      var validated := ValidateFlavor(input);
      if validated.Failure? {
        return Some(validated.error);
      }
      var body := validated.value;
      if Blank(body.name) {
        return Some(ApiError(BadRequest, BlankFlavorName));
      }
      if body.additionalPrice < 0 {
        return Some(ApiError(BadRequest, NegativeAdditionalPrice));
      }
      var name := PyStrip(body.name);
      if FlavorNameTaken(flavors, name, None) {
        return Some(ApiError(BadRequest, FlavorNameExists));
      }
      flavors := flavors[newId := Flavor(name, body.additionalPrice, body.isAvail)];
      err := None;
    }

    /** PUT /flavors/{id}. */
    method UpdateFlavor(id: string, input: FlavorInput) returns (err: Option<ApiError>)
      modifies this
      ensures MenuCatalog.UpdateFlavor(old(flavors), id, input)
           == (if err.Some? then Failure(err.value) else Success(flavors))
      ensures err.Some? ==> flavors == old(flavors)
      ensures menus == old(menus) && links == old(links) && suggestions == old(suggestions) && synced == old(synced)
    {
      var validated := ValidateFlavor(input);
      if validated.Failure? {
        return Some(validated.error);
      }
      var body := validated.value;
      if id !in flavors {
        return Some(ApiError(NotFound, FlavorNotFound));
      }
      if Blank(body.name) {
        return Some(ApiError(BadRequest, BlankFlavorName));
      }
      if body.additionalPrice < 0 {
        return Some(ApiError(BadRequest, NegativeAdditionalPrice));
      }
      var name := PyStrip(body.name);
      if FlavorNameTaken(flavors, name, Some(id)) {
        return Some(ApiError(BadRequest, FlavorNameExists));
      }
      flavors := flavors[id := Flavor(name, body.additionalPrice, body.isAvail)];
      err := None;
    }

    /** DELETE /flavors/{id}. */
    method DeleteFlavor(id: string) returns (err: Option<ApiError>)
      modifies this
      ensures MenuCatalog.DeleteFlavor(old(flavors), old(menus), old(links), id)
           == (if err.Some? then Failure(err.value) else Success((flavors, links)))
      ensures err.Some? ==> flavors == old(flavors) && links == old(links)
      ensures menus == old(menus) && suggestions == old(suggestions) && synced == old(synced)
    {
      if id !in flavors {
        return Some(ApiError(NotFound, FlavorNotFound));
      }
      if FlavorInUse(menus, links, id) {
        return Some(ApiError(BadRequest, FlavorStillUsed));
      }
      links := set l | l in links && l.flavorId != id;
      flavors := flavors - {id};
      err := None;
    }

    /** POST /menu, as written: a flavor id sent twice fails the count check
        (see RepeatedFlavorIdRejected). */
    method CreateMenuItem(newId: string, input: MenuInput) returns (err: Option<ApiError>)
      requires newId !in menus
      modifies this
      ensures MenuCatalog.CreateMenuItem(old(menus), old(flavors), old(links), newId, input)
           == (if err.Some? then Failure(err.value) else Success((menus, links)))
      ensures err.Some? ==> menus == old(menus) && links == old(links)
      ensures flavors == old(flavors) && suggestions == old(suggestions) && synced == old(synced)
    {
      var validated := ValidateMenu(input);
      if validated.Failure? {
        return Some(validated.error);
      }
      var body := validated.value;
      if Blank(body.baseName) {
        return Some(ApiError(BadRequest, BlankMenuName));
      }
      if body.basePrice <= 0 {
        return Some(ApiError(BadRequest, NonPositivePrice));
      }
      var ids := body.flavorIds;
      var i := 0;
      while i < |ids|
        invariant 0 <= i <= |ids|
        invariant forall k :: 0 <= k < i ==> !Blank(ids[k])
      {
        if Blank(ids[i]) {
          assert ids[i] in ids;
          return Some(ApiError(BadRequest, BlankFlavorId));
        }
        i := i + 1;
      }
      assert !exists f | f in ids :: Blank(f) by {
        forall f | f in ids ensures !Blank(f) {
          var k :| 0 <= k < |ids| && ids[k] == f;
        }
      }
      if MenuNameTaken(menus, PyStrip(body.baseName)) {
        return Some(ApiError(BadRequest, MenuNameExists));
      }
      if ids != [] && FoundFlavorCount(flavors, ids) != |ids| {
        return Some(ApiError(NotFound, UnknownFlavorId));
      }
      menus := menus[newId := MenuItem(PyStrip(body.baseName), body.basePrice, body.isAvail, 0.0)];
      links := links + set f | f in ids :: Link(newId, f);
      err := None;
    }

    /** POST /menu_suggestion. */
    method SuggestMenu(newId: string, menuName: string, customerName: string) returns (status: SuggestStatus)
      modifies this
      ensures (status, suggestions) == MenuCatalog.SuggestMenu(menus, old(suggestions), newId, menuName, customerName)
      ensures flavors == old(flavors) && menus == old(menus) && links == old(links) && synced == old(synced)
    {
      var validated := ValidateSuggestion(menuName, customerName);
      if validated.Failure? {
        return Refused(validated.error);
      }
      var (menu, customer) := validated.value;
      if Blank(menu) {
        return SuggestError(BlankSuggestedMenu);
      }
      if Blank(customer) {
        return SuggestError(BlankCustomerName);
      }
      var name := PyStrip(menu);
      if MenuNameTaken(menus, name) || SuggestedAlready(suggestions, name) {
        return Duplicate;
      }
      suggestions := suggestions + [MenuSuggestion(newId, name, PyStrip(customer))];
      status := Added;
    }

    /** POST /receive_ingredient_event. */
    method ReceiveIngredient(ev: IngredientEvent) returns (err: Option<ApiError>)
      modifies this
      ensures MenuCatalog.ReceiveIngredient(old(synced), ev)
           == (if err.Some? then Failure(err.value) else Success(synced))
      ensures err.Some? ==> synced == old(synced)
      ensures flavors == old(flavors) && menus == old(menus) && links == old(links) && suggestions == old(suggestions)
    {
      if !Complete(ev) {
        return Some(ApiError(BadRequest, IncompleteIngredient));
      }
      synced := synced[ev.id.value := SyncedIngredient(ev.name.value, ev.currentQuantity.value,
                                                       ev.minimumQuantity.value, ev.category.value, ev.unit.value)];
      err := None;
    }

    /** PUT /update_ingredient_event: the fields present are set one by one. */
    method UpdateIngredient(ev: IngredientEvent) returns (err: Option<ApiError>)
      modifies this
      ensures MenuCatalog.UpdateIngredient(old(synced), ev)
           == (if err.Some? then Failure(err.value) else Success(synced))
      ensures err.Some? ==> synced == old(synced)
      ensures flavors == old(flavors) && menus == old(menus) && links == old(links) && suggestions == old(suggestions)
    {
      if ev.id.None? {
        return Some(ApiError(BadRequest, MissingIngredientId));
      }
      var id := ev.id.value;
      if id !in synced {
        return Some(ApiError(NotFound, IngredientNotFound));
      }
      var row := synced[id];
      if ev.name.Some? { row := row.(name := ev.name.value); }
      if ev.currentQuantity.Some? { row := row.(currentQuantity := ev.currentQuantity.value); }
      if ev.minimumQuantity.Some? { row := row.(minimumQuantity := ev.minimumQuantity.value); }
      if ev.category.Some? { row := row.(category := ev.category.value); }
      if ev.unit.Some? { row := row.(unit := ev.unit.value); }
      synced := synced[id := row];
      err := None;
    }

    /** DELETE /delete_ingredient_event/{id}. */
    method DeleteIngredient(id: int) returns (status: DeleteStatus)
      modifies this
      ensures (status, synced) == MenuCatalog.DeleteIngredient(old(synced), id)
      ensures flavors == old(flavors) && menus == old(menus) && links == old(links) && suggestions == old(suggestions)
    {
      if id !in synced {
        return AlreadyGone;
      }
      synced := synced - {id};
      status := Deleted;
    }
  }
}
