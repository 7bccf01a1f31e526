/** The rules of the menu service over its tables: flavors, menu items, the
    menu-flavor association, customer menu suggestions, the copy of the
    inventory's ingredients kept in sync by events, and recipe rows. Each
    endpoint is a function from the tables before the request to either a
    refusal (by the body's validation, or with the HTTP status the handler
    raises) or the tables after it. */
module MenuCatalog {
  import opened Wrappers
  import opened Text

  /** Why a request was refused: a field of the body that failed its model's
      validation, or the `detail` of an HTTPException a handler raised. */
  datatype Reason =
    | InvalidField(field: string)
    | BlankFlavorName | NegativeAdditionalPrice | FlavorNameExists | FlavorNotFound | FlavorStillUsed
    | BlankMenuName | NonPositivePrice | BlankFlavorId | MenuNameExists | UnknownFlavorId
    | IncompleteIngredient | MissingIngredientId | IngredientNotFound | BadMenuNames

  datatype ApiError = ApiError(status: int, reason: Reason)

  const BadRequest: int := 400
  const NotFound: int := 404
  /** The status FastAPI gives a RequestValidationError before the service's
      own handler answers it. */
  const Unprocessable: int := 422

  /** `not v or v.strip() == ""`: empty or nothing but white space. */
  predicate Blank(s: string) {
    forall i :: 0 <= i < |s| ==> IsPySpace(s[i])
  }

  lemma BlankIsStripEmpty(s: string)
    ensures Blank(s) <==> PyStrip(s) == ""
  {
    TrimShape(s, IsPySpace);
  }

  // ---------------------------------------------------------------------
  // The exception handler
  // ---------------------------------------------------------------------

  datatype ErrorResponse = ErrorResponse(httpStatus: int, errorType: string, originalStatus: int)

  predicate StartsWith(s: string, prefix: string) {
    |prefix| <= |s| && s[..|prefix|] == prefix
  }

  /** What http_exception_handler answers for an HTTPException raised while
      serving `path`. */
  function HandleHttpException(path: string, status: int): ErrorResponse {
    if StartsWith(path, "/flavors") then ErrorResponse(status, "business_logic_error", status)
    else if status in {400, 404} then ErrorResponse(200, "business_logic_error", status)
    else ErrorResponse(status, "http_error", status)
  }

  /** The original status is always reported; the HTTP status is rewritten
      to 200 exactly for a 400 or 404 outside the /flavors paths. */
  lemma HandleHttpExceptionSpec(path: string, status: int)
    ensures HandleHttpException(path, status).originalStatus == status
    ensures HandleHttpException(path, status).httpStatus != status
        <==> !StartsWith(path, "/flavors") && status in {400, 404}
    ensures HandleHttpException(path, status).httpStatus in {200, status}
    ensures HandleHttpException(path, status).errorType == "http_error"
        <==> !StartsWith(path, "/flavors") && status !in {400, 404}
  {
  }

  // ---------------------------------------------------------------------
  // Request validation
  // ---------------------------------------------------------------------

  /** A body refused by its pydantic model: `field` is the first field
      (in declaration order) whose constraint or validator fails. The
      handler does not run. */
  function Invalid(field: string): ApiError {
    ApiError(Unprocessable, InvalidField(field))
  }

  /** The HTTP status a refused request is answered with:
      validation_exception_handler answers every validation failure with
      200, whatever the path; http_exception_handler handles the rest. */
  function AnswerStatus(path: string, e: ApiError): int {
    if e.reason.InvalidField? then 200 else HandleHttpException(path, e.status).httpStatus
  }

  /** A validation failure is a 200 on every path, /flavors included, while
      an HTTPException raised under /flavors keeps its status. */
  lemma AnswerStatusSpec(path: string, e: ApiError)
    ensures e.reason.InvalidField? ==> AnswerStatus(path, e) == 200
    ensures !e.reason.InvalidField? && StartsWith(path, "/flavors") ==> AnswerStatus(path, e) == e.status
    ensures AnswerStatus(path, e) in {200, e.status}
  {
  }

  // ---------------------------------------------------------------------
  // Flavors
  // ---------------------------------------------------------------------

  datatype Flavor = Flavor(name: string, additionalPrice: int, isAvail: bool)
  type Flavors = map<string, Flavor>

  /** A FlavorCreate body as sent; `additionalPrice` None is a missing or
      null field. */
  datatype FlavorInput = FlavorInput(name: string, additionalPrice: Option<int>, isAvail: bool)

  /** A FlavorCreate body after validation. */
  datatype FlavorBody = FlavorBody(name: string, additionalPrice: int, isAvail: bool)

  /** The FlavorCreate model: `min_length=1` and the name validator refuse a
      blank name and return it stripped; a missing price takes the default
      0, the price validator turns null into 0, and `ge=0` refuses a
      negative one. */
  function ValidateFlavor(input: FlavorInput): Result<FlavorBody, ApiError> {
    if Blank(input.name) then Failure(Invalid("flavor_name"))
    else if input.additionalPrice.GetOr(0) < 0 then Failure(Invalid("additional_price"))
    else Success(FlavorBody(PyStrip(input.name), input.additionalPrice.GetOr(0), input.isAvail))
  }

  /** Stripping a name that is not blank leaves one that is not blank and
      that stripping again does not change. */
  lemma StrippedName(s: string)
    requires !Blank(s)
    ensures !Blank(PyStrip(s)) && PyStrip(PyStrip(s)) == PyStrip(s)
  {
    BlankIsStripEmpty(s);
    TrimIdempotent(s, IsPySpace);
    BlankIsStripEmpty(PyStrip(s));
  }

  /** The unique constraint on flavors.flavor_name. */
  predicate FlavorNamesUnique(flavors: Flavors) {
    forall a, b :: a in flavors && b in flavors && a != b ==> flavors[a].name != flavors[b].name
  }

  /** Some flavor other than `except` already has this name. */
  predicate FlavorNameTaken(flavors: Flavors, name: string, except: Option<string>) {
    exists id | id in flavors :: flavors[id].name == name && Some(id) != except
  }

  /** create_flavor's own checks on the validated body. */
  function CreateFlavorHandler(flavors: Flavors, newId: string, body: FlavorBody): Result<Flavors, ApiError>
    requires newId !in flavors
  {
    if Blank(body.name) then Failure(ApiError(BadRequest, BlankFlavorName))
    else if body.additionalPrice < 0 then Failure(ApiError(BadRequest, NegativeAdditionalPrice))
    else
      var name := PyStrip(body.name);
      if FlavorNameTaken(flavors, name, None) then Failure(ApiError(BadRequest, FlavorNameExists))
      else Success(flavors[newId := Flavor(name, body.additionalPrice, body.isAvail)])
  }

  /** POST /flavors: the body is validated, then create_flavor runs;
      `newId` is the fresh identifier generate_id draws. */
  function CreateFlavor(flavors: Flavors, newId: string, input: FlavorInput): Result<Flavors, ApiError>
    requires newId !in flavors
  {
    match ValidateFlavor(input)
    case Failure(e) => Failure(e)
    case Success(body) => CreateFlavorHandler(flavors, newId, body)
  }

  /** A flavor is created exactly when its name is not blank, its price (0
      when absent or null) is not negative and no flavor has the stripped
      name; it is then added under the new id and nothing else changes. A
      blank name or a negative price is refused by validation, so the
      handler's own tests for them never fire. */
  lemma CreateFlavorSpec(flavors: Flavors, newId: string, input: FlavorInput)
    requires newId !in flavors
    ensures CreateFlavor(flavors, newId, input).Success? <==>
      !Blank(input.name) && input.additionalPrice.GetOr(0) >= 0
      && forall id :: id in flavors ==> flavors[id].name != PyStrip(input.name)
    ensures Blank(input.name) ==> CreateFlavor(flavors, newId, input) == Failure(Invalid("flavor_name"))
    ensures !Blank(input.name) && input.additionalPrice.GetOr(0) < 0 ==>
      CreateFlavor(flavors, newId, input) == Failure(Invalid("additional_price"))
    ensures CreateFlavor(flavors, newId, input).Failure? ==>
      CreateFlavor(flavors, newId, input).error.reason !in {BlankFlavorName, NegativeAdditionalPrice}
    ensures CreateFlavor(flavors, newId, input).Success? ==>
      var r := CreateFlavor(flavors, newId, input).value;
      r.Keys == flavors.Keys + {newId}
      && r[newId] == Flavor(PyStrip(input.name), input.additionalPrice.GetOr(0), input.isAvail)
      && forall id :: id in flavors ==> r[id] == flavors[id]
  {
    if !Blank(input.name) {
      StrippedName(input.name);
    }
  }

  /** Creating a flavor keeps flavor names unique. */
  lemma CreateFlavorKeepsNamesUnique(flavors: Flavors, newId: string, input: FlavorInput)
    requires newId !in flavors && FlavorNamesUnique(flavors)
    requires CreateFlavor(flavors, newId, input).Success?
    ensures FlavorNamesUnique(CreateFlavor(flavors, newId, input).value)
  {
    var r := CreateFlavor(flavors, newId, input).value;
    forall a, b | a in r && b in r && a != b ensures r[a].name != r[b].name {
      if a == newId {
        assert r[b] == flavors[b];
      } else if b == newId {
        assert r[a] == flavors[a];
      }
    }
  }

  /** update_flavor_item's own checks on the validated body. Its test for a
      missing price never holds: validation has made the price a number. */
  function UpdateFlavorHandler(flavors: Flavors, id: string, body: FlavorBody): Result<Flavors, ApiError> {
    if id !in flavors then Failure(ApiError(NotFound, FlavorNotFound))
    else if Blank(body.name) then Failure(ApiError(BadRequest, BlankFlavorName))
    else if body.additionalPrice < 0 then Failure(ApiError(BadRequest, NegativeAdditionalPrice))
    else
      var name := PyStrip(body.name);
      if FlavorNameTaken(flavors, name, Some(id)) then Failure(ApiError(BadRequest, FlavorNameExists))
      else Success(flavors[id := Flavor(name, body.additionalPrice, body.isAvail)])
  }

  /** PUT /flavors/{id}: the FlavorCreate body is validated, then
      update_flavor_item runs. */
  function UpdateFlavor(flavors: Flavors, id: string, input: FlavorInput): Result<Flavors, ApiError> {
    match ValidateFlavor(input)
    case Failure(e) => Failure(e)
    case Success(body) => UpdateFlavorHandler(flavors, id, body)
  }

  /** An invalid body is refused before the flavor is looked up; a valid
      one for an unknown flavor is a 404. A flavor may keep its own name,
      but not take one another flavor has; a missing or null price is
      stored as 0; a successful update changes that flavor only. */
  lemma UpdateFlavorSpec(flavors: Flavors, id: string, input: FlavorInput)
    ensures Blank(input.name) ==> UpdateFlavor(flavors, id, input) == Failure(Invalid("flavor_name"))
    ensures !Blank(input.name) && input.additionalPrice.GetOr(0) < 0 ==>
      UpdateFlavor(flavors, id, input) == Failure(Invalid("additional_price"))
    ensures id !in flavors && !Blank(input.name) && input.additionalPrice.GetOr(0) >= 0 ==>
      UpdateFlavor(flavors, id, input) == Failure(ApiError(NotFound, FlavorNotFound))
    ensures UpdateFlavor(flavors, id, input).Success? <==>
      id in flavors && !Blank(input.name) && input.additionalPrice.GetOr(0) >= 0
      && forall other :: other in flavors && other != id ==> flavors[other].name != PyStrip(input.name)
    ensures UpdateFlavor(flavors, id, input).Success? ==>
      var r := UpdateFlavor(flavors, id, input).value;
      r.Keys == flavors.Keys
      && r[id] == Flavor(PyStrip(input.name), input.additionalPrice.GetOr(0), input.isAvail)
      && forall other :: other in flavors && other != id ==> r[other] == flavors[other]
  {
    if !Blank(input.name) {
      StrippedName(input.name);
    }
  }

  /** Updating a flavor keeps flavor names unique. */
  lemma UpdateFlavorKeepsNamesUnique(flavors: Flavors, id: string, input: FlavorInput)
    requires FlavorNamesUnique(flavors)
    requires UpdateFlavor(flavors, id, input).Success?
    ensures FlavorNamesUnique(UpdateFlavor(flavors, id, input).value)
  {
    var r := UpdateFlavor(flavors, id, input).value;
    forall a, b | a in r && b in r && a != b ensures r[a].name != r[b].name {
      if a == id {
        assert r[b] == flavors[b];
      } else if b == id {
        assert r[a] == flavors[a];
      }
    }
  }
  // ---------------------------------------------------------------------
  // Menu items and the menu-flavor association
  // ---------------------------------------------------------------------

  datatype MenuItem = MenuItem(baseName: string, basePrice: int, isAvail: bool, makingTimeMinutes: real)
  type Menus = map<string, MenuItem>

  /** A row of menu_item_flavor_association. */
  datatype Link = Link(menuId: string, flavorId: string)

  /** Every association row joins an existing menu and an existing flavor. */
  predicate LinksValid(menus: Menus, flavors: Flavors, links: set<Link>) {
    forall l :: l in links ==> l.menuId in menus && l.flavorId in flavors
  }

  predicate MenuNamesUnique(menus: Menus) {
    forall a, b :: a in menus && b in menus && a != b ==> menus[a].baseName != menus[b].baseName
  }

  /** Some menu uses the flavor: MenuItem.flavors.any(id=flavor_id). */
  predicate FlavorInUse(menus: Menus, links: set<Link>, id: string) {
    exists l | l in links :: l.flavorId == id && l.menuId in menus
  }

  /** DELETE /flavors/{id}: refused while a menu uses the flavor; otherwise
      its association rows and the flavor itself go. */
  function DeleteFlavor(flavors: Flavors, menus: Menus, links: set<Link>, id: string)
    : Result<(Flavors, set<Link>), ApiError>
  {
    if id !in flavors then Failure(ApiError(NotFound, FlavorNotFound))
    else if FlavorInUse(menus, links, id) then
      Failure(ApiError(BadRequest, FlavorStillUsed))
    else Success((flavors - {id}, set l | l in links && l.flavorId != id))
  }

  /** Deleting a flavor fails, changing nothing, for an unknown flavor or one
      a menu uses; otherwise it removes that flavor and its association rows
      only, so the association stays valid. */
  lemma DeleteFlavorSpec(flavors: Flavors, menus: Menus, links: set<Link>, id: string)
    ensures DeleteFlavor(flavors, menus, links, id).Success? <==>
      id in flavors && forall l :: l in links && l.flavorId == id ==> l.menuId !in menus
    ensures DeleteFlavor(flavors, menus, links, id).Success? ==>
      var (f, ls) := DeleteFlavor(flavors, menus, links, id).value;
      f.Keys == flavors.Keys - {id} && (forall k :: k in f ==> f[k] == flavors[k])
      && (forall l :: l in ls <==> l in links && l.flavorId != id)
    ensures LinksValid(menus, flavors, links) && DeleteFlavor(flavors, menus, links, id).Success? ==>
      LinksValid(menus, DeleteFlavor(flavors, menus, links, id).value.0, DeleteFlavor(flavors, menus, links, id).value.1)
  {
  }

  /** A MenuItemCreate body as sent; `basePrice` None is a missing or null
      field, and a missing making time is the default 0. */
  datatype MenuInput = MenuInput(baseName: string, basePrice: Option<int>, isAvail: bool,
                                 makingTimeMinutes: real, flavorIds: seq<string>)

  /** A MenuItemCreate body after validation. */
  datatype MenuBody = MenuBody(baseName: string, basePrice: int, isAvail: bool,
                               makingTimeMinutes: real, flavorIds: seq<string>)

  /** The MenuItemCreate model, field by field in declaration order: a blank
      name (`min_length=1` and its validator, which strips it), a missing,
      null or non-positive price (`gt=0`), a negative making time (`ge=0`)
      and a blank flavor id (its validator) are refused. */
  function ValidateMenu(input: MenuInput): Result<MenuBody, ApiError> {
    if Blank(input.baseName) then Failure(Invalid("base_name"))
    else if input.basePrice.None? || input.basePrice.value <= 0 then Failure(Invalid("base_price"))
    else if input.makingTimeMinutes < 0.0 then Failure(Invalid("making_time_minutes"))
    else if exists f | f in input.flavorIds :: Blank(f) then Failure(Invalid("flavor_ids"))
    else Success(MenuBody(PyStrip(input.baseName), input.basePrice.value, input.isAvail,
                          input.makingTimeMinutes, input.flavorIds))
  }

  /** len(flavors) in create_menu_item: how many distinct flavor rows
      `Flavor.id.in_(flavor_ids)` finds. */
  function FoundFlavorCount(flavors: Flavors, ids: seq<string>): nat {
    |set f | f in ids && f in flavors|
  }

  predicate MenuNameTaken(menus: Menus, name: string) {
    exists id | id in menus :: menus[id].baseName == name
  }

  /** The checks create_menu_item makes on the validated body before the
      flavor lookup. */
  function MenuHandlerError(menus: Menus, body: MenuBody): Option<ApiError> {
    if Blank(body.baseName) then Some(ApiError(BadRequest, BlankMenuName))
    else if body.basePrice <= 0 then Some(ApiError(BadRequest, NonPositivePrice))
    else if exists f | f in body.flavorIds :: Blank(f) then Some(ApiError(BadRequest, BlankFlavorId))
    else if MenuNameTaken(menus, PyStrip(body.baseName)) then Some(ApiError(BadRequest, MenuNameExists))
    else None
  }

  /** The new menu row and its association rows; the row is built without a
      making time, so the column default 0 is stored. */
  function AddMenu(menus: Menus, links: set<Link>, newId: string, body: MenuBody): (Menus, set<Link>) {
    (menus[newId := MenuItem(PyStrip(body.baseName), body.basePrice, body.isAvail, 0.0)],
     links + set f | f in body.flavorIds :: Link(newId, f))
  }

  /** POST /menu, as written: the body is validated, then create_menu_item
      accepts the flavor lookup only when the number of distinct rows found
      equals the number of ids sent. */
  function CreateMenuItem(menus: Menus, flavors: Flavors, links: set<Link>, newId: string, input: MenuInput)
    : Result<(Menus, set<Link>), ApiError>
    requires newId !in menus
  {
    match ValidateMenu(input)
    case Failure(e) => Failure(e)
    case Success(body) =>
      match MenuHandlerError(menus, body)
      case Some(e) => Failure(e)
      case None =>
        if body.flavorIds != [] && FoundFlavorCount(flavors, body.flavorIds) != |body.flavorIds| then
          Failure(ApiError(NotFound, UnknownFlavorId))
        else Success(AddMenu(menus, links, newId, body))
  }

  /** POST /menu with the flavor check it evidently intends: every id sent
      names an existing flavor. */
  function CreateMenuItemCorrected(menus: Menus, flavors: Flavors, links: set<Link>, newId: string, input: MenuInput)
    : Result<(Menus, set<Link>), ApiError>
    requires newId !in menus
  {
    match ValidateMenu(input)
    case Failure(e) => Failure(e)
    case Success(body) =>
      match MenuHandlerError(menus, body)
      case Some(e) => Failure(e)
      case None =>
        if exists f | f in body.flavorIds :: f !in flavors then Failure(ApiError(NotFound, UnknownFlavorId))
        else Success(AddMenu(menus, links, newId, body))
  }
  predicate Distinct(s: seq<string>) {
    forall i, j :: 0 <= i < j < |s| ==> s[i] != s[j]
  }

  /** Appending an element keeps a sequence free of repeats exactly when the
      prefix has none and does not hold it. */
  lemma DistinctSnoc(t: seq<string>, last: string)
    ensures Distinct(t + [last]) <==> Distinct(t) && last !in t
  {
    var s := t + [last];
    if Distinct(s) {
      forall i, j | 0 <= i < j < |t| ensures t[i] != t[j] {
        assert s[i] == t[i] && s[j] == t[j];
      }
      forall k | 0 <= k < |t| ensures t[k] != last {
        assert s[k] == t[k] && s[|t|] == last;
      }
    }
    if Distinct(t) && last !in t {
      forall i, j | 0 <= i < j < |s| ensures s[i] != s[j] {
        if j == |t| {
          assert s[i] == t[i];
        } else {
          assert s[i] == t[i] && s[j] == t[j];
        }
      }
    }
  }

  /** A sequence has at most as many distinct elements as entries, and
      exactly as many when no entry repeats. */
  lemma {:induction false} ElementsCard(s: seq<string>)
    ensures |set x | x in s| <= |s|
    ensures |set x | x in s| == |s| <==> Distinct(s)
    decreases |s|
  {
    if s != [] {
      var t := s[..|s| - 1];
      var last := s[|s| - 1];
      ElementsCard(t);
      assert s == t + [last];
      DistinctSnoc(t, last);
      var es := set x | x in s;
      var et := set x | x in t;
      if last in t {
        assert es == et;
      } else {
        assert es == et + {last};
      }
    }
  }

  /** The as-written flavor check passes exactly when every id sent is an
      existing flavor and no id is sent twice. */
  lemma FlavorCountCheck(flavors: Flavors, ids: seq<string>)
    ensures FoundFlavorCount(flavors, ids) == |ids| <==> (forall f :: f in ids ==> f in flavors) && Distinct(ids)
  {
    ElementsCard(ids);
    var found := set f | f in ids && f in flavors;
    var all := set x | x in ids;
    assert found <= all;
    if exists f :: f in ids && f !in flavors {
      var f :| f in ids && f !in flavors;
      MissingMakesSmaller(found, all, f);
    } else {
      assert found == all;
    }
  }

  lemma MissingMakesSmaller(small: set<string>, large: set<string>, x: string)
    requires small <= large && x in large && x !in small
    ensures |small| < |large|
  {
    var rest := large - small;
    assert large == small + rest && small * rest == {};
    assert x in rest;
  }

  /** A validated menu body passes create_menu_item's own blank and price
      tests, so those never fire. */
  lemma ValidMenuBody(input: MenuInput)
    requires ValidateMenu(input).Success?
    ensures var body := ValidateMenu(input).value;
      !Blank(body.baseName) && PyStrip(body.baseName) == PyStrip(input.baseName) && body.basePrice > 0
      && !(exists f | f in body.flavorIds :: Blank(f)) && body.flavorIds == input.flavorIds
  {
    StrippedName(input.baseName);
  }

  /** As written, a menu is created exactly when the body is valid, no menu
      has its stripped name, and the flavor ids sent are existing flavors
      with none repeated; it is stored with that name and its price. The
      handler's own blank and price refusals are never reached. */
  lemma CreateMenuItemAccepts(menus: Menus, flavors: Flavors, links: set<Link>, newId: string, input: MenuInput)
    requires newId !in menus
    ensures CreateMenuItem(menus, flavors, links, newId, input).Success? <==>
      ValidateMenu(input).Success? && !MenuNameTaken(menus, PyStrip(input.baseName))
      && (forall f :: f in input.flavorIds ==> f in flavors) && Distinct(input.flavorIds)
    ensures CreateMenuItem(menus, flavors, links, newId, input).Failure? ==>
      CreateMenuItem(menus, flavors, links, newId, input).error.reason !in {BlankMenuName, NonPositivePrice, BlankFlavorId}
    ensures CreateMenuItem(menus, flavors, links, newId, input).Success? ==>
      CreateMenuItem(menus, flavors, links, newId, input).value.0[newId]
      == MenuItem(PyStrip(input.baseName), input.basePrice.value, input.isAvail, 0.0)
  {
    if ValidateMenu(input).Success? {
      ValidMenuBody(input);
      FlavorCountCheck(flavors, input.flavorIds);
    }
  }

  /** The corrected creation succeeds exactly when the body is valid, no
      menu has its stripped name and every flavor id exists, repeats
      allowed. */
  lemma CreateMenuItemCorrectedAccepts(menus: Menus, flavors: Flavors, links: set<Link>, newId: string, input: MenuInput)
    requires newId !in menus
    ensures CreateMenuItemCorrected(menus, flavors, links, newId, input).Success? <==>
      ValidateMenu(input).Success? && !MenuNameTaken(menus, PyStrip(input.baseName))
      && forall f :: f in input.flavorIds ==> f in flavors
  {
    if ValidateMenu(input).Success? {
      ValidMenuBody(input);
    }
  }

  /** A created menu is stored with its stripped name, a positive price and
      a making time of 0, and linked to exactly the flavors sent; nothing
      else changes. */
  lemma AddMenuEffect(menus: Menus, links: set<Link>, newId: string, body: MenuBody)
    requires newId !in menus && MenuHandlerError(menus, body).None?
    ensures var (m, ls) := AddMenu(menus, links, newId, body);
      m.Keys == menus.Keys + {newId} && m[newId].baseName == PyStrip(body.baseName)
      && m[newId].basePrice > 0 && m[newId].makingTimeMinutes == 0.0
      && (forall k :: k in menus ==> m[k] == menus[k])
      && (forall f :: Link(newId, f) in ls <==> f in body.flavorIds || Link(newId, f) in links)
      && links <= ls
  {
  }

  /** Adding a menu that passed the checks keeps menu names unique. */
  lemma AddMenuKeepsNamesUnique(menus: Menus, links: set<Link>, newId: string, body: MenuBody)
    requires newId !in menus && MenuHandlerError(menus, body).None?
    requires MenuNamesUnique(menus)
    ensures MenuNamesUnique(AddMenu(menus, links, newId, body).0)
  {
    var m := AddMenu(menus, links, newId, body).0;
    assert !MenuNameTaken(menus, PyStrip(body.baseName));
    forall a, b | a in m && b in m && a != b ensures m[a].baseName != m[b].baseName {
      if a == newId {
        assert m[b] == menus[b];
      } else if b == newId {
        assert m[a] == menus[a];
      }
    }
  }

  /** A menu created as written links only existing flavors, so the
      association stays valid. */
  lemma CreateMenuItemKeepsLinksValid(menus: Menus, flavors: Flavors, links: set<Link>, newId: string, input: MenuInput)
    requires newId !in menus && LinksValid(menus, flavors, links)
    requires CreateMenuItem(menus, flavors, links, newId, input).Success?
    ensures var (m, ls) := CreateMenuItem(menus, flavors, links, newId, input).value;
      LinksValid(m, flavors, ls)
  {
    CreateMenuItemAccepts(menus, flavors, links, newId, input);
    ValidMenuBody(input);
    var (m, ls) := CreateMenuItem(menus, flavors, links, newId, input).value;
    forall l | l in ls ensures l.menuId in m && l.flavorId in flavors {
      if l !in links {
        var f :| f in input.flavorIds && l == Link(newId, f);
      }
    }
  }

  /** As written, a request naming the same existing flavor twice is
      rejected with a 404 although every flavor it names exists; the
      corrected check accepts it. */
  lemma RepeatedFlavorIdRejected()
    ensures var flavors := map["FLAV01" := Flavor("Vanilla", 0, true)];
      var input := MenuInput("Kopi", Some(15000), true, 0.0, ["FLAV01", "FLAV01"]);
      CreateMenuItem(map[], flavors, {}, "MENU01", input).Failure?
      && CreateMenuItem(map[], flavors, {}, "MENU01", input).error.status == NotFound
      && CreateMenuItemCorrected(map[], flavors, {}, "MENU01", input).Success?
  {
    var flavors := map["FLAV01" := Flavor("Vanilla", 0, true)];
    var ids := ["FLAV01", "FLAV01"];
    var input := MenuInput("Kopi", Some(15000), true, 0.0, ids);
    var empty: Menus := map[];
    InputAccepted(empty, input);
    assert !Distinct(ids) by { assert ids[0] == ids[1]; }
    FlavorCountCheck(flavors, ids);
    assert forall f :: f in ids ==> f in flavors;
  }

  /** The example request passes validation and every check before the
      flavor lookup. */
  lemma InputAccepted(empty: Menus, input: MenuInput)
    requires empty == map[] && input == MenuInput("Kopi", Some(15000), true, 0.0, ["FLAV01", "FLAV01"])
    ensures ValidateMenu(input).Success? && MenuHandlerError(empty, ValidateMenu(input).value).None?
  {
    NotBlank("Kopi");
    NotBlank("FLAV01");
    assert forall f :: f in input.flavorIds ==> f == "FLAV01";
    assert !(exists f | f in input.flavorIds :: Blank(f));
    ValidMenuBody(input);
    assert !MenuNameTaken(empty, PyStrip(ValidateMenu(input).value.baseName));
  }

  lemma NotBlank(w: string)
    requires w != [] && !IsPySpace(w[0])
    ensures !Blank(w)
  {
  }
  // ---------------------------------------------------------------------
  // Menu suggestions
  // ---------------------------------------------------------------------

  datatype MenuSuggestion = MenuSuggestion(usulanId: string, menuName: string, customerName: string)

  datatype SuggestProblem = BlankSuggestedMenu | BlankCustomerName

  /** What POST /menu_suggestion reports: a body refused by validation, the
      handler's own error status, "duplicate" or "success". */
  datatype SuggestStatus = Refused(error: ApiError) | SuggestError(problem: SuggestProblem) | Duplicate | Added

  predicate SuggestedAlready(suggestions: seq<MenuSuggestion>, name: string) {
    exists i | 0 <= i < |suggestions| :: suggestions[i].menuName == name
  }

  /** The SuggestionItem model: both names must not be blank, and each
      comes out stripped. */
  function ValidateSuggestion(menuName: string, customerName: string): Result<(string, string), ApiError> {
    if Blank(menuName) then Failure(Invalid("menu_name"))
    else if Blank(customerName) then Failure(Invalid("customer_name"))
    else Success((PyStrip(menuName), PyStrip(customerName)))
  }

  /** suggest_menu's own checks on the validated names. */
  function SuggestHandler(menus: Menus, suggestions: seq<MenuSuggestion>, newId: string,
                          menuName: string, customerName: string): (SuggestStatus, seq<MenuSuggestion>)
  {
    if Blank(menuName) then (SuggestError(BlankSuggestedMenu), suggestions)
    else if Blank(customerName) then (SuggestError(BlankCustomerName), suggestions)
    else
      var name := PyStrip(menuName);
      if MenuNameTaken(menus, name) || SuggestedAlready(suggestions, name) then (Duplicate, suggestions)
      else (Added, suggestions + [MenuSuggestion(newId, name, PyStrip(customerName))])
  }

  /** POST /menu_suggestion: the status it reports and the suggestions table after it. */
  function SuggestMenu(menus: Menus, suggestions: seq<MenuSuggestion>, newId: string,
                       menuName: string, customerName: string): (SuggestStatus, seq<MenuSuggestion>)
  {
    match ValidateSuggestion(menuName, customerName)
    case Failure(e) => (Refused(e), suggestions)
    case Success((m, c)) => SuggestHandler(menus, suggestions, newId, m, c)
  }

  predicate SuggestionNamesDistinct(suggestions: seq<MenuSuggestion>) {
    forall i, j :: 0 <= i < j < |suggestions| ==> suggestions[i].menuName != suggestions[j].menuName
  }

  /** A blank name is refused by validation, so the handler's own blank
      tests never fire; a suggestion whose stripped name is already a menu
      or a suggestion is reported as a duplicate and inserts nothing; an
      accepted one is appended with both names stripped; suggested names
      stay distinct. */
  lemma SuggestMenuSpec(menus: Menus, suggestions: seq<MenuSuggestion>, newId: string, menuName: string, customerName: string)
    ensures var (status, after) := SuggestMenu(menus, suggestions, newId, menuName, customerName);
      (status != Added <==> after == suggestions)
      && (Blank(menuName) ==> status == Refused(Invalid("menu_name")))
      && (!Blank(menuName) && Blank(customerName) ==> status == Refused(Invalid("customer_name")))
      && !status.SuggestError?
      && (status == Duplicate <==>
            (!Blank(menuName) && !Blank(customerName)
             && (MenuNameTaken(menus, PyStrip(menuName)) || SuggestedAlready(suggestions, PyStrip(menuName)))))
      && (status == Added ==> after == suggestions + [MenuSuggestion(newId, PyStrip(menuName), PyStrip(customerName))])
      && (SuggestionNamesDistinct(suggestions) ==> SuggestionNamesDistinct(after))
  {
    if !Blank(menuName) && !Blank(customerName) {
      StrippedName(menuName);
      StrippedName(customerName);
    }
    var (status, after) := SuggestMenu(menus, suggestions, newId, menuName, customerName);
    if status == Added {
      assert |after| == |suggestions| + 1;
    }
  }
  // ---------------------------------------------------------------------
  // The synced copy of the inventory's ingredients
  // ---------------------------------------------------------------------

  datatype SyncedIngredient = SyncedIngredient(
    name: string, currentQuantity: real, minimumQuantity: real, category: string, unit: string)
  type Synced = map<int, SyncedIngredient>

  /** The JSON body of an ingredient event; None is a key that is absent. */
  datatype IngredientEvent = IngredientEvent(
    id: Option<int>, name: Option<string>, currentQuantity: Option<real>, minimumQuantity: Option<real>,
    category: Option<string>, unit: Option<string>)

  predicate Complete(ev: IngredientEvent) {
    ev.id.Some? && ev.name.Some? && ev.currentQuantity.Some? && ev.minimumQuantity.Some?
    && ev.category.Some? && ev.unit.Some?
  }

  /** POST /receive_ingredient_event: insert, or overwrite when the id exists. */
  function ReceiveIngredient(synced: Synced, ev: IngredientEvent): Result<Synced, ApiError> {
    if !Complete(ev) then Failure(ApiError(BadRequest, IncompleteIngredient))
    else Success(synced[ev.id.value := SyncedIngredient(ev.name.value, ev.currentQuantity.value,
                                                         ev.minimumQuantity.value, ev.category.value, ev.unit.value)])
  }

  /** Receiving the same event twice leaves the table as receiving it once,
      and the row afterwards carries exactly the event's fields. */
  lemma ReceiveIngredientIdempotent(synced: Synced, ev: IngredientEvent)
    ensures ReceiveIngredient(synced, ev).Success? <==> Complete(ev)
    ensures ReceiveIngredient(synced, ev).Success? ==>
      var once := ReceiveIngredient(synced, ev).value;
      ReceiveIngredient(once, ev) == Success(once)
      && once[ev.id.value].name == ev.name.value && once[ev.id.value].unit == ev.unit.value
      && forall id :: id in synced && id != ev.id.value ==> id in once && once[id] == synced[id]
  {
    if Complete(ev) {
      var once := ReceiveIngredient(synced, ev).value;
      var twice := ReceiveIngredient(once, ev).value;
      assert twice == once;
    }
  }

  /** The fields present in the event overwrite the row's; the rest stay. */
  function MergeFields(row: SyncedIngredient, ev: IngredientEvent): SyncedIngredient {
    SyncedIngredient(ev.name.GetOr(row.name), ev.currentQuantity.GetOr(row.currentQuantity),
                     ev.minimumQuantity.GetOr(row.minimumQuantity), ev.category.GetOr(row.category),
                     ev.unit.GetOr(row.unit))
  }

  /** PUT /update_ingredient_event. */
  function UpdateIngredient(synced: Synced, ev: IngredientEvent): Result<Synced, ApiError> {
    if ev.id.None? then Failure(ApiError(BadRequest, MissingIngredientId))
    else if ev.id.value !in synced then Failure(ApiError(NotFound, IngredientNotFound))
    else Success(synced[ev.id.value := MergeFields(synced[ev.id.value], ev)])
  }

  /** An update needs an id already present; it changes only the fields the
      event carries, on that row only, and repeating it changes nothing. */
  lemma UpdateIngredientSpec(synced: Synced, ev: IngredientEvent)
    ensures UpdateIngredient(synced, ev).Success? <==> ev.id.Some? && ev.id.value in synced
    ensures UpdateIngredient(synced, ev).Success? ==>
      var r := UpdateIngredient(synced, ev).value;
      var old_ := synced[ev.id.value];
      var new_ := r[ev.id.value];
      r.Keys == synced.Keys
      && (forall id :: id in synced && id != ev.id.value ==> r[id] == synced[id])
      && (ev.name.None? ==> new_.name == old_.name) && (ev.name.Some? ==> new_.name == ev.name.value)
      && (ev.currentQuantity.None? ==> new_.currentQuantity == old_.currentQuantity)
      && (ev.minimumQuantity.None? ==> new_.minimumQuantity == old_.minimumQuantity)
      && (ev.category.None? ==> new_.category == old_.category)
      && (ev.unit.None? ==> new_.unit == old_.unit)
      && UpdateIngredient(r, ev) == Success(r)
  {
    if UpdateIngredient(synced, ev).Success? {
      var r := UpdateIngredient(synced, ev).value;
      var again := UpdateIngredient(r, ev).value;
      assert again == r;
    }
  }

  datatype DeleteStatus = Deleted | AlreadyGone

  /** DELETE /delete_ingredient_event/{id}: a missing id counts as deleted. */
  function DeleteIngredient(synced: Synced, id: int): (DeleteStatus, Synced) {
    if id !in synced then (AlreadyGone, synced) else (Deleted, synced - {id})
  }

  /** Deleting removes that row only and deleting again changes nothing. */
  lemma DeleteIngredientIdempotent(synced: Synced, id: int)
    ensures var (_, once) := DeleteIngredient(synced, id);
      id !in once && (forall k :: k in synced && k != id ==> k in once && once[k] == synced[k])
      && once.Keys <= synced.Keys
      && DeleteIngredient(once, id) == (AlreadyGone, once)
  {
  }

  // ---------------------------------------------------------------------
  // The batch recipe lookup
  // ---------------------------------------------------------------------

  /** A recipe_ingredients row. */
  datatype RecipeRow = RecipeRow(menuItemId: string, ingredientId: int, quantity: real, unit: string)

  /** One entry of the answer: {ingredient_id, quantity, unit}. */
  datatype RecipeEntry = RecipeEntry(ingredientId: int, quantity: real, unit: string)

  /** The "menu_names" field of the request body. */
  datatype MenuNamesField = Absent | NotAList | Names(names: seq<string>)

  function EntryOf(r: RecipeRow): RecipeEntry {
    RecipeEntry(r.ingredientId, r.quantity, r.unit)
  }

  /** The entries of the rows that belong to one of the given menus, in row order. */
  function EntriesFor(rows: seq<RecipeRow>, ids: set<string>): (r: seq<RecipeEntry>)
    ensures |r| <= |rows|
    ensures forall e :: e in r <==> exists row :: row in rows && row.menuItemId in ids && e == EntryOf(row)
    decreases |rows|
  {
    if rows == [] then []
    else
      var rest := EntriesFor(rows[..|rows| - 1], ids);
      var last := rows[|rows| - 1];
      assert forall row :: row in rows <==> row in rows[..|rows| - 1] || row == last by {
        assert rows == rows[..|rows| - 1] + [last];
      }
      if last.menuItemId in ids then rest + [EntryOf(last)] else rest
  }

  function MenuIdsNamed(menus: Menus, name: string): set<string> {
    set id | id in menus && menus[id].baseName == name
  }

  /** POST /recipes/batch. */
  function RecipesBatch(menus: Menus, rows: seq<RecipeRow>, field: MenuNamesField)
    : Result<map<string, seq<RecipeEntry>>, ApiError>
  {
    match field
    case NotAList => Failure(ApiError(BadRequest, BadMenuNames))
    case Absent => Failure(ApiError(BadRequest, BadMenuNames))
    case Names(names) =>
      if names == [] then Failure(ApiError(BadRequest, BadMenuNames))
      else Success(map name | name in names :: EntriesFor(rows, MenuIdsNamed(menus, name)))
  }

  /** The lookup rejects a missing, non-list or empty menu_names; otherwise
      every requested name is a key, an unknown menu maps to [], and a known
      menu maps to the entries of exactly its recipe rows. */
  lemma RecipesBatchSpec(menus: Menus, rows: seq<RecipeRow>, field: MenuNamesField)
    ensures RecipesBatch(menus, rows, field).Success? <==> field.Names? && field.names != []
    ensures RecipesBatch(menus, rows, field).Success? ==>
      var m := RecipesBatch(menus, rows, field).value;
      (forall name :: name in m <==> name in field.names)
      && (forall name :: name in field.names && !MenuNameTaken(menus, name) ==> m[name] == [])
      && (forall name, e :: name in field.names ==>
            (e in m[name] <==> exists row :: row in rows && row.menuItemId in menus
                                 && menus[row.menuItemId].baseName == name && e == EntryOf(row)))
  {
    if RecipesBatch(menus, rows, field).Success? {
      var m := RecipesBatch(menus, rows, field).value;
      forall name | name in field.names && !MenuNameTaken(menus, name) ensures m[name] == [] {
        assert MenuIdsNamed(menus, name) == {};
        EntriesForNone(rows);
      }
    }
  }

  lemma {:induction false} EntriesForNone(rows: seq<RecipeRow>)
    ensures EntriesFor(rows, {}) == []
    decreases |rows|
  {
    if rows != [] {
      EntriesForNone(rows[..|rows| - 1]);
    }
  }
}
