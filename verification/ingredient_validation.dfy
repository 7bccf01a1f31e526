/** Validation of the body of POST /add_ingredient and PUT /update_ingredient
    (the ValidateIngredientRequest model): each field is checked on its own
    and all field errors are reported together; the cross-field quantity
    checks run only when every field passed, and stop at the first failure. */
module IngredientValidation {
  import opened Wrappers
  import opened Text

  datatype Category = IngredientCategory | Packaging
  datatype Unit = Gram | Milliliter | Piece

  datatype IngredientInput = IngredientInput(
    name: string, currentQuantity: real, minimumQuantity: real, category: string, unit: string)

  datatype Ingredient = Ingredient(
    name: string, currentQuantity: real, minimumQuantity: real, category: Category, unit: Unit)

  datatype ValidationError =
    | BlankName          // "Nama bahan tidak boleh kosong"
    | UnknownCategory
    | UnknownUnit
    | NegativeQuantity   // "Jumlah tidak boleh negatif"
    | BelowMinimum       // "Current quantity tidak boleh kurang dari minimum"

  /** The `before` validator on category and unit: lower-case, then strip. */
  function Normalize(v: string): string {
    PyStrip(Lower(v))
  }

  function ParseCategory(v: string): (r: Option<Category>)
    ensures r.Some? <==> Normalize(v) in {"ingredient", "packaging"}
  {
    var n := Normalize(v);
    if n == "ingredient" then Some(IngredientCategory)
    else if n == "packaging" then Some(Packaging)
    else None
  }

  function ParseUnit(v: string): (r: Option<Unit>)
    ensures r.Some? <==> Normalize(v) in {"gram", "milliliter", "piece"}
  {
    var n := Normalize(v);
    if n == "gram" then Some(Gram)
    else if n == "milliliter" then Some(Milliliter)
    else if n == "piece" then Some(Piece)
    else None
  }

  /** The field errors, in field order. */
  function FieldErrors(input: IngredientInput): seq<ValidationError> {
    (if PyStrip(input.name) == "" then [BlankName] else [])
    + (if ParseCategory(input.category).None? then [UnknownCategory] else [])
    + (if ParseUnit(input.unit).None? then [UnknownUnit] else [])
  }

  /** The request model as pydantic builds it. */
  function Validate(input: IngredientInput): Result<Ingredient, seq<ValidationError>> {
    var errors := FieldErrors(input);
    if errors != [] then Failure(errors)
    else if input.currentQuantity < 0.0 || input.minimumQuantity < 0.0 then Failure([NegativeQuantity])
    else if input.currentQuantity < input.minimumQuantity then Failure([BelowMinimum])
    else Success(Ingredient(PyStrip(input.name), input.currentQuantity, input.minimumQuantity,
                            ParseCategory(input.category).value, ParseUnit(input.unit).value))
  }

  /** An input is accepted exactly when its name is not blank, category and
      unit name known values in any letter case with surrounding spaces, both
      quantities are non-negative and the current one is at least the
      minimum; what is stored is the stripped name and the given quantities. */
  lemma ValidateAccepts(input: IngredientInput)
    ensures Validate(input).Success? <==>
      PyStrip(input.name) != ""
      && Normalize(input.category) in {"ingredient", "packaging"}
      && Normalize(input.unit) in {"gram", "milliliter", "piece"}
      && 0.0 <= input.minimumQuantity <= input.currentQuantity
    ensures Validate(input).Success? ==>
      var v := Validate(input).value;
      v.name == PyStrip(input.name) && v.currentQuantity == input.currentQuantity
      && v.minimumQuantity == input.minimumQuantity
  {
  }

  /** A rejection names exactly the failing fields when any field fails, and
      otherwise the first failing quantity rule alone. */
  lemma ValidateRejects(input: IngredientInput)
    ensures FieldErrors(input) != [] ==> Validate(input) == Failure(FieldErrors(input))
    ensures BlankName in FieldErrors(input) <==> PyStrip(input.name) == ""
    ensures FieldErrors(input) == [] && (input.currentQuantity < 0.0 || input.minimumQuantity < 0.0)
      ==> Validate(input) == Failure([NegativeQuantity])
    ensures FieldErrors(input) == [] && 0.0 <= input.currentQuantity < input.minimumQuantity
      ==> Validate(input) == Failure([BelowMinimum])
  {
  }

  /** The stored name is non-empty and starts and ends with a non-space. */
  lemma StoredNameTrimmed(input: IngredientInput)
    requires Validate(input).Success?
    ensures var n := Validate(input).value.name;
      n != "" && !IsPySpace(n[0]) && !IsPySpace(n[|n| - 1])
  {
    ValidateAccepts(input);
    TrimShape(input.name, IsPySpace);
  }

  function CategoryName(c: Category): string {
    match c
    case IngredientCategory => "ingredient"
    case Packaging => "packaging"
  }

  function UnitName(u: Unit): string {
    match u
    case Gram => "gram"
    case Milliliter => "milliliter"
    case Piece => "piece"
  }

  lemma ParseLower(v: string)
    ensures ParseCategory(Lower(v)) == ParseCategory(v)
    ensures ParseUnit(Lower(v)) == ParseUnit(v)
  {
    LowerIdempotent(v);
    assert Normalize(Lower(v)) == Normalize(v);
  }

  /** Validation sees category and unit only through what they parse to. */
  lemma ValidateSeesParsedNames(a: IngredientInput, b: IngredientInput)
    requires a.name == b.name && a.currentQuantity == b.currentQuantity && a.minimumQuantity == b.minimumQuantity
    requires ParseCategory(a.category) == ParseCategory(b.category) && ParseUnit(a.unit) == ParseUnit(b.unit)
    ensures Validate(a) == Validate(b)
  {
    assert FieldErrors(a) == FieldErrors(b);
    if FieldErrors(a) == [] {
      assert ParseCategory(a.category).Some? && ParseUnit(a.unit).Some?;
    }
  }

  /** Letter case of category and unit does not matter. */
  lemma CaseInsensitive(input: IngredientInput)
    ensures Validate(input) == Validate(input.(category := Lower(input.category), unit := Lower(input.unit)))
  {
    var lowered := input.(category := Lower(input.category), unit := Lower(input.unit));
    ParseLower(input.category);
    ParseLower(input.unit);
    ValidateSeesParsedNames(input, lowered);
  }

  /** A word already in normal form parses to the value it names. */
  lemma CategoryNameRoundTrip(c: Category)
    ensures ParseCategory(CategoryName(c)) == Some(c)
  {
    var w := CategoryName(c);
    assert Lower(w) == w;
    TrimOfTrimmed(w, IsPySpace);
    assert Normalize(w) == w;
  }

  lemma UnitNameRoundTrip(u: Unit)
    ensures ParseUnit(UnitName(u)) == Some(u)
  {
    var w := UnitName(u);
    assert Lower(w) == w;
    TrimOfTrimmed(w, IsPySpace);
    assert Normalize(w) == w;
  }

  /** Validating what was stored accepts it unchanged. */
  lemma RevalidateStored(input: IngredientInput)
    requires Validate(input).Success?
    ensures var v := Validate(input).value;
      Validate(IngredientInput(v.name, v.currentQuantity, v.minimumQuantity,
                               CategoryName(v.category), UnitName(v.unit))) == Success(v)
  {
    ValidateAccepts(input);
    StoredNameTrimmed(input);
    var v := Validate(input).value;
    TrimOfTrimmed(v.name, IsPySpace);
    CategoryNameRoundTrip(v.category);
    UnitNameRoundTrip(v.unit);
  }
}
