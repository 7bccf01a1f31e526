/** The add-order form of the kitchen board page (index.js): the regular
    and the custom item lists its buttons edit in place, and the order lines
    the form sends. */
module KitchenOrderForm {
  import opened Text

  /** A regular item: one menu, one preference. */
  datatype FormItem = FormItem(menuName: string, quantity: int, preference: string, notes: string)

  /** A custom item: one menu and any number of flavours. */
  datatype CustomItem = CustomItem(menuName: string, quantity: int, preferences: seq<string>, notes: string)

  /** An order line as posted; `telegram_id` is always "0". */
  datatype OrderLine = OrderLine(menuName: string, quantity: int, preference: string, notes: string,
                                 telegramId: string, customFlavour: bool)

  const BlankItem: FormItem := FormItem("", 1, "", "")
  const BlankCustom: CustomItem := CustomItem("", 1, [], "")

  /** A custom item's flavours: each chosen once, none of them empty. */
  predicate FlavoursDistinct(prefs: seq<string>) {
    (forall i, j :: 0 <= i < j < |prefs| ==> prefs[i] != prefs[j])
    && forall i :: 0 <= i < |prefs| ==> prefs[i] != ""
  }

  /** `orderItems.splice(idx, 1)`. */
  function Without<T>(s: seq<T>, idx: nat): (r: seq<T>)
    requires idx < |s|
    ensures |r| == |s| - 1
    ensures forall k :: 0 <= k < idx ==> r[k] == s[k]
    ensures forall k :: idx <= k < |r| ==> r[k] == s[k + 1]
  {
    s[..idx] + s[idx + 1..]
  }

  class OrderForm {
    var items: seq<FormItem>
    var customItems: seq<CustomItem>

    /** Both lists keep at least one item, every quantity is at least 1, and
        no custom item lists a flavour twice. */
    ghost predicate Valid()
      reads this
    {
      |items| >= 1 && |customItems| >= 1
      && (forall k :: 0 <= k < |items| ==> items[k].quantity >= 1)
      && (forall k :: 0 <= k < |customItems| ==> customItems[k].quantity >= 1)
      && (forall k :: 0 <= k < |customItems| ==> FlavoursDistinct(customItems[k].preferences))
    }

    constructor ()
      ensures Valid()
      ensures items == [BlankItem] && customItems == [BlankCustom]
    {
      items := [BlankItem];
      customItems := [BlankCustom];
    }

    /** closeAddOrderModal. The reset custom item has no `preferences` array;
        the render that follows gives it an empty one, as here. */
    method Reset()
      modifies this
      ensures Valid()
      ensures items == [BlankItem] && customItems == [BlankCustom]
    {
      items := [BlankItem];
      customItems := [BlankCustom];
    }

    /** The add-item button. */
    method AddItem()
      requires Valid()
      modifies this
      ensures Valid()
      ensures items == old(items) + [BlankItem] && customItems == old(customItems)
    {
      items := items + [BlankItem];
    }

    /** The remove button: the item goes, and an emptied list gets a blank
        item back. */
    method RemoveItem(idx: nat)
      requires Valid() && idx < |items|
      modifies this
      ensures Valid()
      ensures items == (if |old(items)| == 1 then [BlankItem] else Without(old(items), idx))
      ensures customItems == old(customItems)
    {
      items := items[..idx] + items[idx + 1..];
      if |items| == 0 {
        items := items + [BlankItem];
      }
    }

    /** The minus button: lowers the quantity only while it is above 1. */
    method Minus(idx: nat)
      requires Valid() && idx < |items|
      modifies this
      ensures Valid()
      ensures old(items)[idx].quantity > 1 ==> items == old(items)[idx := old(items)[idx].(quantity := old(items)[idx].quantity - 1)]
      ensures old(items)[idx].quantity <= 1 ==> items == old(items)
      ensures customItems == old(customItems)
    {
      if items[idx].quantity > 1 {
        items := items[idx := items[idx].(quantity := items[idx].quantity - 1)];
      }
    }

    /** The plus button, with no upper bound. */
    method Plus(idx: nat)
      requires Valid() && idx < |items|
      modifies this
      ensures Valid()
      ensures items == old(items)[idx := old(items)[idx].(quantity := old(items)[idx].quantity + 1)]
      ensures customItems == old(customItems)
    {
      items := items[idx := items[idx].(quantity := items[idx].quantity + 1)];
    }

    /** Choosing a menu clears the preference chosen for the previous one. */
    method SelectMenu(idx: nat, menuName: string)
      requires Valid() && idx < |items|
      modifies this
      ensures Valid()
      ensures items == old(items)[idx := old(items)[idx].(menuName := menuName, preference := "")]
      ensures customItems == old(customItems)
    {
      items := items[idx := items[idx].(menuName := menuName, preference := "")];
    }

    method SetPreference(idx: nat, preference: string)
      requires Valid() && idx < |items|
      modifies this
      ensures Valid()
      ensures items == old(items)[idx := old(items)[idx].(preference := preference)]
      ensures customItems == old(customItems)
    {
      items := items[idx := items[idx].(preference := preference)];
    }

    method SetNotes(idx: nat, notes: string)
      requires Valid() && idx < |items|
      modifies this
      ensures Valid()
      ensures items == old(items)[idx := old(items)[idx].(notes := notes)]
      ensures customItems == old(customItems)
    {
      items := items[idx := items[idx].(notes := notes)];
    }

    method AddCustomItem()
      requires Valid()
      modifies this
      ensures Valid()
      ensures customItems == old(customItems) + [BlankCustom] && items == old(items)
    {
      customItems := customItems + [BlankCustom];
    }

    method RemoveCustomItem(idx: nat)
      requires Valid() && idx < |customItems|
      modifies this
      ensures Valid()
      ensures customItems == (if |old(customItems)| == 1 then [BlankCustom] else Without(old(customItems), idx))
      ensures items == old(items)
    {
      customItems := customItems[..idx] + customItems[idx + 1..];
      if |customItems| == 0 {
        customItems := customItems + [BlankCustom];
      }
    }

    method CustomMinus(idx: nat)
      requires Valid() && idx < |customItems|
      modifies this
      ensures Valid()
      ensures var c := old(customItems)[idx];
        customItems == (if c.quantity > 1 then old(customItems)[idx := c.(quantity := c.quantity - 1)] else old(customItems))
      ensures items == old(items)
    {
      var c := customItems[idx];
      if c.quantity > 1 {
        customItems := customItems[idx := c.(quantity := c.quantity - 1)];
      }
    }

    method CustomPlus(idx: nat)
      requires Valid() && idx < |customItems|
      modifies this
      ensures Valid()
      ensures var c := old(customItems)[idx]; customItems == old(customItems)[idx := c.(quantity := c.quantity + 1)]
      ensures items == old(items)
    {
      var c := customItems[idx];
      customItems := customItems[idx := c.(quantity := c.quantity + 1)];
    }

    /** Choosing a menu for a custom item drops its flavours. */
    method SelectCustomMenu(idx: nat, menuName: string)
      requires Valid() && idx < |customItems|
      modifies this
      ensures Valid()
      ensures var c := old(customItems)[idx]; customItems == old(customItems)[idx := c.(menuName := menuName, preferences := [])]
      ensures items == old(items)
    {
      var c := customItems[idx];
      customItems := customItems[idx := c.(menuName := menuName, preferences := [])];
    }

    /** The Add button beside the flavour list: a flavour is added only when
        one is selected and the item does not have it yet. */
    method AddFlavour(idx: nat, flavour: string)
      requires Valid() && idx < |customItems|
      modifies this
      ensures Valid()
      ensures var c := old(customItems)[idx];
        customItems == (if flavour != "" && flavour !in c.preferences
                        then old(customItems)[idx := c.(preferences := c.preferences + [flavour])]
                        else old(customItems))
      ensures items == old(items)
    {
      var c := customItems[idx];
      if flavour != "" && flavour !in c.preferences {
        customItems := customItems[idx := c.(preferences := c.preferences + [flavour])];
      }
    }

    /** The remove mark on a flavour tag. */
    method RemoveFlavour(idx: nat, flavourIdx: nat)
      requires Valid() && idx < |customItems| && flavourIdx < |customItems[idx].preferences|
      modifies this
      ensures Valid()
      ensures var c := old(customItems)[idx];
        customItems == old(customItems)[idx := c.(preferences := Without(c.preferences, flavourIdx))]
      ensures items == old(items)
    {
      var c := customItems[idx];
      customItems := customItems[idx := c.(preferences := c.preferences[..flavourIdx] + c.preferences[flavourIdx + 1..])];
    }
  }

  /** The lines of a regular order: the items with a menu chosen and a
      positive quantity, in order. */
  function RegularLines(items: seq<FormItem>): (r: seq<OrderLine>)
    ensures |r| <= |items|
    ensures forall k :: 0 <= k < |r| ==> r[k].menuName != "" && r[k].quantity > 0 && !r[k].customFlavour
    decreases |items|
  {
    if items == [] then []
    else
      var it := items[|items| - 1];
      RegularLines(items[..|items| - 1])
        + (if it.menuName != "" && it.quantity > 0
           then [OrderLine(it.menuName, it.quantity, it.preference, it.notes, "0", false)] else [])
  }

  /** The flavours of a custom item as one preference string. */
  function CustomPreference(prefs: seq<string>): string {
    if |prefs| > 0 then Join(prefs, ", ") else ""
  }

  /** The lines of a custom order, each with its flavours joined by ", ". */
  function CustomLines(items: seq<CustomItem>): (r: seq<OrderLine>)
    ensures |r| <= |items|
    ensures forall k :: 0 <= k < |r| ==> r[k].menuName != "" && r[k].quantity > 0 && r[k].customFlavour
    decreases |items|
  {
    if items == [] then []
    else
      var it := items[|items| - 1];
      CustomLines(items[..|items| - 1])
        + (if it.menuName != "" && it.quantity > 0
           then [OrderLine(it.menuName, it.quantity, CustomPreference(it.preferences), it.notes, "0", true)] else [])
  }

  /** The items the form shows with a menu chosen. */
  function Chosen(items: seq<FormItem>): seq<FormItem>
    decreases |items|
  {
    if items == [] then []
    else Chosen(items[..|items| - 1]) + (if items[|items| - 1].menuName != "" then [items[|items| - 1]] else [])
  }

  /** On a valid form the quantity filter drops nothing: every item with a
      menu chosen becomes one line, with its own quantity and preference. */
  lemma {:induction false} RegularLinesOfValidForm(items: seq<FormItem>)
    requires forall k :: 0 <= k < |items| ==> items[k].quantity >= 1
    ensures |RegularLines(items)| == |Chosen(items)|
    ensures forall k :: 0 <= k < |Chosen(items)| ==>
      var it := Chosen(items)[k];
      RegularLines(items)[k] == OrderLine(it.menuName, it.quantity, it.preference, it.notes, "0", false)
    decreases |items|
  {
    if items != [] {
      RegularLinesOfValidForm(items[..|items| - 1]);
    }
  }

  /** The custom items the form shows with a menu chosen. */
  function ChosenCustom(items: seq<CustomItem>): seq<CustomItem>
    decreases |items|
  {
    if items == [] then []
    else ChosenCustom(items[..|items| - 1]) + (if items[|items| - 1].menuName != "" then [items[|items| - 1]] else [])
  }

  /** On a valid form every custom item with a menu chosen becomes one line,
      with its quantity, its flavours joined by ", ", its note, telegram id
      "0" and the custom flag. */
  lemma {:induction false} CustomLinesOfValidForm(items: seq<CustomItem>)
    requires forall k :: 0 <= k < |items| ==> items[k].quantity >= 1
    ensures |CustomLines(items)| == |ChosenCustom(items)|
    ensures forall k :: 0 <= k < |ChosenCustom(items)| ==>
      var c := ChosenCustom(items)[k];
      CustomLines(items)[k] == OrderLine(c.menuName, c.quantity, CustomPreference(c.preferences), c.notes, "0", true)
    decreases |items|
  {
    if items != [] {
      CustomLinesOfValidForm(items[..|items| - 1]);
    }
  }

  /** Flavour names without a comma come back one by one from splitting the
      preference at ", ". */
  lemma CustomPreferenceSplits(prefs: seq<string>)
    requires |prefs| >= 1
    requires forall k, i :: 0 <= k < |prefs| && 0 <= i < |prefs[k]| ==> prefs[k][i] != ','
    ensures Split(CustomPreference(prefs), ", ") == prefs
  {
    SplitJoin(prefs, ", ");
  }
}
