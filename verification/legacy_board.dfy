/** The older kitchen page (script.js): its cards, its columns and its
    sidebar tally. Tickets have the shape the kitchen board reads. */
module LegacyBoard {
  import opened Wrappers
  import opened Text
  import opened Sorting
  import opened Lists
  import KitchenBoard

  type Ticket = KitchenBoard.BoardOrder

  // ---------------------------------------------------------------------
  // Cards
  // ---------------------------------------------------------------------

  /** The detail lines that are not blank. */
  function Lines(detail: string): seq<string> {
    Keep(Split(detail, "\n"), (l: string) => JsTrim(l) != "")
  }

  /** `parts[0] || item`: the text before the first " - ", or the whole
      line when that text is empty. */
  function LineName(item: string): string {
    var parts := Split(item, " - ");
    if parts[0] != "" then parts[0] else item
  }

  /** A card line: its name, and the text after the first " - " as the
      quantity, "1x" when there is none. */
  function CardLine(item: string): (string, string) {
    var parts := Split(item, " - ");
    (LineName(item), if |parts| > 1 && parts[1] != "" then parts[1] else "1x")
  }

  /** A line without " - " is shown whole with quantity "1x"; the lines the
      kitchen writes, `2x Latte (Less Sugar)`, are shown this way. */
  lemma CardLineOfPlainLine(item: string)
    requires !Contains(item, " - ")
    ensures CardLine(item) == (item, "1x")
  {
    SplitAbsent(item, " - ");
  }

  /** `Name - Quantity` is taken apart into the two when the name has no
      "-" and the quantity no " - ". */
  lemma CardLineOfNamedLine(name: string, quantity: string)
    requires name != "" && forall i :: 0 <= i < |name| ==> name[i] != '-'
    requires quantity != "" && !Contains(quantity, " - ")
    ensures CardLine(name + " - " + quantity) == (name, quantity)
  {
    var s := name + " - " + quantity;
    assert OccursAt(s, " - ", |name|) by {
      assert s[|name|..|name| + 3] == " - ";
    }
    forall j | 0 <= j < |name| ensures !OccursAt(s, " - ", j) {
      if j + 1 < |name| {
        assert s[j + 1] == name[j + 1];
      } else {
        assert s[j + 1] == ' ';
      }
      assert s[j..j + 3][1] == s[j + 1];
    }
    assert IndexOf(s, " - ") == Some(|name|);
    assert s[..|name|] == name;
    assert s[|name| + 3..] == quantity;
    SplitAbsent(quantity, " - ");
  }

  /** The button of each active status moves the ticket one step on. */
  function NextStatus(status: string): (r: Option<string>)
    ensures r.Some? <==> status in {"receive", "making", "deliver"}
  {
    if status == "receive" then Some("making")
    else if status == "making" then Some("deliver")
    else if status == "deliver" then Some("done")
    else None
  }

  /** Three presses take a new ticket to "done", where no button is left. */
  lemma StatusFlowEndsAtDone()
    ensures NextStatus("receive") == Some("making") && NextStatus("making") == Some("deliver")
    ensures NextStatus("deliver") == Some("done") && NextStatus("done") == None
  {
  }

  // ---------------------------------------------------------------------
  // Columns
  // ---------------------------------------------------------------------

  datatype Column = NewOrders | Making | Deliver | DoneGrid

  /** Finished, cancelled and sold-out tickets share the done grid; any
      other status is placed nowhere. */
  function Placement(status: string): (c: Option<Column>)
    ensures c.Some? <==> status in {"receive", "making", "deliver", "done", "cancel", "habis"}
    ensures c == Some(DoneGrid) <==> status in {"done", "cancel", "habis"}
  {
    if status == "receive" then Some(NewOrders)
    else if status == "making" then Some(Making)
    else if status == "deliver" then Some(Deliver)
    else if status in {"done", "cancel", "habis"} then Some(DoneGrid)
    else None
  }

  function NewestKey(o: Ticket): int { -KitchenBoard.TimeKey(o) }

  /** `orders.sort((a, b) => b.time_receive - a.time_receive)`. */
  function NewestFirst(orders: seq<Ticket>): (r: seq<Ticket>)
    ensures multiset(r) == multiset(orders)
    ensures forall i, j :: 0 <= i < j < |r| ==> KitchenBoard.TimeKey(r[i]) >= KitchenBoard.TimeKey(r[j])
  {
    var r := SortBy(orders, NewestKey);
    assert forall i, j :: 0 <= i < j < |r| ==> NewestKey(r[i]) <= NewestKey(r[j]);
    r
  }

  /** The cards of one column, newest first. */
  function ColumnCards(orders: seq<Ticket>, c: Column): (r: seq<Ticket>)
    ensures forall o :: o in r <==> o in orders && KitchenBoard.Renderable(o) && Placement(o.status) == Some(c)
  {
    var sorted := NewestFirst(orders);
    assert forall o :: o in sorted <==> o in multiset(orders);
    Keep(sorted, (o: Ticket) => KitchenBoard.Renderable(o) && Placement(o.status) == Some(c))
  }

  // ---------------------------------------------------------------------
  // The sidebar tally
  // ---------------------------------------------------------------------

  /** The names one ticket adds to the tally. */
  function TicketNames(o: Ticket): seq<string> {
    if KitchenBoard.ActiveOnBoard(o) then NamesOf(Lines(o.detail)) else []
  }

  function NamesOf(lines: seq<string>): (r: seq<string>)
    ensures |r| == |lines| && forall k :: 0 <= k < |lines| ==> r[k] == LineName(lines[k])
  {
    seq(|lines|, k requires 0 <= k < |lines| => LineName(lines[k]))
  }

  function AllNames(orders: seq<Ticket>): seq<string>
    decreases |orders|
  {
    if orders == [] then [] else AllNames(orders[..|orders| - 1]) + TicketNames(orders[|orders| - 1])
  }

  /** updateSummary of script.js: the tally over the active tickets. */
  method CountSummary(orders: seq<Ticket>) returns (counts: map<string, int>)
    ensures counts == Tally(AllNames(orders))
  {
    counts := map[];
    var i := 0;
    while i < |orders|
      invariant 0 <= i <= |orders|
      invariant counts == Tally(AllNames(orders[..i]))
    {
      assert orders[..i + 1][..i] == orders[..i];
      counts := TallyNames(counts, TicketNames(orders[i]), AllNames(orders[..i]));
      i := i + 1;
    }
    assert orders[..i] == orders;
  }
}
