/** The kitchen board page (index.js): reading the ticket detail lines back
    into items, today's queue numbers, the sidebar summary, the columns the
    tickets are placed in, and the order form's item list. */
module KitchenBoard {
  import opened Wrappers
  import opened Text
  import opened Sorting
  import opened Lists
  import KitchenService

  // ---------------------------------------------------------------------
  // Pieces of the two regular expressions
  // ---------------------------------------------------------------------

  /** The length of the run of ASCII digits `\d+` can take at the start. */
  function LeadingDigits(s: string): (n: nat)
    ensures n <= |s|
    ensures forall i :: 0 <= i < n ==> IsDigit(s[i])
    ensures n < |s| ==> !IsDigit(s[n])
    decreases |s|
  {
    if s == [] || !IsDigit(s[0]) then 0 else 1 + LeadingDigits(s[1..])
  }

  /** The end of the run of `\s` characters starting at i. */
  function SpaceRunEnd(s: string, i: nat): (j: nat)
    requires i <= |s|
    ensures i <= j <= |s|
    ensures forall k :: i <= k < j ==> IsJsSpace(s[k])
    ensures j < |s| ==> !IsJsSpace(s[j])
    decreases |s| - i
  {
    if i == |s| || !IsJsSpace(s[i]) then i else SpaceRunEnd(s, i + 1)
  }

  predicate Lacks(s: string, c: char) {
    forall i :: 0 <= i < |s| ==> s[i] != c
  }

  /** A detail line `Nx Name (Variant)` regrouped as N followed by the rest. */
  lemma Regroup<T>(a: seq<T>, b: seq<T>, c: seq<T>, d: seq<T>, e: seq<T>, f: seq<T>)
    ensures a + b + c + d + e + f == a + (b + (c + d + e + f))
  {
  }

  lemma LeadingDigitsOf(digits: string, rest: string)
    requires forall i :: 0 <= i < |digits| ==> IsDigit(digits[i])
    requires rest != [] && !IsDigit(rest[0])
    ensures LeadingDigits(digits + rest) == |digits|
    decreases |digits|
  {
    if digits != [] {
      assert (digits + rest)[1..] == digits[1..] + rest;
      LeadingDigitsOf(digits[1..], rest);
    }
  }

  lemma IndexOfFirstChar(s: string, c: char, p: nat)
    requires p < |s| && s[p] == c && Lacks(s[..p], c)
    ensures IndexOf(s, [c]) == Some(p)
  {
    assert OccursAt(s, [c], p);
    var r := IndexOf(s, [c]);
    assert r.Some?;
    assert forall j :: 0 <= j < p ==> s[j] != c by {
      forall j | 0 <= j < p ensures s[j] != c {
        assert s[..p][j] == s[j];
      }
    }
    assert s[r.value..r.value + 1] == [c];
    assert s[r.value] == c;
  }

  // ---------------------------------------------------------------------
  // The card parser of createOrderCard
  // ---------------------------------------------------------------------

  datatype CardItem = CardItem(menuName: string, quantity: string, preference: string, notes: string)

  /** What follows `Nx `: `Name (Variant)` gives both, a text without "("
      gives the name alone, and anything else does not match. */
  function CardRest(rest: string): Option<(string, string)> {
    match IndexOf(rest, "(")
    case Some(p) =>
      if p >= 2 && rest[p - 1] == ' ' && |rest| >= p + 3 && rest[|rest| - 1] == ')'
         && Lacks(rest[p + 1..|rest| - 1], ')')
      then Some((JsTrim(rest[..p - 1]), JsTrim(rest[p + 1..|rest| - 1])))
      else None
    case None => if rest != [] then Some((JsTrim(rest), "")) else None
  }

  /** The text before " - Notes:" as the card reads it: `Nx Name (Variant)`,
      then `Nx Name`, and otherwise the whole text as the name. */
  function CardFields(main: string, notes: string): CardItem {
    var d := LeadingDigits(main);
    if d == 0 || d + 2 > |main| || main[d] != 'x' || main[d + 1] != ' ' then CardItem(main, "", "", notes)
    else match CardRest(main[d + 2..])
      case Some((name, variant)) => CardItem(name, main[..d] + "x", variant, notes)
      case None => CardItem(main, "", "", notes)
  }

  /** One detail line as the card shows it; the text after " - Notes:" is
      the notes. */
  function ParseCardLine(line: string): CardItem {
    var parts := Split(line, " - Notes:");
    CardFields(parts[0], if |parts| > 1 then JsTrim(parts[1]) else "")
  }

  /** A string JavaScript's trim leaves alone. */
  predicate Trimmed(s: string) {
    s != [] && !IsJsSpace(s[0]) && !IsJsSpace(s[|s| - 1])
  }

  lemma TrimmedIsFixed(s: string)
    requires Trimmed(s)
    ensures JsTrim(s) == s
  {
    TrimOfTrimmed(s, IsJsSpace);
  }

  /** The condition under which a kitchen detail line reads back: a menu
      name without "(", a non-empty preference without ")", neither with
      surrounding spaces, and no notes marker in the line. */
  predicate ReadableItem(item: KitchenService.OrderItem) {
    item.quantity >= 0
    && Trimmed(item.menuName) && Lacks(item.menuName, '(')
    && Trimmed(item.preference) && Lacks(item.preference, ')')
  }

  lemma CardRestOfDetail(name: string, pref: string)
    requires Trimmed(name) && Lacks(name, '(') && Trimmed(pref) && Lacks(pref, ')')
    ensures CardRest(name + " (" + pref + ")") == Some((name, pref))
  {
    var rest := name + " (" + pref + ")";
    assert rest[..|name| + 1] == name + " ";
    IndexOfFirstChar(rest, '(', |name| + 1);
    assert "(" == ['('];
    assert rest[..|name|] == name;
    assert rest[|name| + 2..|rest| - 1] == pref;
    TrimmedIsFixed(name);
    TrimmedIsFixed(pref);
  }

  lemma CardFieldsOfDetail(digits: string, name: string, pref: string)
    requires |digits| >= 1 && forall i :: 0 <= i < |digits| ==> IsDigit(digits[i])
    requires Trimmed(name) && Lacks(name, '(') && Trimmed(pref) && Lacks(pref, ')')
    ensures CardFields(digits + "x " + name + " (" + pref + ")", "") == CardItem(name, digits + "x", pref, "")
  {
    Regroup(digits, "x ", name, " (", pref, ")");
    CardFieldsOfCount(digits, name + " (" + pref + ")");
    CardRestOfDetail(name, pref);
  }

  /** A count, "x " and a rest: the card reads the rest, and keeps the
      whole line as the name when the rest is not a name and a variant. */
  lemma CardFieldsOfCount(digits: string, rest: string)
    requires |digits| >= 1 && forall i :: 0 <= i < |digits| ==> IsDigit(digits[i])
    ensures CardRest(rest).Some? ==>
      CardFields(digits + ("x " + rest), "") == CardItem(CardRest(rest).value.0, digits + "x", CardRest(rest).value.1, "")
    ensures CardRest(rest).None? ==> CardFields(digits + ("x " + rest), "") == CardItem(digits + ("x " + rest), "", "", "")
  {
    var main := digits + ("x " + rest);
    LeadingDigitsOf(digits, "x " + rest);
    var d := |digits|;
    assert main[d] == 'x' && main[d + 1] == ' ';
    assert main[d + 2..] == rest;
    assert main[..d] == digits;
  }

  /** The card shows a kitchen detail line as the quantity, menu name and
      preference the kitchen wrote into it. */
  lemma CardReadsDetailLine(item: KitchenService.OrderItem)
    requires ReadableItem(item) && !Contains(KitchenService.DetailLine(item), " - Notes:")
    ensures ParseCardLine(KitchenService.DetailLine(item))
         == CardItem(item.menuName, NatToString(item.quantity) + "x", item.preference, "")
  {
    var line := KitchenService.DetailLine(item);
    SplitAbsent(line, " - Notes:");
    CardFieldsOfDetail(NatToString(item.quantity), item.menuName, item.preference);
  }

  lemma CardRestOfEmptyVariant(name: string, pref: string)
    requires Trimmed(name) && Lacks(name, '(') && pref == ""
    ensures CardRest(name + " (" + pref + ")") == None
  {
    var rest := name + " (" + pref + ")";
    assert rest[..|name| + 1] == name + " ";
    IndexOfFirstChar(rest, '(', |name| + 1);
    assert "(" == ['('];
  }

  /** The kitchen writes `Nx Name ()` for an item ordered without a
      preference, and the card cannot read it: the whole line becomes the
      menu name and the quantity is empty. */
  lemma CardMissesEmptyPreference(item: KitchenService.OrderItem)
    requires item.quantity >= 0 && Trimmed(item.menuName) && Lacks(item.menuName, '(')
    requires item.preference == "" && !Contains(KitchenService.DetailLine(item), " - Notes:")
    ensures ParseCardLine(KitchenService.DetailLine(item)) == CardItem(KitchenService.DetailLine(item), "", "", "")
  {
    var line := KitchenService.DetailLine(item);
    SplitAbsent(line, " - Notes:");
    CardFieldsOfEmptyVariant(NatToString(item.quantity), item.menuName);
  }

  lemma CardFieldsOfEmptyVariant(digits: string, name: string)
    requires |digits| >= 1 && forall i :: 0 <= i < |digits| ==> IsDigit(digits[i])
    requires Trimmed(name) && Lacks(name, '(')
    ensures CardFields(digits + "x " + name + " (" + "" + ")", "") == CardItem(digits + "x " + name + " (" + "" + ")", "", "", "")
  {
    Regroup(digits, "x ", name, " (", "", ")");
    CardFieldsOfCount(digits, name + " (" + "" + ")");
    CardRestOfEmptyVariant(name, "");
  }

  // ---------------------------------------------------------------------
  // The summary parser of updateSummary
  // ---------------------------------------------------------------------

  /** `\s+\(([^)]+)\)` up to the end: a run of spaces, "(", a non-empty
      text without ")", and ")". */
  predicate IsVariantSuffix(r: string) {
    var j := SpaceRunEnd(r, 0);
    0 < j && j + 3 <= |r| && r[j] == '(' && r[|r| - 1] == ')' && Lacks(r[j + 1..|r| - 1], ')')
  }

  function VariantOf(r: string): string
    requires IsVariantSuffix(r)
  {
    r[SpaceRunEnd(r, 0) + 1..|r| - 1]
  }

  /** The lazy `(.+?)` starting at p: the shortest name, made of characters
      `.` matches, after which the line ends or only the variant follows;
      the result is the name's length and the variant. */
  function LazyName(m: string, p: nat, len: nat): Option<(nat, string)>
    requires p < |m| && 1 <= len <= |m| - p
    decreases |m| - p - len
  {
    if IsLineTerminator(m[p + len - 1]) then None
    else if p + len == |m| then Some((len, ""))
    else if IsVariantSuffix(m[p + len..]) then Some((len, VariantOf(m[p + len..])))
    else LazyName(m, p, len + 1)
  }

  /** The name starts right after the spaces `\s+` took, or earlier when
      the match can only succeed with `\s+` giving characters back. */
  function NameStart(m: string, lo: nat, p: nat): Option<(nat, nat, string)>
    requires 1 <= lo <= p <= |m|
    decreases p
  {
    if p < |m| && LazyName(m, p, 1).Some? then
      var (len, variant) := LazyName(m, p, 1).value;
      Some((p, len, variant))
    else if p > lo then NameStart(m, lo, p - 1)
    else None
  }

  /** `^(\d+)x\s+(.+?)(?:\s+\(([^)]+)\))?$`: the quantity, the raw name and
      the variant. */
  function SummaryMatch(m: string): Option<(nat, string, string)> {
    var d := LeadingDigits(m);
    if d == 0 || d >= |m| || m[d] != 'x' then None else MatchAfterCount(m, d)
  }

  /** The rest of the match once `(\d+)x` has taken the first d + 1
      characters. */
  function MatchAfterCount(m: string, d: nat): Option<(nat, string, string)>
    requires d < |m| && forall i :: 0 <= i < d ==> IsDigit(m[i])
  {
    var e := SpaceRunEnd(m, d + 1);
    if e == d + 1 then None
    else match NameStart(m, d + 2, e)
      case None => None
      case Some((p, len, variant)) =>
        if p + len <= |m| then Some((DigitsValue(m[..d]), m[p..p + len], variant)) else None
  }

  datatype SummaryItem = SummaryItem(quantity: int, menuName: string, preference: string, notes: string)

  /** One detail line as the summary reads it: the part before " - " is
      matched, the part after it is the notes; a line that does not match
      counts once under its trimmed text. */
  function ParseSummaryLine(item: string): SummaryItem {
    var parts := Split(item, " - ");
    var mainPart := if parts[0] != "" then parts[0] else item;
    var notes := if |parts| > 1 then parts[1] else "";
    match SummaryMatch(mainPart)
    case Some((q, name, variant)) => SummaryItem(q, JsTrim(name), variant, notes)
    case None => SummaryItem(1, JsTrim(mainPart), "", notes)
  }

  /** A name of length l starting at p is too short for the lazy match. */
  predicate TooShort(m: string, p: nat, l: nat) {
    1 <= l && p + l < |m| && !IsLineTerminator(m[p + l - 1]) && !IsVariantSuffix(m[p + l..])
  }

  lemma {:induction false} LazyNameSkips(m: string, p: nat, len: nat, target: nat)
    requires p < |m| && 1 <= len <= target <= |m| - p
    requires forall l :: len <= l < target ==> TooShort(m, p, l)
    ensures LazyName(m, p, len) == LazyName(m, p, target)
    decreases target - len
  {
    if len < target {
      assert TooShort(m, p, len);
      LazyNameSkips(m, p, len + 1, target);
    }
  }

  /** No proper tail of a name without "(" that ends in a non-space,
      followed by the variant, is a variant suffix on its own. */
  lemma NameTailNotSuffix(name: string, rest: string, l: nat)
    requires Trimmed(name) && Lacks(name, '(') && 1 <= l < |name|
    ensures !IsVariantSuffix(name[l..] + rest)
  {
    var r := name[l..] + rest;
    var j := SpaceRunEnd(r, 0);
    assert forall k :: 0 <= k < |name| - l ==> r[k] == name[l + k];
    assert r[|name| - l - 1] == name[|name| - 1];
    assert !IsJsSpace(r[|name| - l - 1]);
    assert j <= |name| - l - 1;
    assert r[j] == name[l + j];
    assert r[j] != '(';
  }

  /** A proper prefix of the name is too short for the lazy match. */
  lemma NameIsTooShortAt(m: string, p: nat, name: string, tail: string, l: nat)
    requires p <= |m| && m[p..] == name + tail
    requires Trimmed(name) && Lacks(name, '(') && 1 <= l < |name|
    requires forall i :: 0 <= i < |name| ==> !IsLineTerminator(name[i])
    ensures TooShort(m, p, l)
  {
    assert m[p + l - 1] == name[l - 1];
    assert m[p + l..] == name[l..] + tail;
    NameTailNotSuffix(name, tail, l);
  }

  lemma VariantSuffixOfDetail(pref: string)
    requires Lacks(pref, ')') && pref != []
    ensures IsVariantSuffix(" (" + pref + ")") && VariantOf(" (" + pref + ")") == pref
  {
    var tail := " (" + pref + ")";
    assert SpaceRunEnd(tail, 0) == 1 by {
      assert SpaceRunEnd(tail, 1) == 1;
    }
    assert tail[2..|tail| - 1] == pref;
  }

  /** The lazy name stops exactly at the end of a trimmed name without "("
      and line terminators when the variant follows it. */
  lemma LazyNameOfDetail(m: string, p: nat, name: string, pref: string)
    requires p <= |m| && m[p..] == name + " (" + pref + ")"
    requires Trimmed(name) && Lacks(name, '(') && Lacks(pref, ')') && pref != []
    requires forall i :: 0 <= i < |name| ==> !IsLineTerminator(name[i])
    ensures p < |m| && LazyName(m, p, 1) == Some((|name|, pref))
  {
    var tail := " (" + pref + ")";
    assert m[p] == name[0];
    forall l | 1 <= l < |name| ensures TooShort(m, p, l) {
      NameIsTooShortAt(m, p, name, tail, l);
    }
    LazyNameSkips(m, p, 1, |name|);
    assert m[p + |name| - 1] == name[|name| - 1];
    assert m[p + |name|..] == tail;
    VariantSuffixOfDetail(pref);
  }

  lemma MatchAfterCountAt(m: string, d: nat, name: string, pref: string)
    requires d + 2 <= |m| && forall i :: 0 <= i < d ==> IsDigit(m[i])
    requires m[d + 1] == ' ' && m[d + 2..] == name + " (" + pref + ")"
    requires Trimmed(name) && Lacks(name, '(') && Lacks(pref, ')') && pref != []
    requires forall i :: 0 <= i < |name| ==> !IsLineTerminator(name[i])
    ensures MatchAfterCount(m, d) == Some((DigitsValue(m[..d]), name, pref))
  {
    var s0 := d + 2;
    assert m[s0] == name[0];
    assert SpaceRunEnd(m, s0) == s0;
    assert SpaceRunEnd(m, d + 1) == s0;
    LazyNameOfDetail(m, s0, name, pref);
    assert NameStart(m, s0, s0) == Some((s0, |name|, pref));
    assert m[s0..s0 + |name|] == name;
  }

  /** The summary's regular expression takes `Nx Name (Variant)` apart into
      N, the name and the variant. */
  lemma SummaryMatchOfDetail(digits: string, name: string, pref: string)
    requires |digits| >= 1 && forall i :: 0 <= i < |digits| ==> IsDigit(digits[i])
    requires Trimmed(name) && Lacks(name, '(') && Lacks(pref, ')') && pref != []
    requires forall i :: 0 <= i < |name| ==> !IsLineTerminator(name[i])
    ensures SummaryMatch(digits + "x " + name + " (" + pref + ")") == Some((DigitsValue(digits), name, pref))
  {
    var rest := name + " (" + pref + ")";
    var line := digits + "x " + name + " (" + pref + ")";
    Regroup(digits, "x ", name, " (", pref, ")");
    LeadingDigitsOf(digits, "x " + rest);
    var d := |digits|;
    assert line[d + 2..] == rest;
    assert line[..d] == digits;
    MatchAfterCountAt(line, d, name, pref);
  }

  /** The summary reads a kitchen detail line back into its quantity, menu
      name and preference. */
  lemma SummaryReadsDetailLine(item: KitchenService.OrderItem)
    requires ReadableItem(item)
    requires forall i :: 0 <= i < |item.menuName| ==> !IsLineTerminator(item.menuName[i])
    requires !Contains(KitchenService.DetailLine(item), " - ")
    ensures ParseSummaryLine(KitchenService.DetailLine(item))
         == SummaryItem(item.quantity, item.menuName, item.preference, "")
  {
    var line := KitchenService.DetailLine(item);
    SplitAbsent(line, " - ");
    SummaryMatchOfDetail(NatToString(item.quantity), item.menuName, item.preference);
    NatToStringValue(item.quantity);
    TrimmedIsFixed(item.menuName);
  }

  // ---------------------------------------------------------------------
  // Columns, queue numbers and the summary
  // ---------------------------------------------------------------------

  /** A ticket as the board receives it; "" stands for a missing field and
      times are milliseconds since the epoch. */
  datatype BoardOrder = BoardOrder(orderId: string, detail: string, status: string, timeReceive: Option<int>)

  datatype Column = NewOrders | Making | Deliver | DoneOrders | Cancelled

  /** renderOrders: only tickets with an id and a detail are placed. */
  predicate Renderable(o: BoardOrder) {
    o.orderId != "" && o.detail != ""
  }

  /** The column of each status; any other status, "pending" among them, is
      placed nowhere. */
  function ColumnOf(status: string): (c: Option<Column>)
    ensures c.Some? <==> status in {"receive", "making", "deliver", "done", "cancel", "habis"}
    ensures c == Some(Cancelled) <==> status in {"cancel", "habis"}
  {
    if status == "receive" then Some(NewOrders)
    else if status == "making" then Some(Making)
    else if status == "deliver" then Some(Deliver)
    else if status == "done" then Some(DoneOrders)
    else if status == "cancel" || status == "habis" then Some(Cancelled)
    else None
  }

  function TimeKey(o: BoardOrder): int { o.timeReceive.GetOr(0) }

  /** renderOrders' list: the renderable tickets, oldest first. */
  function Placed(orders: seq<BoardOrder>): (r: seq<BoardOrder>)
    ensures multiset(r) == multiset(Keep(orders, Renderable))
    ensures forall o :: o in r <==> o in orders && Renderable(o)
    ensures SortedBy(r, TimeKey)
  {
    var r := SortBy(Keep(orders, Renderable), TimeKey);
    assert forall o :: o in r <==> o in multiset(r);
    r
  }

  /** The tickets of one column, oldest first; since ColumnOf is a function
      of the status, a ticket lands in one column at most. */
  function ColumnContents(orders: seq<BoardOrder>, c: Column): (r: seq<BoardOrder>)
    ensures forall o :: o in r <==> o in orders && Renderable(o) && ColumnOf(o.status) == Some(c)
  {
    Keep(Placed(orders), (o: BoardOrder) => ColumnOf(o.status) == Some(c))
  }

  const MillisPerDay: int := 86_400_000

  /** The UTC day `toISOString().slice(0, 10)` names. */
  function DayOf(ms: int): int { ms / MillisPerDay }

  predicate ReceivedOn(o: BoardOrder, day: int) {
    o.timeReceive.Some? && DayOf(o.timeReceive.value) == day
  }

  /** Today's tickets in the order they were received. */
  function TodaySorted(orders: seq<BoardOrder>, today: int): seq<BoardOrder> {
    SortBy(Keep(orders, o => ReceivedOn(o, today)), TimeKey)
  }

  /** `orderIdToQueue[order.order_id] = idx + 1` over the sorted tickets. */
  function QueueNumbers(sorted: seq<BoardOrder>): (q: map<string, int>)
    ensures q.Keys == set o | o in sorted :: o.orderId
    ensures forall id :: id in q ==> 1 <= q[id] <= |sorted|
    decreases |sorted|
  {
    if sorted == [] then map[]
    else
      var init := sorted[..|sorted| - 1];
      assert forall o :: o in sorted <==> o in init || o == sorted[|sorted| - 1];
      QueueNumbers(init)[sorted[|sorted| - 1].orderId := |sorted|]
  }

  predicate IdsDistinct(s: seq<BoardOrder>) {
    forall i, j :: 0 <= i < j < |s| ==> s[i].orderId != s[j].orderId
  }

  /** With distinct ids the k-th ticket of the day gets number k + 1: the
      numbers are 1..n, one per ticket. */
  lemma {:induction false} QueueNumbersArePositions(sorted: seq<BoardOrder>)
    requires IdsDistinct(sorted)
    ensures forall k :: 0 <= k < |sorted| ==> QueueNumbers(sorted)[sorted[k].orderId] == k + 1
    ensures forall id :: id in QueueNumbers(sorted) ==> 1 <= QueueNumbers(sorted)[id] <= |sorted|
    decreases |sorted|
  {
    if sorted != [] {
      var init := sorted[..|sorted| - 1];
      QueueNumbersArePositions(init);
    }
  }

  /** One summary entry: its unit count, its smallest queue number (None is
      Infinity) and the rows pushed for it. */
  datatype SummaryRow = SummaryRow(orderId: string, variant: string, notes: string, queue: Option<int>)
  datatype Entry = Entry(count: int, firstQueue: Option<int>, rows: seq<SummaryRow>)

  predicate ActiveOnBoard(o: BoardOrder) {
    o.status in {"receive", "making", "deliver"}
  }

  function MinQueue(a: Option<int>, b: Option<int>): Option<int> {
    if a.None? then b else if b.None? then a else if a.value <= b.value then a else b
  }

  /** `item.quantity || 1`: a quantity of 0 counts as 1. */
  function Units(it: SummaryItem): int {
    if it.quantity == 0 then 1 else it.quantity
  }

  /** `orderIdToQueue[order.order_id] || Infinity`. */
  function QueueOf(o: BoardOrder, queue: map<string, int>): Option<int> {
    if o.orderId in queue then Some(queue[o.orderId]) else None
  }

  /** The summary after one more item of ticket o; `names` keeps the
      insertion order of the object's keys. */
  function AddToSummary(summary: map<string, Entry>, names: seq<string>, o: BoardOrder,
                        it: SummaryItem, queue: map<string, int>): (map<string, Entry>, seq<string>)
  {
    var q := QueueOf(o, queue);
    var e := if it.menuName in summary then summary[it.menuName] else Entry(0, None, []);
    var names' := if it.menuName in summary then names else names + [it.menuName];
    (summary[it.menuName := Entry(e.count + Units(it), MinQueue(e.firstQueue, q),
                                  e.rows + [SummaryRow(o.orderId, it.preference, it.notes, q)])], names')
  }

  function LowestQueue(rows: seq<SummaryRow>): Option<int>
    decreases |rows|
  {
    if rows == [] then None else MinQueue(LowestQueue(rows[..|rows| - 1]), rows[|rows| - 1].queue)
  }

  /** The detail lines of a ticket that the summary reads. */
  function SummaryLines(o: BoardOrder): seq<SummaryItem> {
    var lines := Keep(Split(o.detail, "\n"), (l: string) => JsTrim(l) != "");
    seq(|lines|, k requires 0 <= k < |lines| => ParseSummaryLine(lines[k]))
  }

  /** The items an active ticket adds to the summary, each with its ticket. */
  function TicketPushes(o: BoardOrder): seq<(BoardOrder, SummaryItem)> {
    if ActiveOnBoard(o) then Tagged(o, SummaryLines(o)) else []
  }

  function Tagged(o: BoardOrder, items: seq<SummaryItem>): (r: seq<(BoardOrder, SummaryItem)>)
    ensures |r| == |items| && forall k :: 0 <= k < |items| ==> r[k] == (o, items[k])
  {
    seq(|items|, k requires 0 <= k < |items| => (o, items[k]))
  }

  function Pushes(orders: seq<BoardOrder>): seq<(BoardOrder, SummaryItem)>
    decreases |orders|
  {
    if orders == [] then [] else Pushes(orders[..|orders| - 1]) + TicketPushes(orders[|orders| - 1])
  }

  /** The summary object after the given pushes, one at a time. */
  function Build(pushes: seq<(BoardOrder, SummaryItem)>, queue: map<string, int>): (map<string, Entry>, seq<string>)
    decreases |pushes|
  {
    if pushes == [] then (map[], [])
    else
      var (summary, names) := Build(pushes[..|pushes| - 1], queue);
      var (o, it) := pushes[|pushes| - 1];
      AddToSummary(summary, names, o, it, queue)
  }

  /** The independent description of one menu's entry: the units of its
      items and one row per item. */
  function UnitsFor(pushes: seq<(BoardOrder, SummaryItem)>, name: string): int
    decreases |pushes|
  {
    if pushes == [] then 0
    else
      var (o, it) := pushes[|pushes| - 1];
      UnitsFor(pushes[..|pushes| - 1], name) + (if it.menuName == name then Units(it) else 0)
  }

  function RowsFor(pushes: seq<(BoardOrder, SummaryItem)>, name: string, queue: map<string, int>): seq<SummaryRow>
    decreases |pushes|
  {
    if pushes == [] then []
    else
      var (o, it) := pushes[|pushes| - 1];
      RowsFor(pushes[..|pushes| - 1], name, queue)
        + (if it.menuName == name then [SummaryRow(o.orderId, it.preference, it.notes, QueueOf(o, queue))] else [])
  }

  /** The summary is consistent: one name per key in insertion order, and
      each entry's first queue number is the smallest among its rows. */
  ghost predicate SummaryValid(summary: map<string, Entry>, names: seq<string>) {
    (forall i, j :: 0 <= i < j < |names| ==> names[i] != names[j])
    && (forall n :: n in summary <==> n in names)
    && (forall n :: n in summary ==> summary[n].firstQueue == LowestQueue(summary[n].rows))
  }

  /** Each menu named by some item has an entry whose count is the sum of
      its items' units (0 counting as 1) and whose rows are its items in
      order; no other menu has one. */
  lemma BuildSpec(pushes: seq<(BoardOrder, SummaryItem)>, queue: map<string, int>)
    ensures var (summary, names) := Build(pushes, queue);
      SummaryValid(summary, names)
      && forall n :: (n in summary <==> RowsFor(pushes, n, queue) != [])
                  && (n in summary ==> summary[n].count == UnitsFor(pushes, n)
                                       && summary[n].rows == RowsFor(pushes, n, queue))
                  && (n !in summary ==> UnitsFor(pushes, n) == 0)
  {
    BuildValid(pushes, queue);
    var summary := Build(pushes, queue).0;
    forall n
      ensures (n in summary <==> RowsFor(pushes, n, queue) != [])
              && (n in summary ==> summary[n].count == UnitsFor(pushes, n) && summary[n].rows == RowsFor(pushes, n, queue))
              && (n !in summary ==> UnitsFor(pushes, n) == 0)
    {
      BuildEntry(pushes, queue, n);
    }
  }

  /** The summary stays consistent push after push. */
  lemma {:induction false} BuildValid(pushes: seq<(BoardOrder, SummaryItem)>, queue: map<string, int>)
    ensures SummaryValid(Build(pushes, queue).0, Build(pushes, queue).1)
    decreases |pushes|
  {
    if pushes != [] {
      var init := pushes[..|pushes| - 1];
      BuildValid(init, queue);
      var (summary, names) := Build(init, queue);
      var (o, it) := pushes[|pushes| - 1];
      var (s', n') := AddToSummary(summary, names, o, it, queue);
      assert Build(pushes, queue) == (s', n');
      var e := s'[it.menuName];
      assert e.rows[..|e.rows| - 1] == (if it.menuName in summary then summary[it.menuName].rows else []);
    }
  }

  /** BuildSpec for one menu name. */
  lemma {:induction false} BuildEntry(pushes: seq<(BoardOrder, SummaryItem)>, queue: map<string, int>, n: string)
    ensures var summary := Build(pushes, queue).0;
      (n in summary <==> RowsFor(pushes, n, queue) != [])
      && (n in summary ==> summary[n].count == UnitsFor(pushes, n) && summary[n].rows == RowsFor(pushes, n, queue))
      && (n !in summary ==> UnitsFor(pushes, n) == 0)
    decreases |pushes|
  {
    if pushes != [] {
      var init := pushes[..|pushes| - 1];
      BuildEntry(init, queue, n);
      var (summary, names) := Build(init, queue);
      var (o, it) := pushes[|pushes| - 1];
      assert Build(pushes, queue) == AddToSummary(summary, names, o, it, queue);
      assert RowsFor(pushes, n, queue) == RowsFor(init, n, queue)
        + (if it.menuName == n then [SummaryRow(o.orderId, it.preference, it.notes, QueueOf(o, queue))] else []);
      assert UnitsFor(pushes, n) == UnitsFor(init, n) + (if it.menuName == n then Units(it) else 0);
    }
  }


  lemma BuildSnoc(pushes: seq<(BoardOrder, SummaryItem)>, o: BoardOrder, it: SummaryItem, queue: map<string, int>)
    ensures Build(pushes + [(o, it)], queue)
         == AddToSummary(Build(pushes, queue).0, Build(pushes, queue).1, o, it, queue)
  {
    assert (pushes + [(o, it)])[..|pushes|] == pushes;
  }

  lemma PushesSnoc(orders: seq<BoardOrder>, i: nat)
    requires i < |orders|
    ensures Pushes(orders[..i + 1]) == Pushes(orders[..i]) + TicketPushes(orders[i])
  {
    assert orders[..i + 1][..i] == orders[..i];
  }

  /** The items of one ticket added to the summary in order. */
  method AddTicket(summary: map<string, Entry>, names: seq<string>, o: BoardOrder, items: seq<SummaryItem>,
                   queue: map<string, int>, ghost done: seq<(BoardOrder, SummaryItem)>)
    returns (summary': map<string, Entry>, names': seq<string>)
    requires (summary, names) == Build(done, queue)
    ensures (summary', names') == Build(done + Tagged(o, items), queue)
  {
    summary', names' := summary, names;
    ghost var mine := Tagged(o, items);
    var k := 0;
    assert done + mine[..k] == done;
    while k < |items|
      invariant 0 <= k <= |items|
      invariant (summary', names') == Build(done + mine[..k], queue)
    {
      assert done + mine[..k + 1] == (done + mine[..k]) + [(o, items[k])];
      BuildSnoc(done + mine[..k], o, items[k], queue);
      var next := AddToSummary(summary', names', o, items[k], queue);
      summary', names' := next.0, next.1;
      k := k + 1;
    }
    assert mine[..k] == mine;
  }

  /** updateSummary's aggregation over the active tickets, in order. */
  method Summarize(orders: seq<BoardOrder>, queue: map<string, int>)
    returns (summary: map<string, Entry>, names: seq<string>)
    ensures (summary, names) == Build(Pushes(orders), queue)
  {
    summary, names := map[], [];
    var i := 0;
    while i < |orders|
      invariant 0 <= i <= |orders|
      invariant (summary, names) == Build(Pushes(orders[..i]), queue)
    {
      PushesSnoc(orders, i);
      summary, names := SummarizeTicket(summary, names, orders[i], queue, Pushes(orders[..i]));
      i := i + 1;
    }
    assert orders[..i] == orders;
  }

  /** One ticket of the loop: its items when it is active, nothing
      otherwise. */
  method SummarizeTicket(summary: map<string, Entry>, names: seq<string>, o: BoardOrder, queue: map<string, int>,
                         ghost done: seq<(BoardOrder, SummaryItem)>)
    returns (summary': map<string, Entry>, names': seq<string>)
    requires (summary, names) == Build(done, queue)
    ensures (summary', names') == Build(done + TicketPushes(o), queue)
  {
    if ActiveOnBoard(o) {
      summary', names' := AddTicket(summary, names, o, SummaryLines(o), queue, done);
    } else {
      assert done + TicketPushes(o) == done;
      summary', names' := summary, names;
    }
  }

  /** The sort key of a queue number, with Infinity above every number
      below the cap. */
  function QueueKey(q: Option<int>, cap: int): int {
    if q.Some? then q.value else cap
  }

  /** No row before index i has the id of row i. */
  predicate FirstOfItsId(rows: seq<SummaryRow>, i: nat)
    requires i < |rows|
  {
    forall j :: 0 <= j < i ==> rows[j].orderId != rows[i].orderId
  }

  function Ids(rows: seq<SummaryRow>): set<string> {
    set r | r in rows :: r.orderId
  }

  /** `filter((order, index, self) => index === self.findIndex(o => o.id === order.id))`. */
  function DedupeById(rows: seq<SummaryRow>): (r: seq<SummaryRow>)
    ensures forall i, j :: 0 <= i < j < |r| ==> r[i].orderId != r[j].orderId
    ensures forall x :: x in r ==> x in rows
    ensures Ids(r) == Ids(rows)
    decreases |rows|
  {
    if rows == [] then []
    else
      var init := rows[..|rows| - 1];
      var last := rows[|rows| - 1];
      var kept := DedupeById(init);
      assert forall x :: x in rows <==> x in init || x == last;
      assert Ids(rows) == Ids(init) + {last.orderId};
      if last.orderId in Ids(kept) then kept
      else
        assert forall x :: x in kept + [last] <==> x in kept || x == last;
        assert Ids(kept + [last]) == Ids(kept) + {last.orderId};
        kept + [last]
  }

  /** The first row of each ticket is the one that stays. */
  lemma {:induction false} DedupeKeepsFirst(rows: seq<SummaryRow>, i: nat)
    requires i < |rows| && FirstOfItsId(rows, i)
    ensures rows[i] in DedupeById(rows)
    decreases |rows|
  {
    var init := rows[..|rows| - 1];
    var last := rows[|rows| - 1];
    var kept := DedupeById(init);
    if i == |rows| - 1 {
      assert forall x :: x in init ==> x.orderId != last.orderId by {
        forall x | x in init ensures x.orderId != last.orderId {
          var j :| 0 <= j < |init| && init[j] == x;
          assert rows[j] == x;
        }
      }
      assert last.orderId !in Ids(init);
    } else {
      assert init[i] == rows[i];
      assert FirstOfItsId(init, i) by {
        forall j | 0 <= j < i ensures init[j].orderId != init[i].orderId {
          assert init[j] == rows[j];
        }
      }
      DedupeKeepsFirst(init, i);
    }
  }

  /** Deduplicating keeps an order already sorted by any key. */
  lemma {:induction false} DedupeKeepsSorted(rows: seq<SummaryRow>, key: SummaryRow -> int)
    requires SortedBy(rows, key)
    ensures SortedBy(DedupeById(rows), key)
    decreases |rows|
  {
    if rows != [] {
      var init := rows[..|rows| - 1];
      var last := rows[|rows| - 1];
      assert SortedBy(init, key) by {
        forall i, j | 0 <= i < j < |init| ensures key(init[i]) <= key(init[j]) {
          assert init[i] == rows[i] && init[j] == rows[j];
        }
      }
      DedupeKeepsSorted(init, key);
      var kept := DedupeById(init);
      forall x | x in kept ensures key(x) <= key(last) {
        var i :| 0 <= i < |init| && init[i] == x;
        assert rows[i] == x;
      }
    }
  }

  function RowKey(cap: int): SummaryRow -> int {
    (r: SummaryRow) => QueueKey(r.queue, cap)
  }

  /** A menu's table: its rows by queue number, then one row per ticket. */
  function ShownRows(rows: seq<SummaryRow>, cap: int): (r: seq<SummaryRow>)
    ensures forall i, j :: 0 <= i < j < |r| ==> r[i].orderId != r[j].orderId
    ensures forall x :: x in r ==> x in rows
    ensures Ids(r) == Ids(rows)
    ensures SortedBy(r, RowKey(cap))
  {
    var sorted := SortBy(rows, RowKey(cap));
    assert forall x :: x in sorted <==> x in multiset(rows);
    assert Ids(sorted) == Ids(rows);
    DedupeKeepsSorted(sorted, RowKey(cap));
    DedupeById(sorted)
  }

  /** One menu of the sidebar as shown. */
  datatype MenuSummary = MenuSummary(name: string, count: int, firstQueue: Option<int>, rows: seq<SummaryRow>)

  function EntryKey(summary: map<string, Entry>, cap: int, n: string): int {
    if n in summary then QueueKey(summary[n].firstQueue, cap) else cap
  }

  /** `Object.entries(summary).sort(...)`: the menus by smallest queue number,
      ties in insertion order. */
  function MenuOrder(summary: map<string, Entry>, names: seq<string>, cap: int): (r: seq<string>)
    ensures multiset(r) == multiset(names)
    ensures |r| == |names| && forall n :: n in r <==> n in names
    ensures SortedBy(r, n => EntryKey(summary, cap, n))
  {
    var r := SortBy(names, n => EntryKey(summary, cap, n));
    assert |r| == |multiset(r)|;
    assert forall n :: n in r <==> n in multiset(names);
    r
  }

  function ViewNames(v: seq<(string, Entry)>): seq<string> {
    seq(|v|, k requires 0 <= k < |v| => v[k].0)
  }

  /** `sortedSummary`: the entries by smallest queue number; each menu of
      the summary comes as often as `names` lists it. */
  function SummaryView(summary: map<string, Entry>, names: seq<string>, cap: int): (v: seq<(string, Entry)>)
    requires forall n :: n in names ==> n in summary
    ensures |v| == |names|
    ensures multiset(ViewNames(v)) == multiset(names)
    ensures forall i, j :: 0 <= i < j < |v| ==> QueueKey(v[i].1.firstQueue, cap) <= QueueKey(v[j].1.firstQueue, cap)
    ensures forall k :: 0 <= k < |v| ==> v[k].0 in names && v[k].0 in summary && v[k].1 == summary[v[k].0]
  {
    var order := MenuOrder(summary, names, cap);
    assert forall k :: 0 <= k < |order| ==> EntryKey(summary, cap, order[k]) == QueueKey(summary[order[k]].firstQueue, cap);
    var v := seq(|order|, k requires 0 <= k < |order| => (order[k], summary[order[k]]));
    assert ViewNames(v) == order;
    v
  }

  function SummaryNames(v: seq<MenuSummary>): seq<string> {
    seq(|v|, k requires 0 <= k < |v| => v[k].name)
  }

  /** The tickets updateSummary summarises: the renderable ones, oldest
      first (`validOrders`), with one push per item of an active ticket. */
  function BoardPushes(orders: seq<BoardOrder>): seq<(BoardOrder, SummaryItem)> {
    Pushes(Placed(orders))
  }

  /** The queue numbers of today's renderable tickets. */
  function BoardQueue(orders: seq<BoardOrder>, today: int): map<string, int> {
    QueueNumbers(TodaySorted(Placed(orders), today))
  }

  /** One more than the largest queue number: where `Infinity` sorts. */
  function BoardCap(orders: seq<BoardOrder>, today: int): int {
    |TodaySorted(Placed(orders), today)| + 1
  }

  /** The whole sidebar: every menu some active ticket orders appears once,
      with the units of its items, the smallest queue number among them
      and its table, and the menus come by that queue number. */
  function BoardSummary(orders: seq<BoardOrder>, today: int): (v: seq<MenuSummary>)
    ensures forall n :: multiset(SummaryNames(v))[n]
                        == if RowsFor(BoardPushes(orders), n, BoardQueue(orders, today)) != [] then 1 else 0
    ensures forall k :: 0 <= k < |v| ==>
              v[k].count == UnitsFor(BoardPushes(orders), v[k].name)
              && v[k].firstQueue == LowestQueue(RowsFor(BoardPushes(orders), v[k].name, BoardQueue(orders, today)))
              && v[k].rows == ShownRows(RowsFor(BoardPushes(orders), v[k].name, BoardQueue(orders, today)), BoardCap(orders, today))
    ensures forall i, j :: 0 <= i < j < |v| ==>
              QueueKey(v[i].firstQueue, BoardCap(orders, today)) <= QueueKey(v[j].firstQueue, BoardCap(orders, today))
  {
    var pushes, queue := BoardPushes(orders), BoardQueue(orders, today);
    var built := Build(pushes, queue);
    BuildSpec(pushes, queue);
    DistinctCounts(built.1);
    MenuSummaries(built.0, built.1, BoardCap(orders, today))
  }

  /** The sidebar entries of a summary, by smallest queue number: each menu
      as often as `names` lists it, with its count, its first queue number
      and its table. */
  function MenuSummaries(summary: map<string, Entry>, names: seq<string>, cap: int): (v: seq<MenuSummary>)
    requires forall n :: n in names ==> n in summary
    ensures |v| == |names|
    ensures multiset(SummaryNames(v)) == multiset(names)
    ensures forall k :: 0 <= k < |v| ==>
              v[k].name in summary && v[k].count == summary[v[k].name].count
              && v[k].firstQueue == summary[v[k].name].firstQueue
              && v[k].rows == ShownRows(summary[v[k].name].rows, cap)
    ensures forall i, j :: 0 <= i < j < |v| ==> QueueKey(v[i].firstQueue, cap) <= QueueKey(v[j].firstQueue, cap)
  {
    var view := SummaryView(summary, names, cap);
    var v := seq(|view|, k requires 0 <= k < |view| =>
      MenuSummary(view[k].0, view[k].1.count, view[k].1.firstQueue, ShownRows(view[k].1.rows, cap)));
    assert SummaryNames(v) == ViewNames(view);
    v
  }
}
