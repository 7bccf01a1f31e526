/** The daily view of the report page's ingredient tab (report.js): the
    log dates, given as dd/mm/yyyy, turned into yyyy-mm-dd; the range filter
    made by comparing those strings; the counters kept per day; and the
    newest-first order of the days. */
module ReportDates {
  import opened Wrappers
  import opened Text

  // ---------------------------------------------------------------------
  // String order
  // ---------------------------------------------------------------------

  /** JavaScript's `<` on strings: code unit by code unit, a proper prefix
      before the longer string. */
  predicate StrLess(a: string, b: string)
    decreases |a|
  {
    if a == [] then b != []
    else b != [] && (a[0] < b[0] || (a[0] == b[0] && StrLess(a[1..], b[1..])))
  }

  lemma {:induction false} StrLessIrreflexive(a: string)
    ensures !StrLess(a, a)
    decreases |a|
  {
    if a != [] {
      StrLessIrreflexive(a[1..]);
    }
  }

  lemma {:induction false} StrLessTransitive(a: string, b: string, c: string)
    requires StrLess(a, b) && StrLess(b, c)
    ensures StrLess(a, c)
    decreases |a|
  {
    if a != [] && a[0] == b[0] && b[0] == c[0] {
      StrLessTransitive(a[1..], b[1..], c[1..]);
    }
  }

  lemma {:induction false} StrLessTotal(a: string, b: string)
    ensures a == b || StrLess(a, b) || StrLess(b, a)
    decreases |a|
  {
    if a != [] && b != [] && a[0] == b[0] {
      StrLessTotal(a[1..], b[1..]);
      assert a == [a[0]] + a[1..] && b == [b[0]] + b[1..];
    }
  }

  /** Strings that start with pieces of the same length compare by the
      first pieces, and by the rest when those are equal. */
  lemma {:induction false} StrLessConcat(x1: string, x2: string, y1: string, y2: string)
    requires |x1| == |y1|
    ensures StrLess(x1 + x2, y1 + y2) <==> StrLess(x1, y1) || (x1 == y1 && StrLess(x2, y2))
    decreases |x1|
  {
    if x1 == [] {
      assert x1 + x2 == x2 && y1 + y2 == y2;
    } else {
      assert (x1 + x2)[1..] == x1[1..] + x2;
      assert (y1 + y2)[1..] == y1[1..] + y2;
      StrLessConcat(x1[1..], x2, y1[1..], y2);
      StrLessIrreflexive(x1);
      assert x1 == [x1[0]] + x1[1..] && y1 == [y1[0]] + y1[1..];
    }
  }

  // ---------------------------------------------------------------------
  // Digit strings
  // ---------------------------------------------------------------------

  function Pow10(n: nat): (p: nat)
    ensures p >= 1
  {
    if n == 0 then 1 else 10 * Pow10(n - 1)
  }

  lemma {:induction false} DigitsBelow(s: string)
    requires AllDigits(s)
    ensures DigitsValue(s) < Pow10(|s|)
    decreases |s|
  {
    if s != [] {
      DigitsBelow(s[..|s| - 1]);
    }
  }

  /** The first digit weighs 10^(n-1). */
  lemma {:induction false} DigitsValueHead(s: string)
    requires AllDigits(s) && s != []
    ensures DigitsValue(s) == DigitValue(s[0]) * Pow10(|s| - 1) + DigitsValue(s[1..])
    decreases |s|
  {
    if |s| > 1 {
      var init, tail := s[..|s| - 1], s[1..];
      DigitsValueHead(init);
      assert init[1..] == tail[..|tail| - 1];
      var d, p, r, e := DigitValue(s[0]), Pow10(|s| - 2), DigitsValue(init[1..]), DigitValue(s[|s| - 1]);
      assert DigitsValue(init) == d * p + r;
      assert DigitsValue(s) == 10 * DigitsValue(init) + e;
      assert DigitsValue(tail) == 10 * r + e;
      ShiftDigit(d, p, r, e);
    } else {
      assert s[..0] == [] && s[1..] == [];
    }
  }

  lemma ShiftDigit(d: int, p: int, r: int, e: int)
    ensures 10 * (d * p + r) + e == d * (10 * p) + (10 * r + e)
  {
  }

  lemma {:induction false} MulGap(a: nat, b: nat, p: nat)
    requires a < b
    ensures a * p + p <= b * p
    decreases p
  {
    if p > 0 {
      MulGap(a, b, p - 1);
      assert a * p == a * (p - 1) + a;
      assert b * p == b * (p - 1) + b;
    }
  }

  /** Between digit strings of one length, string order is numeric order. */
  lemma {:induction false} DigitsOrder(x: string, y: string)
    requires AllDigits(x) && AllDigits(y) && |x| == |y|
    ensures StrLess(x, y) <==> DigitsValue(x) < DigitsValue(y)
    decreases |x|
  {
    if x != [] {
      DigitsValueHead(x);
      DigitsValueHead(y);
      DigitsBelow(x[1..]);
      DigitsBelow(y[1..]);
      var p := Pow10(|x| - 1);
      var dx, dy := DigitValue(x[0]), DigitValue(y[0]);
      if dx < dy {
        MulGap(dx, dy, p);
      } else if dy < dx {
        MulGap(dy, dx, p);
      } else {
        DigitsOrder(x[1..], y[1..]);
      }
    }
  }

  /** ... and string equality is numeric equality. */
  lemma DigitsEqual(x: string, y: string)
    requires AllDigits(x) && AllDigits(y) && |x| == |y|
    ensures x == y <==> DigitsValue(x) == DigitsValue(y)
  {
    StrLessTotal(x, y);
    DigitsOrder(x, y);
    DigitsOrder(y, x);
  }

  // ---------------------------------------------------------------------
  // The two date spellings
  // ---------------------------------------------------------------------

  /** `/^\d{2}\/\d{2}\/\d{4}$/`. */
  predicate IsDdMmYyyy(s: string) {
    |s| == 10 && AllDigits(s[..2]) && s[2] == '/' && AllDigits(s[3..5]) && s[5] == '/' && AllDigits(s[6..])
  }

  /** yyyy-mm-dd, digits where the digits go. */
  predicate IsIsoDate(s: string) {
    |s| == 10 && AllDigits(s[..4]) && s[4] == '-' && AllDigits(s[5..7]) && s[7] == '-' && AllDigits(s[8..])
  }

  /** The calendar position yyyymmdd of a dd/mm/yyyy date. */
  function DateNumber(s: string): int
    requires IsDdMmYyyy(s)
  {
    DigitsValue(s[6..]) * 10000 + DigitsValue(s[3..5]) * 100 + DigitsValue(s[..2])
  }

  /** The calendar position yyyymmdd of an ISO date. */
  function IsoNumber(s: string): int
    requires IsIsoDate(s)
  {
    DigitsValue(s[..4]) * 10000 + DigitsValue(s[5..7]) * 100 + DigitsValue(s[8..])
  }

  /** The page's toIso: dd/mm/yyyy rearranged as yyyy-mm-dd, anything else
      left as it is. */
  function ToIso(s: string): (iso: string)
    ensures IsDdMmYyyy(s) ==> IsIsoDate(iso) && IsoNumber(iso) == DateNumber(s)
    ensures !IsDdMmYyyy(s) ==> iso == s
  {
    if IsDdMmYyyy(s) then
      var iso := s[6..] + "-" + s[3..5] + "-" + s[..2];
      assert iso[..4] == s[6..] && iso[5..7] == s[3..5] && iso[8..] == s[..2];
      iso
    else s
  }

  /** The rearrangement back, as the page shows a day. */
  function FromIso(iso: string): (s: string)
    requires IsIsoDate(iso)
    ensures IsDdMmYyyy(s)
  {
    var s := iso[8..] + "/" + iso[5..7] + "/" + iso[..4];
    assert s[..2] == iso[8..] && s[3..5] == iso[5..7] && s[6..] == iso[..4];
    s
  }

  /** The conversion loses nothing: a dd/mm/yyyy date comes back from its
      ISO form. */
  lemma FromIsoToIso(s: string)
    requires IsDdMmYyyy(s)
    ensures FromIso(ToIso(s)) == s
  {
    var iso := ToIso(s);
    assert iso[..4] == s[6..] && iso[5..7] == s[3..5] && iso[8..] == s[..2];
    assert s == s[..2] + "/" + s[3..5] + "/" + s[6..];
  }

  /** Comparing ISO dates as strings compares them as dates. */
  lemma IsoOrderIsDateOrder(x: string, y: string)
    requires IsIsoDate(x) && IsIsoDate(y)
    ensures StrLess(x, y) <==> IsoNumber(x) < IsoNumber(y)
  {
    assert x == x[..4] + x[4..] && x[4..] == x[4..5] + x[5..] && x[5..] == x[5..7] + x[7..];
    assert x[7..] == x[7..8] + x[8..];
    assert y == y[..4] + y[4..] && y[4..] == y[4..5] + y[5..] && y[5..] == y[5..7] + y[7..];
    assert y[7..] == y[7..8] + y[8..];
    assert x[4..5] == y[4..5] == "-" && x[7..8] == y[7..8] == "-";
    StrLessIrreflexive("-");
    StrLessConcat(x[..4], x[4..], y[..4], y[4..]);
    StrLessConcat(x[4..5], x[5..], y[4..5], y[5..]);
    StrLessConcat(x[5..7], x[7..], y[5..7], y[7..]);
    StrLessConcat(x[7..8], x[8..], y[7..8], y[8..]);
    DigitsOrder(x[..4], y[..4]);
    DigitsEqual(x[..4], y[..4]);
    DigitsOrder(x[5..7], y[5..7]);
    DigitsEqual(x[5..7], y[5..7]);
    DigitsOrder(x[8..], y[8..]);
    DigitsBelow(x[5..7]);
    DigitsBelow(y[5..7]);
    DigitsBelow(x[8..]);
    DigitsBelow(y[8..]);
  }

  /** Two log days in dd/mm/yyyy compare, once converted, as dates. */
  lemma ConvertedOrderIsDateOrder(a: string, b: string)
    requires IsDdMmYyyy(a) && IsDdMmYyyy(b)
    ensures StrLess(ToIso(a), ToIso(b)) <==> DateNumber(a) < DateNumber(b)
  {
    IsoOrderIsDateOrder(ToIso(a), ToIso(b));
  }

  // ---------------------------------------------------------------------
  // The range filter
  // ---------------------------------------------------------------------

  /** `(l.date || '').slice(0, 10)`: the day part of "dd/mm/yyyy HH:MM". */
  function RawDisplay(date: Option<string>): (raw: string)
    ensures date.None? ==> raw == ""
    ensures date.Some? ==> raw <= date.value && |raw| == Min10(|date.value|)
  {
    var s := date.GetOr("");
    if |s| <= 10 then s else s[..10]
  }

  function Min10(n: nat): nat { if n <= 10 then n else 10 }

  /** The range test on the converted day; `start` and `end` are "" when
      the range is not chosen, and the test applies only when both are. */
  predicate InRange(iso: string, start: string, end: string) {
    start == "" || end == "" || !(StrLess(iso, start) || StrLess(end, iso))
  }

  /** With both ends chosen, a dd/mm/yyyy day passes exactly when it lies
      between them, both ends included. */
  lemma InRangeIsBetweenDates(raw: string, start: string, end: string)
    requires IsDdMmYyyy(raw) && IsIsoDate(start) && IsIsoDate(end)
    ensures InRange(ToIso(raw), start, end) <==> IsoNumber(start) <= DateNumber(raw) <= IsoNumber(end)
  {
    IsoOrderIsDateOrder(ToIso(raw), start);
    IsoOrderIsDateOrder(end, ToIso(raw));
  }

  // ---------------------------------------------------------------------
  // Counting per day
  // ---------------------------------------------------------------------

  /** An inventory history entry: its date text, its ingredients_affected
      (None when absent) and its order id. */
  datatype LogEntry = LogEntry(date: Option<string>, ingredientsAffected: Option<int>, orderId: string)

  /** A cached kitchen order: its id and its items' menu names ("" for an
      item without one). */
  datatype KitchenOrder = KitchenOrder(orderId: string, menuNames: seq<string>)

  /** The counters of one day. The page keeps ingredients_affected and
      total_consumption, which receive the same additions; `consumption`
      stands for both. */
  datatype Day = Day(totalOrders: nat, consumption: int, uniqueMenus: set<string>, orderIds: set<string>)

  /** The named menus of the first cached order with this id, none when
      there is no such order. */
  function MenusOf(orders: seq<KitchenOrder>, orderId: string): (menus: set<string>)
    ensures "" !in menus
    ensures forall m :: m in menus ==> exists o :: o in orders && o.orderId == orderId && m in o.menuNames
    ensures (forall o :: o in orders ==> o.orderId != orderId) ==> menus == {}
    decreases |orders|
  {
    if orders == [] then {}
    else if orders[0].orderId == orderId then set m | m in orders[0].menuNames && m != ""
    else MenusOf(orders[1..], orderId)
  }

  /** The log is counted: it has a day, and the day is in range. */
  predicate Counted(l: LogEntry, start: string, end: string) {
    RawDisplay(l.date) != "" && InRange(ToIso(RawDisplay(l.date)), start, end)
  }

  predicate OnDay(l: LogEntry, d: string, start: string, end: string) {
    Counted(l, start, end) && RawDisplay(l.date) == d
  }

  function AddLog(days: map<string, Day>, l: LogEntry, orders: seq<KitchenOrder>): map<string, Day> {
    var d := RawDisplay(l.date);
    var before := if d in days then days[d] else Day(0, 0, {}, {});
    days[d := Day(before.totalOrders + 1, before.consumption + l.ingredientsAffected.GetOr(0),
                  before.uniqueMenus + MenusOf(orders, l.orderId), before.orderIds + {l.orderId})]
  }

  /** byDate after the logs in order. */
  function ByDate(logs: seq<LogEntry>, orders: seq<KitchenOrder>, start: string, end: string): map<string, Day>
    decreases |logs|
  {
    if logs == [] then map[]
    else
      var days := ByDate(logs[..|logs| - 1], orders, start, end);
      var l := logs[|logs| - 1];
      if Counted(l, start, end) then AddLog(days, l, orders) else days
  }

  /** byDate's keys in the order they were added. */
  function DayKeys(logs: seq<LogEntry>, start: string, end: string): seq<string>
    decreases |logs|
  {
    if logs == [] then []
    else
      var keys := DayKeys(logs[..|logs| - 1], start, end);
      var l := logs[|logs| - 1];
      if Counted(l, start, end) && RawDisplay(l.date) !in keys then keys + [RawDisplay(l.date)] else keys
  }

  /** The logs counted for day d, in order. */
  function LogsOn(logs: seq<LogEntry>, d: string, start: string, end: string): seq<LogEntry>
    decreases |logs|
  {
    if logs == [] then []
    else
      var l := logs[|logs| - 1];
      LogsOn(logs[..|logs| - 1], d, start, end) + (if OnDay(l, d, start, end) then [l] else [])
  }

  /** The counters a list of logs gives, read independently of the map. */
  function SumAffected(ls: seq<LogEntry>): int
    decreases |ls|
  {
    if ls == [] then 0 else SumAffected(ls[..|ls| - 1]) + ls[|ls| - 1].ingredientsAffected.GetOr(0)
  }

  function MenusOfAll(orders: seq<KitchenOrder>, ls: seq<LogEntry>): set<string>
    decreases |ls|
  {
    if ls == [] then {} else MenusOfAll(orders, ls[..|ls| - 1]) + MenusOf(orders, ls[|ls| - 1].orderId)
  }

  function IdsOf(ls: seq<LogEntry>): set<string>
    decreases |ls|
  {
    if ls == [] then {} else IdsOf(ls[..|ls| - 1]) + {ls[|ls| - 1].orderId}
  }

  function DayOf(ls: seq<LogEntry>, orders: seq<KitchenOrder>): Day {
    Day(|ls|, SumAffected(ls), MenusOfAll(orders, ls), IdsOf(ls))
  }

  /** A day is in the map exactly when some log is counted for it, and its
      counters are those of its logs: one order per log, the sum of their
      ingredients_affected, the menus of their orders and their ids. */
  lemma ByDateIsPerDay(logs: seq<LogEntry>, orders: seq<KitchenOrder>, start: string, end: string)
    ensures forall d :: d in ByDate(logs, orders, start, end) <==> LogsOn(logs, d, start, end) != []
    ensures forall d :: d in ByDate(logs, orders, start, end) ==>
      ByDate(logs, orders, start, end)[d] == DayOf(LogsOn(logs, d, start, end), orders)
  {
    forall d
      ensures d in ByDate(logs, orders, start, end) <==> LogsOn(logs, d, start, end) != []
      ensures d in ByDate(logs, orders, start, end) ==> ByDate(logs, orders, start, end)[d] == DayOf(LogsOn(logs, d, start, end), orders)
    {
      ByDateOnDay(logs, orders, start, end, d);
    }
  }

  /** The same for one day. */
  lemma {:induction false} ByDateOnDay(logs: seq<LogEntry>, orders: seq<KitchenOrder>, start: string, end: string, d: string)
    ensures d in ByDate(logs, orders, start, end) <==> LogsOn(logs, d, start, end) != []
    ensures d in ByDate(logs, orders, start, end) ==> ByDate(logs, orders, start, end)[d] == DayOf(LogsOn(logs, d, start, end), orders)
    decreases |logs|
  {
    if logs != [] {
      var init, l := logs[..|logs| - 1], logs[|logs| - 1];
      ByDateOnDay(init, orders, start, end, d);
      var on := LogsOn(init, d, start, end);
      var before := ByDate(init, orders, start, end);
      if OnDay(l, d, start, end) {
        var after := on + [l];
        assert LogsOn(logs, d, start, end) == after;
        assert after[..|on|] == on && after[|after| - 1] == l;
        assert DayOf(after, orders) == Day(|on| + 1, SumAffected(on) + l.ingredientsAffected.GetOr(0),
                                           MenusOfAll(orders, on) + MenusOf(orders, l.orderId), IdsOf(on) + {l.orderId});
        assert ByDate(logs, orders, start, end) == AddLog(before, l, orders);
      } else {
        assert LogsOn(logs, d, start, end) == on;
        assert ByDate(logs, orders, start, end) == if Counted(l, start, end) then AddLog(before, l, orders) else before;
      }
    }
  }

  /** The keys list each day of the map once. */
  lemma {:induction false} DayKeysAreTheDays(logs: seq<LogEntry>, orders: seq<KitchenOrder>, start: string, end: string)
    ensures forall d :: d in DayKeys(logs, start, end) <==> d in ByDate(logs, orders, start, end)
    ensures forall i, j :: 0 <= i < j < |DayKeys(logs, start, end)| ==> DayKeys(logs, start, end)[i] != DayKeys(logs, start, end)[j]
    decreases |logs|
  {
    if logs != [] {
      DayKeysAreTheDays(logs[..|logs| - 1], orders, start, end);
    }
  }

  lemma ByDateSnoc(logs: seq<LogEntry>, k: nat, orders: seq<KitchenOrder>, start: string, end: string)
    requires k < |logs|
    ensures ByDate(logs[..k + 1], orders, start, end)
      == if Counted(logs[k], start, end) then AddLog(ByDate(logs[..k], orders, start, end), logs[k], orders)
         else ByDate(logs[..k], orders, start, end)
    ensures DayKeys(logs[..k + 1], start, end)
      == if Counted(logs[k], start, end) && RawDisplay(logs[k].date) !in DayKeys(logs[..k], start, end)
         then DayKeys(logs[..k], start, end) + [RawDisplay(logs[k].date)]
         else DayKeys(logs[..k], start, end)
  {
    assert logs[..k + 1][..k] == logs[..k];
  }

  /** The forEach callback on one log. */
  method CountLog(days: map<string, Day>, keys: seq<string>, l: LogEntry, orders: seq<KitchenOrder>, start: string, end: string)
    returns (days': map<string, Day>, keys': seq<string>)
    requires forall d :: d in keys <==> d in days
    ensures days' == if Counted(l, start, end) then AddLog(days, l, orders) else days
    ensures keys' == if Counted(l, start, end) && RawDisplay(l.date) !in keys then keys + [RawDisplay(l.date)] else keys
  {
    days', keys' := days, keys;
    var raw := RawDisplay(l.date);
    var iso := ToIso(raw);
    if raw == "" {
      return;
    }
    if start != "" && end != "" {
      if StrLess(iso, start) || StrLess(end, iso) {
        return;
      }
    }
    if raw !in days' {
      days' := days'[raw := Day(0, 0, {}, {})];
      keys' := keys' + [raw];
    }
    var before := days'[raw];
    days' := days'[raw := Day(before.totalOrders + 1, before.consumption + l.ingredientsAffected.GetOr(0),
                              before.uniqueMenus + MenusOf(orders, l.orderId), before.orderIds + {l.orderId})];
  }

  /** The forEach over the logs. */
  method GroupByDate(logs: seq<LogEntry>, orders: seq<KitchenOrder>, start: string, end: string)
    returns (days: map<string, Day>, keys: seq<string>)
    ensures days == ByDate(logs, orders, start, end)
    ensures keys == DayKeys(logs, start, end)
  {
    days, keys := map[], [];
    for k := 0 to |logs|
      invariant days == ByDate(logs[..k], orders, start, end)
      invariant keys == DayKeys(logs[..k], start, end)
    {
      ByDateSnoc(logs, k, orders, start, end);
      DayKeysAreTheDays(logs[..k], orders, start, end);
      days, keys := CountLog(days, keys, logs[k], orders, start, end);
    }
    assert logs[..|logs|] == logs;
  }

  // ---------------------------------------------------------------------
  // Newest first
  // ---------------------------------------------------------------------

  /** No day comes before a day with a later converted date. */
  predicate NewestFirstOrder(keys: seq<string>) {
    forall i, j :: 0 <= i < j < |keys| ==> !StrLess(ToIso(keys[i]), ToIso(keys[j]))
  }

  /** k placed before the first day with an earlier converted date. */
  function InsertDay(k: string, s: seq<string>): (r: seq<string>)
    ensures multiset(r) == multiset(s) + multiset{k}
    ensures NewestFirstOrder(s) ==> NewestFirstOrder(r)
    decreases |s|
  {
    if s == [] || StrLess(ToIso(s[0]), ToIso(k)) then
      InsertInFront(k, s);
      [k] + s
    else
      var t := InsertDay(k, s[1..]);
      assert s == [s[0]] + s[1..];
      InsertBehind(k, s, t);
      [s[0]] + t
  }

  lemma InsertInFront(k: string, s: seq<string>)
    requires s == [] || StrLess(ToIso(s[0]), ToIso(k))
    ensures NewestFirstOrder(s) ==> NewestFirstOrder([k] + s)
  {
    if NewestFirstOrder(s) {
      var r := [k] + s;
      forall i, j | 0 <= i < j < |r| ensures !StrLess(ToIso(r[i]), ToIso(r[j])) {
        if i == 0 {
          assert r[j] == s[j - 1];
          StrLessIrreflexive(ToIso(s[0]));
          if StrLess(ToIso(k), ToIso(s[j - 1])) {
            StrLessTransitive(ToIso(s[0]), ToIso(k), ToIso(s[j - 1]));
          }
        } else {
          assert r[i] == s[i - 1] && r[j] == s[j - 1];
        }
      }
    }
  }

  lemma InsertBehind(k: string, s: seq<string>, t: seq<string>)
    requires s != [] && !StrLess(ToIso(s[0]), ToIso(k))
    requires multiset(t) == multiset(s[1..]) + multiset{k}
    requires NewestFirstOrder(s[1..]) ==> NewestFirstOrder(t)
    ensures NewestFirstOrder(s) ==> NewestFirstOrder([s[0]] + t)
  {
    if NewestFirstOrder(s) {
      var r := [s[0]] + t;
      forall j | 0 <= j < |t| ensures !StrLess(ToIso(s[0]), ToIso(t[j])) {
        assert t[j] in multiset(t);
        if t[j] != k {
          assert t[j] in multiset(s[1..]);
          var m :| 0 <= m < |s[1..]| && s[1..][m] == t[j];
          assert s[m + 1] == t[j];
        }
      }
      forall i, j | 0 <= i < j < |r| ensures !StrLess(ToIso(r[i]), ToIso(r[j])) {
        if i > 0 {
          assert r[i] == t[i - 1] && r[j] == t[j - 1];
        } else {
          assert r[j] == t[j - 1];
        }
      }
    }
  }

  /** The sort of the daily rows: descending by converted date. */
  function NewestFirst(keys: seq<string>): (r: seq<string>)
    ensures multiset(r) == multiset(keys)
    ensures forall i :: 0 <= i < |r| ==> r[i] in keys
    ensures NewestFirstOrder(r)
    decreases |keys|
  {
    if keys == [] then []
    else
      assert keys == keys[..|keys| - 1] + [keys[|keys| - 1]];
      var r := InsertDay(keys[|keys| - 1], NewestFirst(keys[..|keys| - 1]));
      assert forall i :: 0 <= i < |r| ==> r[i] in multiset(keys);
      r
  }

  /** When every day is a dd/mm/yyyy date, the rows run from the latest
      date to the earliest. */
  lemma NewestFirstIsByDate(keys: seq<string>)
    requires forall k :: k in keys ==> IsDdMmYyyy(k)
    ensures forall i, j :: 0 <= i < j < |NewestFirst(keys)| ==> DateNumber(NewestFirst(keys)[i]) >= DateNumber(NewestFirst(keys)[j])
  {
    var r := NewestFirst(keys);
    forall i, j | 0 <= i < j < |r| ensures DateNumber(r[i]) >= DateNumber(r[j]) {
      ConvertedOrderIsDateOrder(r[i], r[j]);
    }
  }
}
