/** The report service's GET /report: the done items sold between two dates,
    their total income and a per-menu breakdown sorted by quantity sold. */
module ReportService {
  import opened Wrappers
  import opened Text
  import opened Sorting
  import Lists

  // ---------------------------------------------------------------------
  // Dates as datetime.strptime(s, "%Y-%m-%d") reads them
  // ---------------------------------------------------------------------

  datatype Date = Date(year: int, month: int, day: int)

  predicate IsLeapYear(y: int) {
    y % 4 == 0 && (y % 100 != 0 || y % 400 == 0)
  }

  function DaysInMonth(y: int, m: int): int {
    if m == 2 then (if IsLeapYear(y) then 29 else 28)
    else if m in {4, 6, 9, 11} then 30
    else 31
  }

  /** The dates a Python datetime can hold. */
  predicate ValidDate(d: Date) {
    1 <= d.year <= 9999 && 1 <= d.month <= 12 && 1 <= d.day <= DaysInMonth(d.year, d.month)
  }

  /** %m: "1[0-2]|0[1-9]|[1-9]". */
  function MonthField(f: string): (r: Option<int>)
    ensures r.Some? ==> 1 <= r.value <= 12
  {
    if |f| == 1 && '1' <= f[0] <= '9' then Some(DigitValue(f[0]))
    else if |f| == 2 && f[0] == '0' && '1' <= f[1] <= '9' then Some(DigitValue(f[1]))
    else if |f| == 2 && f[0] == '1' && '0' <= f[1] <= '2' then Some(10 + DigitValue(f[1]))
    else None
  }

  /** %d: "3[01]|[12]\d|0[1-9]|[1-9]| [1-9]". */
  function DayField(f: string): (r: Option<int>)
    ensures r.Some? ==> 1 <= r.value <= 31
  {
    if |f| == 1 && '1' <= f[0] <= '9' then Some(DigitValue(f[0]))
    else if |f| == 2 && f[0] in {'0', ' '} && '1' <= f[1] <= '9' then Some(DigitValue(f[1]))
    else if |f| == 2 && f[0] in {'1', '2'} && IsDigit(f[1]) then Some(10 * DigitValue(f[0]) + DigitValue(f[1]))
    else if |f| == 2 && f[0] == '3' && '0' <= f[1] <= '1' then Some(30 + DigitValue(f[1]))
    else None
  }

  /** "%Y-%m-%d": four digits, a one- or two-digit month, a day, nothing
      after it, and a date that exists; None is the ValueError. */
  function ParseIsoDate(s: string): (r: Option<Date>)
    ensures r.Some? ==> ValidDate(r.value)
  {
    if |s| < 8 || !AllDigits(s[..4]) || s[4] != '-' then None
    else
      var k := if s[6] == '-' then 6 else if s[7] == '-' then 7 else 0;
      if k == 0 then None
      else match (MonthField(s[5..k]), DayField(s[k + 1..]))
        case (Some(m), Some(d)) =>
          var date := Date(DigitsValue(s[..4]), m, d);
          if ValidDate(date) then Some(date) else None
        case _ => None
  }

  /** Two digits, zero-padded. */
  function Digits2(n: int): (r: string)
    requires 0 <= n < 100
    ensures |r| == 2 && AllDigits(r)
  {
    [DigitChar(n / 10), DigitChar(n % 10)]
  }

  function Digits4(n: int): (r: string)
    requires 0 <= n < 10000
    ensures |r| == 4 && AllDigits(r)
  {
    [DigitChar(n / 1000), DigitChar(n / 100 % 10), DigitChar(n / 10 % 10), DigitChar(n % 10)]
  }

  /** date.isoformat(). */
  function FormatIsoDate(d: Date): string
    requires ValidDate(d)
  {
    Digits4(d.year) + "-" + Digits2(d.month) + "-" + Digits2(d.day)
  }

  lemma Digits4Value(n: int)
    requires 0 <= n < 10000
    ensures DigitsValue(Digits4(n)) == n
  {
    var s := Digits4(n);
    assert s[..3][..2][..1][..0] == [];
    assert s[..4] == s && s[..4][..3] == s[..3] && s[..3][..2] == s[..2] && s[..2][..1] == s[..1];
    assert n / 100 == 10 * (n / 1000) + n / 100 % 10;
    assert n / 10 == 10 * (n / 100) + n / 10 % 10;
    assert n == 10 * (n / 10) + n % 10;
    assert DigitsValue(s[..1]) == n / 1000;
    assert DigitsValue(s[..2]) == n / 100;
    assert DigitsValue(s[..3]) == n / 10;
  }

  /** Every date the service can hold reads back from its ISO form. */
  lemma ParseFormatIsoDate(d: Date)
    requires ValidDate(d)
    ensures ParseIsoDate(FormatIsoDate(d)) == Some(d)
  {
    var s := FormatIsoDate(d);
    assert s[..4] == Digits4(d.year);
    Digits4Value(d.year);
    assert s[5..7] == Digits2(d.month);
    assert s[8..] == Digits2(d.day);
  }

  /** A date that does not exist is refused even though its fields match. */
  lemma February30Rejected()
    ensures ParseIsoDate("2024-02-30") == None
    ensures ParseIsoDate("2024-2-9") == Some(Date(2024, 2, 9))
  {
    var s := "2024-02-30";
    assert s[..4] == "2024";
    assert DigitsValue("2024") == 2024 by {
      assert "2024"[..3] == "202" && "202"[..2] == "20" && "20"[..1] == "2" && "2"[..0] == "";
    }
    assert s[5..7] == "02" && s[8..] == "30";
    var t := "2024-2-9";
    assert t[..4] == "2024" && t[5..6] == "2" && t[7..] == "9";
  }

  // ---------------------------------------------------------------------
  // Timestamps and the selection
  // ---------------------------------------------------------------------

  /** 23:59:59.000000, the end of the range `replace(hour=23, minute=59, second=59)` sets. */
  const EndOfRange: int := 86_399_000_000

  /** A timestamp: its date and the microseconds since midnight. */
  datatype Stamp = Stamp(date: Date, micros: int)

  predicate DateBefore(a: Date, b: Date) {
    a.year < b.year || (a.year == b.year && (a.month < b.month || (a.month == b.month && a.day < b.day)))
  }

  predicate StampAtMost(a: Stamp, b: Stamp) {
    DateBefore(a.date, b.date) || (a.date == b.date && a.micros <= b.micros)
  }

  /** An order_items row joined with the status of its kitchen order (None
      when there is no kitchen order, which the inner join drops). */
  datatype SaleRow = SaleRow(
    menuName: string, quantity: Option<int>, unitPrice: Option<int>,
    timestamp: Stamp, kitchenStatus: Option<string>)

  // ---------------------------------------------------------------------
  // The menu filter: `menu_name ILIKE '%<name>%'`
  // ---------------------------------------------------------------------

  /** `s ILIKE p` as PostgreSQL reads it: `%` matches any run of characters,
      `_` any one character, `\` makes the character after it literal, and
      letters match regardless of case. */
  predicate ILike(s: string, p: string)
    decreases |s| + |p|
  {
    if p == [] then s == []
    else if p[0] == '%' then ILike(s, p[1..]) || (s != [] && ILike(s[1..], p))
    else if s == [] then false
    else if p[0] == '_' then ILike(s[1..], p[1..])
    else if p[0] == '\\' && |p| >= 2 then LowerChar(s[0]) == LowerChar(p[1]) && ILike(s[1..], p[2..])
    else LowerChar(s[0]) == LowerChar(p[0]) && ILike(s[1..], p[1..])
  }

  /** A name in which LIKE sees no wildcard and no escape. */
  predicate Literal(t: string) {
    forall i :: 0 <= i < |t| ==> t[i] != '%' && t[i] != '_' && t[i] != '\\'
  }

  lemma {:induction false} ILikeAnything(s: string)
    ensures ILike(s, "%")
    decreases |s|
  {
    if s != [] {
      ILikeAnything(s[1..]);
    }
  }

  lemma LowerTail(s: string)
    requires s != []
    ensures Lower(s[1..]) == Lower(s)[1..]
  {
  }

  /** `t%` matches exactly the strings that start with `t`, ignoring case. */
  lemma {:induction false} ILikePrefix(s: string, t: string)
    requires Literal(t)
    ensures ILike(s, t + "%") <==> |t| <= |s| && Lower(s)[..|t|] == Lower(t)
    decreases |t|
  {
    if t == [] {
      ILikeAnything(s);
      assert t + "%" == "%";
    } else {
      assert (t + "%")[0] == t[0] && (t + "%")[1..] == t[1..] + "%";
      assert Literal(t[1..]);
      if s != [] {
        ILikePrefix(s[1..], t[1..]);
        LowerTail(s);
        LowerTail(t);
        if |t| <= |s| {
          assert Lower(s)[..|t|] == [LowerChar(s[0])] + Lower(s)[1..][..|t| - 1];
          assert Lower(t) == [LowerChar(t[0])] + Lower(t)[1..];
        }
      }
    }
  }

  /** `%q` matches a string when `q` matches one of its suffixes. */
  lemma {:induction false} ILikeSuffix(s: string, q: string)
    ensures ILike(s, "%" + q) <==> exists k :: 0 <= k <= |s| && ILike(s[k..], q)
    decreases |s|
  {
    assert ("%" + q)[0] == '%' && ("%" + q)[1..] == q;
    assert s[0..] == s;
    if s != [] {
      ILikeSuffix(s[1..], q);
      forall k | 1 <= k <= |s|
        ensures s[k..] == s[1..][k - 1..]
      {
      }
      if ILike(s[1..], "%" + q) {
        var k :| 0 <= k <= |s[1..]| && ILike(s[1..][k..], q);
        assert s[1..][k..] == s[k + 1..];
      }
    }
  }

  lemma LowerSlice(s: string, k: nat, n: nat)
    requires k + n <= |s|
    ensures Lower(s)[k..k + n] == Lower(s[k..])[..n]
  {
  }

  /** A match of `t%` at some position is an occurrence of `t` there. */
  lemma ILikeAtIsOccurrence(s: string, t: string, k: nat)
    requires Literal(t) && k <= |s|
    ensures ILike(s[k..], t + "%") <==> OccursAt(Lower(s), Lower(t), k)
  {
    ILikePrefix(s[k..], t);
    if k + |t| <= |s| {
      LowerSlice(s, k, |t|);
    }
  }

  /** For a name with no wildcard the filter is the case-insensitive
      substring test. */
  lemma ILikeLiteralIsContains(s: string, t: string)
    requires Literal(t)
    ensures ILike(s, "%" + t + "%") <==> Contains(Lower(s), Lower(t))
  {
    assert "%" + t + "%" == "%" + (t + "%");
    ILikeSuffix(s, t + "%");
    if ILike(s, "%" + t + "%") {
      var k :| 0 <= k <= |s| && ILike(s[k..], t + "%");
      ILikeAtIsOccurrence(s, t, k);
    }
    if Contains(Lower(s), Lower(t)) {
      var k :| 0 <= k <= |Lower(s)| - |Lower(t)| && OccursAt(Lower(s), Lower(t), k);
      ILikeAtIsOccurrence(s, t, k);
    }
  }

  /** A menu filter of "_" is a wildcard, not a character to look for: every
      non-empty menu name passes it. */
  lemma UnderscoreFilterKeepsEveryName(s: string)
    requires s != []
    ensures ILike(s, "%" + "_" + "%")
  {
    assert ("%" + "_" + "%")[1..] == "_%";
    ILikeAnything(s[1..]);
    assert ILike(s, "_%");
  }

  /** The filters of the query: a done kitchen order, a timestamp between the
      start of the first day and 23:59:59 of the last, and, when a non-empty
      menu name was given, `menu_name ILIKE '%<name>%'`. */
  predicate Selected(r: SaleRow, start: Date, end: Date, menuName: Option<string>) {
    r.kitchenStatus == Some("done")
    && StampAtMost(Stamp(start, 0), r.timestamp) && StampAtMost(r.timestamp, Stamp(end, EndOfRange))
    && (menuName.None? || menuName.value == "" || ILike(r.menuName, "%" + menuName.value + "%"))
  }

  function Select(rows: seq<SaleRow>, start: Date, end: Date, menuName: Option<string>): (r: seq<SaleRow>)
    ensures |r| <= |rows|
    ensures forall x :: x in r ==> x in rows && Selected(x, start, end, menuName)
    ensures forall x :: x in rows && Selected(x, start, end, menuName) ==> x in r
    decreases |rows|
  {
    if rows == [] then []
    else
      var init := Select(rows[..|rows| - 1], start, end, menuName);
      var last := rows[|rows| - 1];
      assert forall x :: x in rows ==> x in rows[..|rows| - 1] || x == last;
      if Selected(last, start, end, menuName) then init + [last] else init
  }

  /** The query keeps each selected row as often as the table holds it, in
      the table's order; the row count total_order reports is fixed by it. */
  lemma {:induction false} SelectKeepsOrder(rows: seq<SaleRow>, start: Date, end: Date, menuName: Option<string>)
    ensures forall x :: multiset(Select(rows, start, end, menuName))[x]
                        == if Selected(x, start, end, menuName) then multiset(rows)[x] else 0
    ensures Lists.Subsequence(Select(rows, start, end, menuName), rows)
    decreases |rows|
  {
    if rows != [] {
      var prefix, last := rows[..|rows| - 1], rows[|rows| - 1];
      SelectKeepsOrder(prefix, start, end, menuName);
      var init := Select(prefix, start, end, menuName);
      assert rows == prefix + [last];
      assert multiset(rows) == multiset(prefix) + multiset{last};
      if Selected(last, start, end, menuName) {
        assert Select(rows, start, end, menuName) == init + [last];
        assert (init + [last])[..|init|] == init;
        assert multiset(init + [last]) == multiset(init) + multiset{last};
      } else {
        assert Select(rows, start, end, menuName) == init;
      }
    }
  }

  /** A row sold in the last second of the end day, after 23:59:59, is left
      out of the range. */
  lemma LastSecondExcluded(r: SaleRow, day: Date)
    requires r.kitchenStatus == Some("done") && r.timestamp == Stamp(day, EndOfRange + 1)
    ensures !Selected(r, day, day, None)
  {
  }

  // ---------------------------------------------------------------------
  // Totals and the per-menu breakdown
  // ---------------------------------------------------------------------

  function Qty(r: SaleRow): int { r.quantity.GetOr(0) }

  /** `(i.quantity or 0) * (i.unit_price or 0)` */
  function Amount(r: SaleRow): int { r.quantity.GetOr(0) * r.unitPrice.GetOr(0) }

  function TotalIncome(rows: seq<SaleRow>): int
    decreases |rows|
  {
    if rows == [] then 0 else TotalIncome(rows[..|rows| - 1]) + Amount(rows[|rows| - 1])
  }

  datatype Group = Group(menuName: string, quantity: int, unitPrice: Option<int>, total: int)

  function FindGroup(gs: seq<Group>, name: string): (r: Option<nat>)
    ensures r.Some? ==> r.value < |gs| && gs[r.value].menuName == name
    ensures r.None? ==> forall i :: 0 <= i < |gs| ==> gs[i].menuName != name
    decreases |gs|
  {
    if gs == [] then None
    else if gs[|gs| - 1].menuName == name then Some(|gs| - 1)
    else FindGroup(gs[..|gs| - 1], name)
  }

  /** One turn of the grouping loop: a new menu gets a group carrying this
      row's unit price; a known one adds quantity and amount. */
  function AddRow(gs: seq<Group>, r: SaleRow): seq<Group> {
    match FindGroup(gs, r.menuName)
    case Some(i) => gs[i := gs[i].(quantity := gs[i].quantity + Qty(r), total := gs[i].total + Amount(r))]
    case None => gs + [Group(r.menuName, Qty(r), r.unitPrice, Amount(r))]
  }

  /** `grouped.values()` in insertion order. */
  function Groups(rows: seq<SaleRow>): seq<Group>
    decreases |rows|
  {
    if rows == [] then [] else AddRow(Groups(rows[..|rows| - 1]), rows[|rows| - 1])
  }

  /** The rows sold under one menu name. */
  function Named(rows: seq<SaleRow>, name: string): (r: seq<SaleRow>)
    ensures forall x :: x in r ==> x.menuName == name
    decreases |rows|
  {
    if rows == [] then []
    else Named(rows[..|rows| - 1], name) + (if rows[|rows| - 1].menuName == name then [rows[|rows| - 1]] else [])
  }

  function SumQty(rows: seq<SaleRow>): int
    decreases |rows|
  {
    if rows == [] then 0 else SumQty(rows[..|rows| - 1]) + Qty(rows[|rows| - 1])
  }

  predicate NamesDistinct(gs: seq<Group>) {
    forall i, j :: 0 <= i < j < |gs| ==> gs[i].menuName != gs[j].menuName
  }

  predicate HasRow(rows: seq<SaleRow>, name: string) {
    exists j :: 0 <= j < |rows| && rows[j].menuName == name
  }

  /** What a group holds for the rows seen so far: one group per menu name,
      with the sums over that name's rows and the first row's unit price. */
  predicate GroupsDescribe(gs: seq<Group>, rows: seq<SaleRow>) {
    NamesDistinct(gs)
    && (forall i :: 0 <= i < |gs| ==>
          var named := Named(rows, gs[i].menuName);
          named != [] && gs[i].quantity == SumQty(named) && gs[i].total == TotalIncome(named)
          && gs[i].unitPrice == named[0].unitPrice)
    && (forall j :: 0 <= j < |rows| ==> FindGroup(gs, rows[j].menuName).Some?)
  }

  lemma NamedOfUnseen(rows: seq<SaleRow>, name: string)
    requires forall j :: 0 <= j < |rows| ==> rows[j].menuName != name
    ensures Named(rows, name) == []
    decreases |rows|
  {
    if rows != [] {
      NamedOfUnseen(rows[..|rows| - 1], name);
    }
  }

  lemma GroupsStep(gs: seq<Group>, rows: seq<SaleRow>, r: SaleRow)
    requires GroupsDescribe(gs, rows)
    ensures GroupsDescribe(AddRow(gs, r), rows + [r])
  {
    match FindGroup(gs, r.menuName)
    case Some(k) => GroupsStepFound(gs, rows, r, k);
    case None => GroupsStepNew(gs, rows, r);
  }

  /** A row of a menu that has a group adds to that group. */
  lemma GroupsStepFound(gs: seq<Group>, rows: seq<SaleRow>, r: SaleRow, k: nat)
    requires GroupsDescribe(gs, rows) && FindGroup(gs, r.menuName) == Some(k)
    ensures GroupsDescribe(AddRow(gs, r), rows + [r])
  {
    var rows' := rows + [r];
    assert rows'[..|rows'| - 1] == rows;
    var gs' := AddRow(gs, r);
    forall i | 0 <= i < |gs'|
      ensures var named := Named(rows', gs'[i].menuName);
        named != [] && gs'[i].quantity == SumQty(named) && gs'[i].total == TotalIncome(named)
        && gs'[i].unitPrice == named[0].unitPrice
    {
      var old' := Named(rows, gs[i].menuName);
      if i == k {
        var named := old' + [r];
        assert Named(rows', gs'[i].menuName) == named;
        assert named[..|named| - 1] == old';
      } else {
        assert Named(rows', gs'[i].menuName) == old';
      }
    }
    forall j | 0 <= j < |rows'| ensures FindGroup(gs', rows'[j].menuName).Some? {
      if j < |rows| {
        var n := rows[j].menuName;
        var at := FindGroup(gs, n).value;
        assert gs'[at].menuName == n;
      } else {
        assert gs'[k].menuName == r.menuName;
      }
    }
  }

  /** A row of a new menu opens a group of its own at the end. */
  lemma GroupsStepNew(gs: seq<Group>, rows: seq<SaleRow>, r: SaleRow)
    requires GroupsDescribe(gs, rows) && FindGroup(gs, r.menuName).None?
    ensures GroupsDescribe(AddRow(gs, r), rows + [r])
  {
    var rows' := rows + [r];
    assert rows'[..|rows'| - 1] == rows;
    var gs' := AddRow(gs, r);
    forall j | 0 <= j < |rows| ensures rows[j].menuName != r.menuName {
      var at := FindGroup(gs, rows[j].menuName).value;
      assert gs[at].menuName == rows[j].menuName;
    }
    NamedOfUnseen(rows, r.menuName);
    forall i | 0 <= i < |gs'|
      ensures var named := Named(rows', gs'[i].menuName);
        named != [] && gs'[i].quantity == SumQty(named) && gs'[i].total == TotalIncome(named)
        && gs'[i].unitPrice == named[0].unitPrice
    {
      if i == |gs| {
        assert Named(rows', r.menuName) == [r];
        assert [r][..0] == [];
      } else {
        assert Named(rows', gs'[i].menuName) == Named(rows, gs[i].menuName);
      }
    }
    forall j | 0 <= j < |rows'| ensures FindGroup(gs', rows'[j].menuName).Some? {
      if j < |rows| {
        var at := FindGroup(gs, rows[j].menuName).value;
        assert gs'[at].menuName == rows[j].menuName;
      } else {
        assert gs'[|gs|].menuName == r.menuName;
      }
    }
  }

  /** The breakdown has one group per menu name sold, each holding that
      menu's quantity and amount sums and the unit price of its first row. */
  lemma {:induction false} GroupsSpec(rows: seq<SaleRow>)
    ensures GroupsDescribe(Groups(rows), rows)
    decreases |rows|
  {
    if rows != [] {
      var init := rows[..|rows| - 1];
      GroupsSpec(init);
      GroupsStep(Groups(init), init, rows[|rows| - 1]);
      assert init + [rows[|rows| - 1]] == rows;
    }
  }

  function SumTotals(gs: seq<Group>): int
    decreases |gs|
  {
    if gs == [] then 0 else SumTotals(gs[..|gs| - 1]) + gs[|gs| - 1].total
  }

  lemma {:induction false} SumTotalsUpdate(gs: seq<Group>, i: int, g: Group)
    requires 0 <= i < |gs|
    ensures SumTotals(gs[i := g]) == SumTotals(gs) - gs[i].total + g.total
    decreases |gs|
  {
    var n := |gs| - 1;
    if i < n {
      assert gs[i := g][..n] == gs[..n][i := g];
      SumTotalsUpdate(gs[..n], i, g);
    } else {
      assert gs[i := g][..n] == gs[..n];
    }
  }

  /** The group totals add up to total_income. */
  lemma {:induction false} GroupTotalsAddUp(rows: seq<SaleRow>)
    ensures SumTotals(Groups(rows)) == TotalIncome(rows)
    decreases |rows|
  {
    if rows != [] {
      var init := rows[..|rows| - 1];
      var r := rows[|rows| - 1];
      GroupTotalsAddUp(init);
      var gs := Groups(init);
      assert Groups(rows) == AddRow(gs, r);
      assert TotalIncome(rows) == TotalIncome(init) + Amount(r);
      match FindGroup(gs, r.menuName)
      case Some(k) =>
        SumTotalsUpdate(gs, k, gs[k].(quantity := gs[k].quantity + Qty(r), total := gs[k].total + Amount(r)));
      case None =>
        var gs' := gs + [Group(r.menuName, Qty(r), r.unitPrice, Amount(r))];
        assert gs'[..|gs'| - 1] == gs;
    }
  }

  // ---------------------------------------------------------------------
  // The endpoint
  // ---------------------------------------------------------------------

  datatype Report = Report(totalOrder: int, totalIncome: int, details: seq<Group>)

  datatype ReportError = BadDateFormat

  function ByQuantityDescending(g: Group): int { -g.quantity }

  function GetReport(startDate: string, endDate: string, menuName: Option<string>, rows: seq<SaleRow>)
    : Result<Report, ReportError>
  {
    match (ParseIsoDate(startDate), ParseIsoDate(endDate))
    case (Some(start), Some(end)) =>
      var items := Select(rows, start, end, menuName);
      Success(Report(|items|, TotalIncome(items), SortBy(Groups(items), ByQuantityDescending)))
    case _ => Failure(BadDateFormat)
  }

  /** A date that does not parse is a 400; otherwise total_order counts the
      selected rows, and the details are the groups of those rows, sorted by
      quantity from high to low, whose totals add up to total_income. */
  lemma GetReportSpec(startDate: string, endDate: string, menuName: Option<string>, rows: seq<SaleRow>)
    ensures GetReport(startDate, endDate, menuName, rows).Failure?
        <==> ParseIsoDate(startDate).None? || ParseIsoDate(endDate).None?
    ensures GetReport(startDate, endDate, menuName, rows).Success? ==>
      var rep := GetReport(startDate, endDate, menuName, rows).value;
      var items := Select(rows, ParseIsoDate(startDate).value, ParseIsoDate(endDate).value, menuName);
      rep.totalOrder == |items| && rep.totalIncome == TotalIncome(items)
      && multiset(rep.details) == multiset(Groups(items))
      && (forall i, j :: 0 <= i < j < |rep.details| ==> rep.details[i].quantity >= rep.details[j].quantity)
      && SumTotals(Groups(items)) == rep.totalIncome
      && GroupsDescribe(Groups(items), items)
  {
    if GetReport(startDate, endDate, menuName, rows).Success? {
      var items := Select(rows, ParseIsoDate(startDate).value, ParseIsoDate(endDate).value, menuName);
      var details := SortBy(Groups(items), ByQuantityDescending);
      assert SortedBy(details, ByQuantityDescending);
      forall i, j | 0 <= i < j < |details| ensures details[i].quantity >= details[j].quantity {
        assert ByQuantityDescending(details[i]) <= ByQuantityDescending(details[j]);
      }
      GroupTotalsAddUp(items);
      GroupsSpec(items);
    }
  }

  /** The grouping loop of get_report, updating the dict entry of each row's
      menu in place. */
  method GroupRows(items: seq<SaleRow>) returns (grouped: seq<Group>)
    ensures grouped == Groups(items)
  {
    grouped := [];
    var i := 0;
    while i < |items|
      invariant 0 <= i <= |items|
      invariant grouped == Groups(items[..i])
    {
      grouped := AddSaleRow(grouped, items[i]);
      assert items[..i + 1][..i] == items[..i];
      i := i + 1;
    }
    assert items[..i] == items;
  }

  /** One pass of the loop: a new entry for a new menu, then the row's
      quantity and amount added to the menu's entry. */
  method AddSaleRow(grouped: seq<Group>, r: SaleRow) returns (grouped': seq<Group>)
    ensures grouped' == AddRow(grouped, r)
  {
    grouped' := grouped;
    var at := FindGroup(grouped', r.menuName);
    if at.None? {
      grouped' := grouped' + [Group(r.menuName, 0, r.unitPrice, 0)];
      at := Some(|grouped'| - 1);
    }
    var k := at.value;
    grouped' := grouped'[k := grouped'[k].(quantity := grouped'[k].quantity + Qty(r))];
    grouped' := grouped'[k := grouped'[k].(total := grouped'[k].total + Amount(r))];
  }
}
