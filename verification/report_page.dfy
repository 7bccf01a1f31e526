/** The report page's table and helpers (report.js): status labels, the
    change-detection hash, and the paged, searchable table. */
module ReportPage {
  import opened Wrappers
  import opened Text
  import opened Lists
  import opened PageWindow

  // ---------------------------------------------------------------------
  // Status labels
  // ---------------------------------------------------------------------

  /** getStatusText: the Indonesian label of the five statuses it knows;
      any other status is shown as it is (the kitchen's "cancel" among
      them, since the table knows "cancelled"). */
  function StatusText(status: string): (shown: string)
    ensures status == "receive" ==> shown == "Diterima"
    ensures status == "making" ==> shown == "Sedang Dibuat"
    ensures status == "deliver" ==> shown == "Siap Antar"
    ensures status == "done" ==> shown == "Selesai"
    ensures status == "cancelled" ==> shown == "Dibatalkan"
    ensures status !in {"receive", "making", "deliver", "done", "cancelled"} ==> shown == status
  {
    if status == "receive" then "Diterima"
    else if status == "making" then "Sedang Dibuat"
    else if status == "deliver" then "Siap Antar"
    else if status == "done" then "Selesai"
    else if status == "cancelled" then "Dibatalkan"
    else status
  }

  /** The known statuses get labels no two of them share, and no label is
      itself one of the statuses: a label tells its status apart. */
  lemma StatusTextDistinguishes(a: string, b: string)
    requires a in {"receive", "making", "deliver", "done", "cancelled"}
    requires b in {"receive", "making", "deliver", "done", "cancelled"}
    ensures StatusText(a) == StatusText(b) ==> a == b
    ensures StatusText(a) !in {"receive", "making", "deliver", "done", "cancelled"}
  {
  }

  // ---------------------------------------------------------------------
  // The change-detection hash
  // ---------------------------------------------------------------------

  const TwoTo31: int := 0x8000_0000
  const TwoTo32: int := 0x1_0000_0000

  /** ECMAScript's ToInt32: the value modulo 2^32, read as a signed 32-bit
      integer. */
  function ToInt32(x: int): (r: int)
    ensures -TwoTo31 <= r < TwoTo31
    ensures (x - r) % TwoTo32 == 0
  {
    var m := x % TwoTo32;
    if m >= TwoTo31 then m - TwoTo32 else m
  }

  /** Two values 2^32 apart have the same ToInt32. */
  lemma ToInt32Congruent(x: int, y: int)
    requires (x - y) % TwoTo32 == 0
    ensures ToInt32(x) == ToInt32(y)
  {
    var k := (x - y) / TwoTo32;
    assert x == y + k * TwoTo32;
    ModShift(y, k);
  }

  lemma ModShift(y: int, k: int)
    ensures (y + k * TwoTo32) % TwoTo32 == y % TwoTo32
  {
  }

  /** The UTF-16 code units `charCodeAt` reads for one character: the
      character itself below U+10000, otherwise its surrogate pair. */
  function Units(c: char): (u: seq<int>)
    ensures |u| == 1 <==> c as int < 0x1_0000
    ensures |u| == 1 ==> u[0] == c as int
    ensures |u| == 2 ==> 0xD800 <= u[0] && 0xDC00 <= u[1] < 0xE000
    ensures 1 <= |u| <= 2
  {
    if c as int < 0x1_0000 then [c as int]
    else
      var v := c as int - 0x1_0000;
      [0xD800 + v / 0x400, 0xDC00 + v % 0x400]
  }

  /** A surrogate pair decodes back to its character. */
  lemma UnitsDecode(c: char)
    requires c as int >= 0x1_0000
    ensures 0x1_0000 + (Units(c)[0] - 0xD800) * 0x400 + (Units(c)[1] - 0xDC00) == c as int
  {
    var v := c as int - 0x1_0000;
    assert v == (v / 0x400) * 0x400 + v % 0x400;
  }

  /** The code units of a string: `key.length` counts them and the loop
      reads them one by one. */
  function Utf16(s: string): (u: seq<int>)
    ensures |s| <= |u| <= 2 * |s|
    decreases |s|
  {
    if s == [] then [] else Utf16(s[..|s| - 1]) + Units(s[|s| - 1])
  }

  /** A character above U+FFFF is two code units, so it takes two steps of
      the loop. */
  lemma AstralCharIsTwoUnits()
    ensures Utf16("\U{1F375}") == [0xD83C, 0xDF75]
  {
    assert "\U{1F375}"[..0] == [];
  }

  /** One step of the loop as written: `((hash << 5) - hash) + code | 0`,
      where `<<` first takes ToInt32 of its operand and of its result. */
  function HashStep(h: int, code: int): int {
    ToInt32(ToInt32(ToInt32(h) * 32) - h + code)
  }

  /** The hash of a sequence of code units after the loop has read all of
      them. */
  function HashOf(units: seq<int>): int
    decreases |units|
  {
    if units == [] then 0 else HashStep(HashOf(units[..|units| - 1]), units[|units| - 1])
  }

  /** The polynomial the loop evaluates: Σ units[i] · 31^(n-1-i). */
  function Poly(units: seq<int>): int
    decreases |units|
  {
    if units == [] then 0 else 31 * Poly(units[..|units| - 1]) + units[|units| - 1]
  }

  /** A step of the loop is one step of the polynomial, taken modulo 2^32. */
  lemma HashStepIsTimes31(h: int, code: int)
    requires -TwoTo31 <= h < TwoTo31
    ensures HashStep(h, code) == ToInt32(31 * h + code)
  {
    var s := ToInt32(h * 32);
    assert ToInt32(h) == h by { ToInt32Congruent(h, 0 + h); ToInt32Small(h); }
    assert ((s - h + code) - (31 * h + code)) % TwoTo32 == 0 by {
      assert (s - h + code) - (31 * h + code) == s - h * 32;
      ModNeg(h * 32, s);
    }
    ToInt32Congruent(s - h + code, 31 * h + code);
  }

  lemma ToInt32Small(h: int)
    requires -TwoTo31 <= h < TwoTo31
    ensures ToInt32(h) == h
  {
    if h < 0 {
      assert h % TwoTo32 == h + TwoTo32;
    }
  }

  lemma ModNeg(a: int, b: int)
    requires (a - b) % TwoTo32 == 0
    ensures (b - a) % TwoTo32 == 0
  {
    var k := (a - b) / TwoTo32;
    assert b - a == -k * TwoTo32;
    ModShift(0, -k);
  }

  /** The hash is the polynomial hash of the code units, wrapped to 32 bits
      (Java's String.hashCode). */
  lemma {:induction false} HashIsWrappedPoly(units: seq<int>)
    ensures HashOf(units) == ToInt32(Poly(units))
    decreases |units|
  {
    if units == [] {
      assert ToInt32(0) == 0;
    } else {
      var init, c := units[..|units| - 1], units[|units| - 1];
      HashIsWrappedPoly(init);
      HashStepIsTimes31(HashOf(init), c);
      var p := Poly(init);
      assert (31 * HashOf(init) + c - (31 * p + c)) % TwoTo32 == 0 by {
        var k := (HashOf(init) - p) / TwoTo32;
        assert HashOf(init) == p + k * TwoTo32 by {
          ModNeg(p, HashOf(init));
        }
        assert 31 * HashOf(init) + c - (31 * p + c) == (31 * k) * TwoTo32;
        ModShift(0, 31 * k);
      }
      ToInt32Congruent(31 * HashOf(init) + c, 31 * p + c);
    }
  }

  /** The fields the key is built from, already rendered as text (the
      quantity and the total after their `??` fallbacks). */
  datatype HashRow = HashRow(menuName: string, quantity: string, total: string)

  function RowKey(r: HashRow): string {
    r.menuName + "|" + r.quantity + "|" + r.total
  }

  function RowKeys(rows: seq<HashRow>): (keys: seq<string>)
    ensures |keys| == |rows| && forall k :: 0 <= k < |rows| ==> keys[k] == RowKey(rows[k])
  {
    seq(|rows|, k requires 0 <= k < |rows| => RowKey(rows[k]))
  }

  /** The loop of computeDataHash over the joined key's code units. */
  method HashKey(key: string) returns (hash: int)
    ensures hash == HashOf(Utf16(key))
    ensures -TwoTo31 <= hash < TwoTo31
  {
    var units := Utf16(key);
    hash := 0;
    var i := 0;
    while i < |units|
      invariant 0 <= i <= |units|
      invariant hash == HashOf(units[..i])
    {
      assert units[..i + 1][..i] == units[..i];
      hash := ToInt32(ToInt32(ToInt32(hash) * 32) - hash + units[i]);
      i := i + 1;
    }
    assert units[..i] == units;
    HashIsWrappedPoly(units);
  }

  /** computeDataHash: "0" for something that is not an array (None),
      otherwise the decimal form of the 32-bit hash of the code units of
      the rows' keys joined by "#". */
  method ComputeDataHash(arr: Option<seq<HashRow>>) returns (s: string)
    ensures arr.None? ==> s == "0"
    ensures arr.Some? ==> s == IntToString(ToInt32(Poly(Utf16(Join(RowKeys(arr.value), "#")))))
  {
    if arr.None? {
      return "0";
    }
    var key := Join(RowKeys(arr.value), "#");
    var hash := HashKey(key);
    HashIsWrappedPoly(Utf16(key));
    s := IntToString(hash);
  }

  // ---------------------------------------------------------------------
  // The table
  // ---------------------------------------------------------------------

  /** A table row, each text field "" where the row has none. */
  datatype ReportRow = ReportRow(menuName: string, flavor: string, orderId: string, date: string, statusText: string)

  /** The ingredient view searches five fields, the others the menu name
      only; the term is lower-cased already. */
  predicate RowMatches(row: ReportRow, term: string, ingredientView: bool) {
    if ingredientView then
      Contains(Lower(row.menuName), term) || Contains(Lower(row.flavor), term) || Contains(Lower(row.orderId), term)
      || Contains(Lower(row.date), term) || Contains(Lower(row.statusText), term)
    else Contains(Lower(row.menuName), term)
  }

  /** What filterTableData shows: everything for an empty term (it is not
      trimmed), otherwise the matching rows in their order. */
  function TableFilter(source: seq<ReportRow>, searchTerm: string, ingredientView: bool): (r: seq<ReportRow>)
    ensures searchTerm == "" ==> r == source
    ensures searchTerm != "" ==> forall row :: row in r <==> row in source && RowMatches(row, Lower(searchTerm), ingredientView)
    ensures searchTerm != "" ==> forall row ::
      multiset(r)[row] == if RowMatches(row, Lower(searchTerm), ingredientView) then multiset(source)[row] else 0
    ensures Subsequence(r, source)
    ensures |r| <= |source|
  {
    var term := Lower(searchTerm);
    if term == [] then
      SubsequenceOfSelf(source);
      source
    else
      KeepSpec(source, (row: ReportRow) => RowMatches(row, term, ingredientView));
      Keep(source, (row: ReportRow) => RowMatches(row, term, ingredientView))
  }

  class ReportTable {
    var currentPage: int
    var itemsPerPage: nat
    var filteredData: seq<ReportRow>
    /** None stands for a table with no data loaded (`!baseData`). */
    var baseData: Option<seq<ReportRow>>
    var ingredientView: bool

    constructor ()
      ensures currentPage == 1 && itemsPerPage == 10 && filteredData == [] && baseData == Some([])
      ensures !ingredientView
    {
      currentPage, itemsPerPage, filteredData, baseData, ingredientView := 1, 10, [], Some([]), false;
    }

    /** changePage: the page moves only onto one of the pages of the
        filtered rows. */
    method ChangePage(direction: int)
      requires itemsPerPage > 0
      modifies this
      ensures itemsPerPage == old(itemsPerPage)
      ensures var maxPage := CeilDiv(|filteredData|, itemsPerPage);
        currentPage == (if Target(old(currentPage), maxPage, direction).Some? then old(currentPage) + direction else old(currentPage))
      ensures currentPage != old(currentPage) ==> 1 <= currentPage <= CeilDiv(|filteredData|, itemsPerPage)
      ensures filteredData == old(filteredData) && baseData == old(baseData) && ingredientView == old(ingredientView)
    {
      var newPage := currentPage + direction;
      var maxPage := CeilDiv(|filteredData|, itemsPerPage);
      if newPage >= 1 && newPage <= maxPage {
        currentPage := newPage;
      }
    }

    /** filterTableData: nothing happens without data; otherwise the
        filtered rows replace the table and it goes back to page 1. */
    method FilterTableData(searchTerm: Option<string>)
      modifies this
      ensures baseData.None? ==> filteredData == old(filteredData) && currentPage == old(currentPage)
      ensures baseData.Some? ==> filteredData == TableFilter(baseData.value, searchTerm.GetOr(""), ingredientView)
      ensures baseData.Some? ==> currentPage == 1
      ensures baseData == old(baseData) && itemsPerPage == old(itemsPerPage) && ingredientView == old(ingredientView)
    {
      if baseData.None? {
        return;
      }
      var term := Lower(searchTerm.GetOr(""));
      var view := ingredientView;
      if term == [] {
        filteredData := baseData.value;
      } else {
        filteredData := Keep(baseData.value, (row: ReportRow) => RowMatches(row, term, view));
      }
      currentPage := 1;
    }
  }
}
