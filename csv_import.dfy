// The row logic of the CSV importer (frontend/src/components/CSVImport.jsx):
// column auto-detection from the header line, the import guards, the row
// filter that drops unusable rows and counts future-dated ones, the mapping of
// a row to a bulk-import item, and the keyword category mapping. Papa Parse,
// `parseFloat`, `new Date(...)` and the clock are parameters.
module CsvImport {
  import opened Base
  import opened Text
  import ExpenseModel

  /** The column chosen for each field ("" when none), and the transaction type. */
  datatype Mapping = Mapping(date: string, title: string, amount: string, category: string,
                             description: string, kind: string)

  /** The mapping the component starts from. */
  const Initial: Mapping := Mapping("", "", "", "", "", "expense")

  /** A parsed CSV row: header to cell. */
  type Row = map<string, string>

  /** `row[column]`, where a missing cell (undefined) is falsy like an empty one. */
  function Cell(row: Row, column: string): string {
    if column in row then row[column] else ""
  }

  // ---------------------------------------------------------------------------
  // Header auto-detection (CSVImport.jsx:57-75)

  predicate IsDateHeader(h: string) {
    Contains(ToLower(h), "date")
  }

  predicate IsTitleHeader(h: string) {
    var l := ToLower(h); Contains(l, "title") || Contains(l, "description") || Contains(l, "name")
  }

  predicate IsAmountHeader(h: string) {
    var l := ToLower(h); Contains(l, "amount") || Contains(l, "price") || Contains(l, "cost")
  }

  predicate IsCategoryHeader(h: string) {
    var l := ToLower(h); Contains(l, "category") || Contains(l, "type")
  }

  predicate IsNoteHeader(h: string) {
    var l := ToLower(h); Contains(l, "note") || Contains(l, "memo")
  }

  /** One `forEach` step over a header. */
  function DetectStep(m: Mapping, h: string): Mapping {
    m.(date := if IsDateHeader(h) then h else m.date,
       title := if IsTitleHeader(h) && m.title == "" then h else m.title,
       amount := if IsAmountHeader(h) then h else m.amount,
       category := if IsCategoryHeader(h) && m.category == "" then h else m.category,
       description := if IsNoteHeader(h) then h else m.description)
  }

  /** The mapping after visiting `hs` in order. */
  function Detected(hs: seq<string>, start: Mapping): Mapping
    decreases |hs|
  {
    if hs == [] then start else DetectStep(Detected(hs[..|hs| - 1], start), hs[|hs| - 1])
  }

  method DetectColumns(headers: seq<string>, start: Mapping) returns (m: Mapping)
    ensures m == Detected(headers, start)
    ensures m == Mapping(LastMatch(headers, IsDateHeader, start.date),
                         if start.title != "" then start.title else FirstMatch(headers, IsTitleHeader),
                         LastMatch(headers, IsAmountHeader, start.amount),
                         if start.category != "" then start.category else FirstMatch(headers, IsCategoryHeader),
                         LastMatch(headers, IsNoteHeader, start.description),
                         start.kind)
  {
    m := start;
    for i := 0 to |headers|
      invariant m == Detected(headers[..i], start)
    {
      assert headers[..i + 1][..i] == headers[..i];
      m := DetectStep(m, headers[i]);
    }
    assert headers[..|headers|] == headers;
    DetectedFields(headers, start);
  }

  /** The last header satisfying `p`, or `otherwise` when none does. */
  function LastMatch(hs: seq<string>, p: string -> bool, otherwise: string): (r: string)
    decreases |hs|
  {
    if hs == [] then otherwise
    else if p(hs[|hs| - 1]) then hs[|hs| - 1]
    else LastMatch(hs[..|hs| - 1], p, otherwise)
  }

  /** The first header satisfying `p`, or "" when none does. */
  function FirstMatch(hs: seq<string>, p: string -> bool): (r: string)
    decreases |hs|
  {
    if hs == [] then "" else if p(hs[0]) then hs[0] else FirstMatch(hs[1..], p)
  }

  /** Where `LastMatch` looks: the index of the last header satisfying `p`, or -1. */
  function LastIndex(hs: seq<string>, p: string -> bool): (r: int)
    ensures -1 <= r < |hs|
    ensures r >= 0 ==> p(hs[r])
    ensures forall k :: r < k < |hs| ==> !p(hs[k])
    decreases |hs|
  {
    if hs == [] then -1
    else if p(hs[|hs| - 1]) then |hs| - 1
    else LastIndex(hs[..|hs| - 1], p)
  }

  /** Where `FirstMatch` looks: the index of the first header satisfying `p`, or `|hs|`. */
  function FirstIndex(hs: seq<string>, p: string -> bool): (r: nat)
    ensures r <= |hs|
    ensures r < |hs| ==> p(hs[r])
    ensures forall k :: 0 <= k < r ==> !p(hs[k])
    decreases |hs|
  {
    if hs == [] then 0
    else if p(hs[0]) then 0
    else 1 + FirstIndex(hs[1..], p)
  }

  lemma {:induction false} LastMatchIsLast(hs: seq<string>, p: string -> bool, otherwise: string)
    ensures LastMatch(hs, p, otherwise) == if LastIndex(hs, p) < 0 then otherwise else hs[LastIndex(hs, p)]
    decreases |hs|
  {
    if hs != [] && !p(hs[|hs| - 1]) {
      LastMatchIsLast(hs[..|hs| - 1], p, otherwise);
    }
  }

  lemma {:induction false} FirstMatchIsFirst(hs: seq<string>, p: string -> bool)
    ensures FirstMatch(hs, p) == if FirstIndex(hs, p) == |hs| then "" else hs[FirstIndex(hs, p)]
    decreases |hs|
  {
    if hs != [] && !p(hs[0]) {
      FirstMatchIsFirst(hs[1..], p);
    }
  }

  /** A substring occurrence needs as many characters as the substring has. */
  lemma ContainsLength(s: string, sub: string)
    requires Contains(s, sub)
    ensures |s| >= |sub|
  {
  }

  /** Headers chosen for the title or the category are never empty, so the `!newMapping.title` test sees them. */
  lemma MatchedHeaderNonEmpty(h: string)
    ensures IsTitleHeader(h) ==> h != ""
    ensures IsCategoryHeader(h) ==> h != ""
  {
    if IsTitleHeader(h) {
      var l := ToLower(h);
      if Contains(l, "title") { ContainsLength(l, "title"); }
      else if Contains(l, "description") { ContainsLength(l, "description"); }
      else { ContainsLength(l, "name"); }
    }
    if IsCategoryHeader(h) {
      var l := ToLower(h);
      if Contains(l, "category") { ContainsLength(l, "category"); } else { ContainsLength(l, "type"); }
    }
  }

  lemma FirstMatchAppend(hs: seq<string>, p: string -> bool, h: string)
    ensures FirstMatch(hs + [h], p) == if FirstMatch(hs, p) != "" || exists i :: 0 <= i < |hs| && p(hs[i]) then FirstMatch(hs, p) else if p(h) then h else ""
    decreases |hs|
  {
    if hs != [] {
      assert (hs + [h])[1..] == hs[1..] + [h];
      FirstMatchAppend(hs[1..], p, h);
      if !p(hs[0]) {
        assert forall i :: 1 <= i < |hs| ==> hs[i] == hs[1..][i - 1];
        if exists i :: 1 <= i < |hs| && p(hs[i]) {
          var i :| 1 <= i < |hs| && p(hs[i]);
          assert p(hs[1..][i - 1]);
        }
      }
    }
  }

  /**
   * Date, amount and note columns take the LAST matching header; title and
   * category take the FIRST, and only when not already set.
   */
  lemma {:induction false} DetectedFields(hs: seq<string>, start: Mapping)
    ensures Detected(hs, start) ==
      Mapping(LastMatch(hs, IsDateHeader, start.date),
              if start.title != "" then start.title else FirstMatch(hs, IsTitleHeader),
              LastMatch(hs, IsAmountHeader, start.amount),
              if start.category != "" then start.category else FirstMatch(hs, IsCategoryHeader),
              LastMatch(hs, IsNoteHeader, start.description),
              start.kind)
    decreases |hs|
  {
    if hs != [] {
      var init := hs[..|hs| - 1];
      var h := hs[|hs| - 1];
      assert hs == init + [h];
      DetectedFields(init, start);
      FirstMatchAppend(init, IsTitleHeader, h);
      FirstMatchAppend(init, IsCategoryHeader, h);
      FirstMatchNonEmpty(init, IsTitleHeader);
      FirstMatchNonEmpty(init, IsCategoryHeader);
      MatchedHeaderNonEmpty(h);
    }
  }

  /** For the title and category tests, `FirstMatch` is "" exactly when nothing matched. */
  lemma {:induction false} FirstMatchNonEmpty(hs: seq<string>, p: string -> bool)
    requires p == IsTitleHeader || p == IsCategoryHeader
    ensures FirstMatch(hs, p) != "" <==> exists i :: 0 <= i < |hs| && p(hs[i])
    decreases |hs|
  {
    if hs != [] {
      MatchedHeaderNonEmpty(hs[0]);
      FirstMatchNonEmpty(hs[1..], p);
      if !p(hs[0]) {
        assert forall i :: 1 <= i < |hs| ==> hs[i] == hs[1..][i - 1];
        if exists i :: 0 <= i < |hs| && p(hs[i]) {
          var i :| 0 <= i < |hs| && p(hs[i]);
          assert p(hs[1..][i - 1]);
        }
      }
    }
  }

  // ---------------------------------------------------------------------------
  // Category mapping (CSVImport.jsx:185-206)

  /** `categoryMap`, in declaration order. */
  const CategoryTable: seq<(string, seq<string>)> := [
    ("food", ["food", "restaurant", "grocery", "dining", "lunch", "dinner", "breakfast"]),
    ("shopping", ["shopping", "retail", "store", "amazon", "online"]),
    ("housing", ["rent", "mortgage", "housing", "home", "property"]),
    ("transportation", ["transport", "gas", "fuel", "car", "uber", "taxi", "parking"]),
    ("entertainment", ["entertainment", "movie", "game", "fun", "hobby", "netflix"]),
    ("healthcare", ["health", "medical", "doctor", "pharmacy", "hospital"]),
    ("utilities", ["utility", "electric", "water", "internet", "phone", "bill"])
  ]

  /** `keywords.some(keyword => lower.includes(keyword))`. */
  predicate AnyKeyword(lower: string, keywords: seq<string>) {
    exists k :: k in keywords && Contains(lower, k)
  }

  /** A table of category names, each with its keywords. */
  type Table = seq<(string, seq<string>)>

  /** The `for ... of Object.entries(categoryMap)` loop from entry `i` on: the first entry with a keyword in `lower`. */
  function FirstCategory(table: Table, lower: string, i: nat): string
    decreases |table| - i
  {
    if i >= |table| then "other"
    else if AnyKeyword(lower, table[i].1) then table[i].0
    else FirstCategory(table, lower, i + 1)
  }

  /** The index of the first entry from `i` on with a keyword in `lower`, or `|table|`. */
  function CategoryIndex(table: Table, lower: string, i: nat): (r: nat)
    requires i <= |table|
    ensures i <= r <= |table|
    ensures r < |table| ==> AnyKeyword(lower, table[r].1)
    ensures forall k :: i <= k < r ==> !AnyKeyword(lower, table[k].1)
    decreases |table| - i
  {
    if i == |table| then i
    else if AnyKeyword(lower, table[i].1) then i
    else CategoryIndex(table, lower, i + 1)
  }

  lemma {:induction false} FirstCategoryAtIndex(table: Table, lower: string, i: nat)
    requires i <= |table|
    ensures FirstCategory(table, lower, i) ==
      var j := CategoryIndex(table, lower, i); if j == |table| then "other" else table[j].0
    decreases |table| - i
  {
    if i < |table| && !AnyKeyword(lower, table[i].1) {
      FirstCategoryAtIndex(table, lower, i + 1);
    }
  }

  lemma CategoryNamesValid()
    ensures forall i :: 0 <= i < |CategoryTable| ==> CategoryTable[i].0 in ExpenseModel.Categories - {"other"}
  {
  }

  function MapCategory(value: string): (r: string)
    ensures r in ExpenseModel.Categories
  {
    CategoryNamesValid();
    FirstCategoryAtIndex(CategoryTable, ToLower(value), 0);
    if value == "" then "other" else FirstCategory(CategoryTable, ToLower(value), 0)
  }

  /**
   * An empty value maps to "other"; otherwise the result is the first category,
   * in declaration order, one of whose keywords occurs in the lower-cased value,
   * and "other" when none does.
   */
  lemma MapCategorySpec(value: string)
    ensures var j := CategoryIndex(CategoryTable, ToLower(value), 0);
      MapCategory(value) == if value == "" || j == |CategoryTable| then "other" else CategoryTable[j].0
    ensures MapCategory(value) == "other" <==>
      value == "" || forall j :: 0 <= j < |CategoryTable| ==> !AnyKeyword(ToLower(value), CategoryTable[j].1)
  {
    CategoryNamesValid();
    FirstCategoryAtIndex(CategoryTable, ToLower(value), 0);
  }

  /** "grocery store" holds a food keyword and a shopping keyword. */
  lemma GroceryStoreKeywords()
    ensures AnyKeyword("grocery store", CategoryTable[0].1)
    ensures AnyKeyword("grocery store", CategoryTable[1].1)
  {
    var l := "grocery store";
    assert OccursAt(l, "grocery", 0);
    assert "grocery" in CategoryTable[0].1;
    assert OccursAt(l, "store", 8);
    assert "store" in CategoryTable[1].1;
  }

  /**
   * Declaration order decides: a value holding a food keyword maps to food
   * even when it also holds another category's keyword, as "grocery store" does.
   */
  lemma FoodKeywordWins(v: string)
    requires v != "" && AnyKeyword(ToLower(v), CategoryTable[0].1)
    ensures MapCategory(v) == "food"
  {
    MapCategorySpec(v);
  }

  // ---------------------------------------------------------------------------
  // The row filter (CSVImport.jsx:107-126)

  /** The built-ins the filter calls: `parseFloat` (None for NaN) and `new Date(s)` (None for an invalid date). */
  datatype Parsers = Parsers(parseAmount: string -> Option<int>, parseDate: string -> Option<int>)

  /** `!row[mapping.amount] || parseFloat(row[mapping.amount]) <= 0` is false: NaN passes. */
  predicate AmountPasses(row: Row, m: Mapping, ps: Parsers) {
    var cell := Cell(row, m.amount);
    cell != "" && !(ps.parseAmount(cell).Some? && ps.parseAmount(cell).value <= 0)
  }

  /** `new Date(row[mapping.date] || new Date()) > today`: an invalid date compares false. */
  predicate IsFuture(row: Row, m: Mapping, ps: Parsers, now: int, endOfToday: int) {
    var cell := Cell(row, m.date);
    var date := if cell == "" then Some(now) else ps.parseDate(cell);
    date.Some? && date.value > endOfToday
  }

  predicate Keep(row: Row, m: Mapping, ps: Parsers, now: int, endOfToday: int) {
    AmountPasses(row, m, ps) && !IsFuture(row, m, ps, now, endOfToday)
  }

  /** The rows the filter keeps, in order. */
  function Kept(rows: seq<Row>, m: Mapping, ps: Parsers, now: int, endOfToday: int): seq<Row>
    decreases |rows|
  {
    if rows == [] then []
    else
      var init := Kept(rows[..|rows| - 1], m, ps, now, endOfToday);
      if Keep(rows[|rows| - 1], m, ps, now, endOfToday) then init + [rows[|rows| - 1]] else init
  }

  /** Rows whose amount passed but whose date is in the future. */
  function FutureCount(rows: seq<Row>, m: Mapping, ps: Parsers, now: int, endOfToday: int): nat
    decreases |rows|
  {
    if rows == [] then 0
    else
      var r := rows[|rows| - 1];
      FutureCount(rows[..|rows| - 1], m, ps, now, endOfToday)
        + (if AmountPasses(r, m, ps) && IsFuture(r, m, ps, now, endOfToday) then 1 else 0)
  }

  /** Rows dropped for their amount. */
  function BadAmountCount(rows: seq<Row>, m: Mapping, ps: Parsers): nat
    decreases |rows|
  {
    if rows == [] then 0
    else BadAmountCount(rows[..|rows| - 1], m, ps) + (if AmountPasses(rows[|rows| - 1], m, ps) then 0 else 1)
  }

  /** The `.filter` with its `skippedCount++`. */
  method FilterRows(rows: seq<Row>, m: Mapping, ps: Parsers, now: int, endOfToday: int)
    returns (kept: seq<Row>, skipped: nat)
    ensures kept == Kept(rows, m, ps, now, endOfToday)
    ensures skipped == FutureCount(rows, m, ps, now, endOfToday)
  {
    kept, skipped := [], 0;
    for i := 0 to |rows|
      invariant kept == Kept(rows[..i], m, ps, now, endOfToday)
      invariant skipped == FutureCount(rows[..i], m, ps, now, endOfToday)
    {
      assert rows[..i + 1][..i] == rows[..i];
      var row := rows[i];
      if AmountPasses(row, m, ps) {
        if IsFuture(row, m, ps, now, endOfToday) {
          skipped := skipped + 1;
        } else {
          kept := kept + [row];
        }
      }
    }
    assert rows[..|rows|] == rows;
  }

  /** A row survives exactly when its amount passes and its date is not in the future; order is kept. */
  lemma {:induction false} KeptExact(rows: seq<Row>, m: Mapping, ps: Parsers, now: int, endOfToday: int)
    ensures forall r :: r in Kept(rows, m, ps, now, endOfToday) <==> r in rows && Keep(r, m, ps, now, endOfToday)
    ensures |Kept(rows, m, ps, now, endOfToday)| <= |rows|
    decreases |rows|
  {
    if rows != [] {
      var init := rows[..|rows| - 1];
      KeptExact(init, m, ps, now, endOfToday);
      assert rows == init + [rows[|rows| - 1]];
    }
  }

  /**
   * Every row is kept, dropped for its amount, or skipped for its date, and
   * only the last kind is counted in `skippedCount`.
   */
  lemma {:induction false} FilterPartition(rows: seq<Row>, m: Mapping, ps: Parsers, now: int, endOfToday: int)
    ensures |Kept(rows, m, ps, now, endOfToday)| + FutureCount(rows, m, ps, now, endOfToday) + BadAmountCount(rows, m, ps) == |rows|
    decreases |rows|
  {
    if rows != [] {
      FilterPartition(rows[..|rows| - 1], m, ps, now, endOfToday);
    }
  }

  // ---------------------------------------------------------------------------
  // The row map (CSVImport.jsx:127-134)

  const ImportedTitle: string := "Imported Transaction"

  /** One element of the `transactions` the importer posts. */
  datatype CsvItem = CsvItem(date: string, title: string, amount: Option<int>, category: string,
                             description: string, walletId: Id)

  function Abs(x: int): nat { if x < 0 then -x else x }

  /** `todayIso` is `new Date().toISOString().split('T')[0]`. */
  function ToItem(row: Row, m: Mapping, ps: Parsers, walletId: Id, todayIso: string): (r: CsvItem)
    ensures r.walletId == walletId && r.title != "" && r.category in ExpenseModel.Categories
    ensures r.amount.Some? ==> r.amount.value >= 0
    ensures r.amount.None? <==> ps.parseAmount(Cell(row, m.amount)).None?
  {
    var dateCell := Cell(row, m.date);
    var titleCell := Cell(row, m.title);
    var amount := ps.parseAmount(Cell(row, m.amount));
    CsvItem(if dateCell == "" then todayIso else dateCell,
            if titleCell == "" then ImportedTitle else titleCell,
            if amount.Some? then Some(Abs(amount.value)) else None,
            MapCategory(Cell(row, m.category)),
            Cell(row, m.description),
            walletId)
  }

  function Items(rows: seq<Row>, m: Mapping, ps: Parsers, walletId: Id, todayIso: string): (r: seq<CsvItem>)
    ensures |r| == |rows|
  {
    seq(|rows|, i requires 0 <= i < |rows| => ToItem(rows[i], m, ps, walletId, todayIso))
  }

  /** A kept row's amount is already positive (or NaN), so `Math.abs` never changes it; blank cells get the defaults. */
  lemma KeptItem(row: Row, m: Mapping, ps: Parsers, now: int, endOfToday: int, walletId: Id, todayIso: string)
    requires Keep(row, m, ps, now, endOfToday)
    ensures var it := ToItem(row, m, ps, walletId, todayIso);
      && it.amount == ps.parseAmount(Cell(row, m.amount))
      && (it.amount.Some? ==> it.amount.value > 0)
      && (Cell(row, m.title) == "" ==> it.title == "Imported Transaction")
      && (Cell(row, m.title) != "" ==> it.title == Cell(row, m.title))
      && (Cell(row, m.date) == "" ==> it.date == todayIso)
      && (Cell(row, m.category) == "" ==> it.category == "other")
  {
  }

  // ---------------------------------------------------------------------------
  // handleImport (CSVImport.jsx:86-146)

  /** What a click on Import does: an alert, or a POST of the items to an endpoint. */
  datatype Plan = Alert(message: string) | Post(endpoint: string, items: seq<CsvItem>, skipped: nat)

  const NoFileAlert := "Please select a CSV file"
  const NoWalletAlert := "Please select an account"
  const NoMappingAlert := "Please map at least Date and Amount columns"
  const NothingValidAlert := "No valid transactions to import. All records were either invalid or had future dates."

  function Endpoint(kind: string): string {
    if kind == "income" then "/api/income/bulk" else "/api/expenses/bulk"
  }

  /** The component's state when Import is clicked; `walletId` is None for the empty selection. */
  datatype ImportInput = ImportInput(hasFile: bool, walletId: Option<Id>, mapping: Mapping, rows: seq<Row>)

  /** The time inputs: the current instant, the end of today, and today's ISO date. */
  datatype Clock = Clock(now: int, endOfToday: int, todayIso: string)

  function PlanOf(inp: ImportInput, ps: Parsers, clock: Clock): Plan {
    if !inp.hasFile then Alert(NoFileAlert)
    else if inp.walletId.None? then Alert(NoWalletAlert)
    else if inp.mapping.date == "" || inp.mapping.amount == "" then Alert(NoMappingAlert)
    else
      var kept := Kept(inp.rows, inp.mapping, ps, clock.now, clock.endOfToday);
      if kept == [] then Alert(NothingValidAlert)
      else Post(Endpoint(inp.mapping.kind), Items(kept, inp.mapping, ps, inp.walletId.value, clock.todayIso),
                FutureCount(inp.rows, inp.mapping, ps, clock.now, clock.endOfToday))
  }

  method HandleImport(inp: ImportInput, ps: Parsers, clock: Clock) returns (plan: Plan)
    ensures plan == PlanOf(inp, ps, clock)
  {
    if !inp.hasFile { return Alert(NoFileAlert); }
    if inp.walletId.None? { return Alert(NoWalletAlert); }
    if inp.mapping.date == "" || inp.mapping.amount == "" { return Alert(NoMappingAlert); }
    var kept, skipped := FilterRows(inp.rows, inp.mapping, ps, clock.now, clock.endOfToday);
    if |kept| == 0 { return Alert(NothingValidAlert); }
    var items := Items(kept, inp.mapping, ps, inp.walletId.value, clock.todayIso);
    plan := Post(Endpoint(inp.mapping.kind), items, skipped);
  }

  /**
   * Nothing is posted without a file, a wallet and the date and amount
   * columns, nor when no row survives; a post carries one item per kept row,
   * all for the chosen wallet, and the count of future-dated rows.
   */
  lemma ImportPlan(inp: ImportInput, ps: Parsers, clock: Clock)
    ensures var p := PlanOf(inp, ps, clock);
      p.Post? <==>
        && inp.hasFile && inp.walletId.Some? && inp.mapping.date != "" && inp.mapping.amount != ""
        && exists r :: r in inp.rows && Keep(r, inp.mapping, ps, clock.now, clock.endOfToday)
    ensures var p := PlanOf(inp, ps, clock);
      p.Post? ==>
        && 1 <= |p.items| <= |inp.rows|
        && p.endpoint in {"/api/income/bulk", "/api/expenses/bulk"}
        && (forall k :: 0 <= k < |p.items| ==> p.items[k].walletId == inp.walletId.value)
        && |p.items| + p.skipped <= |inp.rows|
  {
    var kept := Kept(inp.rows, inp.mapping, ps, clock.now, clock.endOfToday);
    KeptExact(inp.rows, inp.mapping, ps, clock.now, clock.endOfToday);
    FilterPartition(inp.rows, inp.mapping, ps, clock.now, clock.endOfToday);
    if kept != [] { assert kept[0] in kept; }
  }
}
