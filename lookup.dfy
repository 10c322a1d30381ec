/**
  Looking a model number up in the brands' spreadsheets: the 富美家 main sheet
  that names a model's sub-sheet, the sub-sheets themselves, and the merged
  table built from every worksheet of another brand's spreadsheet, with the
  leading-zero fallback the message handler applies to it.
*/
module Lookup {
  import opened Wrappers
  import opened PyStr
  import opened OrderedDict
  import opened Search
  import opened Config

  const ModelColumn: string := "型號"
  const SubsheetColumn: string := "子表"
  const MainSheetTitle: string := "總表"
  const SubsheetTitle: string := "子表"
  /** The width numeric model numbers are zero-padded to. */
  const KeyWidth: nat := 10

  /** `str(x).strip().lower()`. */
  function NormModel(s: string): string {
    Lower(Strip(s))
  }

  /** `str(row.get(column, ""))`. */
  function Cell(row: Record, column: string): string {
    match Get(row, column)
    case None => ""
    case Some(v) => v
  }

  /** The row's model number, normalised. */
  function RowModel(row: Record): string {
    NormModel(Cell(row, ModelColumn))
  }

  /**
    A normalised query matches a normalised sheet model when both are digit strings
    equal after padding to `KeyWidth`, or when they are the same text.
  */
  predicate ModelsMatch(query: string, sheetModel: string) {
    if IsDigit(query) && IsDigit(sheetModel) then ZFill(query, KeyWidth) == ZFill(sheetModel, KeyWidth)
    else query == sheetModel
  }

  /** Normalising twice is normalising once. */
  lemma NormModelIdempotent(s: string)
    ensures NormModel(NormModel(s)) == NormModel(s)
  {
    LowerTrimmed(Strip(s));
    var t := Lower(Strip(s));
    forall i | 0 <= i < |t| ensures Lower(t)[i] == t[i] {
      LowerCharSpace(Strip(s)[i]);
    }
  }

  /**
    Digit model numbers of at most `KeyWidth` digits match exactly when they are
    equal once their leading zeros are dropped: "0123", "123" and "0000000123"
    are one model.
  */
  lemma DigitModelsMatchUpToLeadingZeros(query: string, sheetModel: string)
    requires IsDigit(query) && IsDigit(sheetModel)
    requires |query| <= KeyWidth && |sheetModel| <= KeyWidth
    ensures ModelsMatch(query, sheetModel) <==> LStripZeros(query) == LStripZeros(sheetModel)
  {
    ZFillDigitsEquiv(query, sheetModel, KeyWidth);
  }

  /** Text that is not all digits matches only itself. */
  lemma NonDigitModelsMatchExactly(query: string, sheetModel: string)
    requires !IsDigit(query)
    ensures ModelsMatch(query, sheetModel) <==> query == sheetModel
  {
  }

  // ---------------------------------------------------------------- main sheet

  /** The stripped sub-sheet cell of a main-sheet row. */
  function SubsheetOf(row: Record): string {
    Strip(Cell(row, SubsheetColumn))
  }

  /** A main-sheet row answers the query: its model matches and it names a listed sub-sheet. */
  predicate MainRowQualifies(row: Record, query: string) {
    && ModelsMatch(query, RowModel(row))
    && SubsheetOf(row) != ""
    && MainBrand + SubsheetOf(row) in Keys(SubsheetSheets)
  }

  /**
    The sub-sheet key `find_model_in_main_sheet` gives for `model`: from the first
    qualifying row of the 總表 worksheet; `None` when the 富美家 spreadsheet is not
    configured, cannot be opened, or has no qualifying row.
  */
  function MainSheetSubsheet(env: Env, drive: Drive, model: string): Option<string> {
    match SheetId(BrandSheets, env, MainBrand)
    case None => None
    case Some(id) =>
      match OpenWorksheet(drive, id, MainSheetTitle)
      case None => None
      case Some(rows) =>
        match FirstMatch(rows, MainRowQualifies, NormModel(model), 0)
        case None => None
        case Some(i) => Some(MainBrand + SubsheetOf(rows[i]))
  }

  /**
    One step of the main-sheet scan, where a digit query, once padded, stays
    padded for the rest of the scan: the scan's comparison agrees with
    `ModelsMatch` on the original query, and the padded query is still the query
    or its padding.
  */
  lemma MainScanStep(query: string, current: string, sheetModel: string)
    requires current == query || (IsDigit(query) && current == ZFill(query, KeyWidth))
    ensures var bothDigits := IsDigit(sheetModel) && IsDigit(current);
      var next := if bothDigits then ZFill(current, KeyWidth) else current;
      var other := if bothDigits then ZFill(sheetModel, KeyWidth) else sheetModel;
      && (next == other <==> ModelsMatch(query, sheetModel))
      && (next == query || (IsDigit(query) && next == ZFill(query, KeyWidth)))
  {
    if IsDigit(query) {
      ZFillDigits(query, KeyWidth);
      ZFillIdempotent(query, KeyWidth);
    }
  }

  /**
    `find_model_in_main_sheet`: scan the 總表 rows; a digit query is padded in
    place the first time it meets a digit sheet model, and stays padded.
    The result is the first qualifying row's sub-sheet key, a key of the
    sub-sheet table.
  */
  method FindModelInMainSheet(env: Env, drive: Drive, model: string) returns (subsheet: Option<string>)
    ensures subsheet == MainSheetSubsheet(env, drive, model)
    ensures subsheet.Some? ==> subsheet.value in Keys(SubsheetSheets)
  {
    var id := SheetId(BrandSheets, env, MainBrand);
    if id.None? {
      return None;
    }
    var data := OpenWorksheet(drive, id.value, MainSheetTitle);
    if data.None? {
      return None;
    }
    var rows := data.value;
    var query := NormModel(model);
    var current := query;
    var i := 0;
    while i < |rows|
      invariant 0 <= i <= |rows|
      invariant current == query || (IsDigit(query) && current == ZFill(query, KeyWidth))
      invariant FirstMatch(rows, MainRowQualifies, query, 0) == FirstMatch(rows, MainRowQualifies, query, i)
    {
      var sheetModel := RowModel(rows[i]);
      MainScanStep(query, current, sheetModel);
      if IsDigit(sheetModel) && IsDigit(current) {
        current := ZFill(current, KeyWidth);
        sheetModel := ZFill(sheetModel, KeyWidth);
      }
      var subsheetName := SubsheetOf(rows[i]);
      if current == sheetModel {
        if subsheetName != "" && MainBrand + subsheetName in Keys(SubsheetSheets) {
          return Some(MainBrand + subsheetName);
        }
      }
      i := i + 1;
    }
    return None;
  }

  /** The main sheet only ever names a listed sub-sheet. */
  lemma MainSheetSubsheetListed(env: Env, drive: Drive, model: string)
    ensures var key := MainSheetSubsheet(env, drive, model);
      key.Some? ==> key.value in Keys(SubsheetSheets)
  {
  }

  // ---------------------------------------------------------------- sub-sheets

  predicate RowMatches(row: Record, query: string) {
    ModelsMatch(query, RowModel(row))
  }

  /**
    The row `get_sheets_data_from_subsheet` gives: the first row of the sub-sheet's
    子表 worksheet whose model matches; `None` when the key is not a configured
    sub-sheet, the worksheet cannot be opened, or no row matches.
  */
  function SubsheetRow(env: Env, drive: Drive, subsheetKey: string, model: string): Option<Record> {
    match SheetId(SubsheetSheets, env, subsheetKey)
    case None => None
    case Some(id) =>
      match OpenWorksheet(drive, id, SubsheetTitle)
      case None => None
      case Some(rows) =>
        match FirstMatch(rows, RowMatches, NormModel(model), 0)
        case None => None
        case Some(i) => Some(rows[i])
  }

  /**
    `get_sheets_data_from_subsheet`: scan the 子表 rows, comparing padded digits
    first and exact text second; the row returned is the first whose model
    matches the query.
  */
  method GetSheetsDataFromSubsheet(env: Env, drive: Drive, subsheetKey: string, model: string)
    returns (row: Option<Record>)
    ensures row == SubsheetRow(env, drive, subsheetKey, model)
    ensures row.Some? ==> ModelsMatch(NormModel(model), RowModel(row.value))
  {
    var id := SheetId(SubsheetSheets, env, subsheetKey);
    if id.None? {
      return None;
    }
    var data := OpenWorksheet(drive, id.value, SubsheetTitle);
    if data.None? {
      return None;
    }
    var rows := data.value;
    var query := NormModel(model);
    var i := 0;
    while i < |rows|
      invariant 0 <= i <= |rows|
      invariant FirstMatch(rows, RowMatches, query, 0) == FirstMatch(rows, RowMatches, query, i)
    {
      var sheetModel := RowModel(rows[i]);
      if IsDigit(sheetModel) && IsDigit(query) {
        if ZFill(query, KeyWidth) == ZFill(sheetModel, KeyWidth) {
          return Some(rows[i]);
        }
      }
      if query == sheetModel {
        return Some(rows[i]);
      }
      i := i + 1;
    }
    return None;
  }

  /** A row found for a non-empty query has at least its 型號 cell, so it is never the empty dict. */
  lemma MatchedRowNonEmpty(env: Env, drive: Drive, subsheetKey: string, model: string)
    requires NormModel(model) != ""
    ensures var row := SubsheetRow(env, drive, subsheetKey, model);
      row.Some? ==> row.value != []
  {
    var row := SubsheetRow(env, drive, subsheetKey, model);
    if row.Some? {
      assert RowMatches(row.value, NormModel(model));
    }
  }

  // ---------------------------------------------------------------- brand tables

  /** A row's key in the brand table: its normalised model, zero-padded to `KeyWidth`. */
  function TableKey(row: Record): string {
    ZFill(RowModel(row), KeyWidth)
  }

  /** The row with headers stripped and lower-cased and cells stripped; later duplicate headers win. */
  function NormRecord(row: Record): Record {
    FromItems(seq(|row|, i requires 0 <= i < |row| => (Lower(Strip(row[i].0)), Strip(row[i].1))))
  }

  /** The row has a 型號 column (its cell may be empty). */
  predicate HasModel(row: Record) {
    ModelColumn in Keys(row)
  }

  /** The items the per-worksheet comprehension produces, in row order; rows without 型號 are skipped. */
  function SheetItems(rows: seq<Record>): seq<(string, Record)> {
    if rows == [] then []
    else RowItems(rows[0]) + SheetItems(rows[1..])
  }

  /** The items of every worksheet, in worksheet order. */
  function AllItems(sheets: seq<Worksheet>): seq<(string, Record)> {
    if sheets == [] then []
    else AllItems(sheets[..|sheets| - 1]) + SheetItems(sheets[|sheets| - 1].records)
  }

  /** `all_data` after every worksheet's table has been merged in. */
  function BrandTable(sheets: seq<Worksheet>): Dict<Record> {
    FromItems(AllItems(sheets))
  }

  /**
    `get_sheets_data`: the merged table of the brand's spreadsheet; `None` when the
    brand is not configured, the spreadsheet cannot be opened, or the table is empty.
  */
  function BrandData(env: Env, drive: Drive, brand: string): Option<Dict<Record>> {
    match SheetId(BrandSheets, env, brand)
    case None => None
    case Some(id) =>
      if id !in drive then None
      else
        var table := BrandTable(drive[id]);
        if table == [] then None else Some(table)
  }

  /** Merging one more worksheet's table gives the table of one more worksheet. */
  lemma MergeStep(sheets: seq<Worksheet>, i: nat)
    requires i < |sheets|
    ensures var merged := Update(FromItems(AllItems(sheets[..i])), FromItems(SheetItems(sheets[i].records)));
      merged == FromItems(AllItems(sheets[..i + 1])) && Distinct(Keys(merged))
  {
    var acc := AllItems(sheets[..i]);
    var items := SheetItems(sheets[i].records);
    DistinctUpdate([], acc);
    UpdateFromItems(FromItems(acc), items);
    UpdateConcat([], acc, items);
    assert sheets[..i + 1][..i] == sheets[..i];
    assert AllItems(sheets[..i + 1]) == acc + items;
    DistinctUpdate([], acc + items);
  }

  /**
    `get_sheets_data`: build each worksheet's table and merge it into the result
    with `dict.update`. The result is the table of all rows at once.
  */
  method GetSheetsData(env: Env, drive: Drive, brand: string) returns (data: Option<Dict<Record>>)
    ensures data == BrandData(env, drive, brand)
    ensures data.Some? ==> data.value != [] && Distinct(Keys(data.value))
  {
    var id := SheetId(BrandSheets, env, brand);
    if id.None? {
      return None;
    }
    if id.value !in drive {
      return None;
    }
    var sheets := drive[id.value];
    var allData: Dict<Record> := [];
    var i := 0;
    while i < |sheets|
      invariant 0 <= i <= |sheets|
      invariant allData == FromItems(AllItems(sheets[..i]))
      invariant Distinct(Keys(allData))
    {
      var formatted := FromItems(SheetItems(sheets[i].records));
      MergeStep(sheets, i);
      allData := Update(allData, formatted);
      i := i + 1;
    }
    assert sheets[..i] == sheets;
    if allData == [] {
      return None;
    }
    return Some(allData);
  }

  /** A table key is already normalised: stripping and lower-casing it changes nothing, and it is at least `KeyWidth` long. */
  lemma TableKeyNormalised(row: Record)
    ensures NormModel(TableKey(row)) == TableKey(row) && |TableKey(row)| >= KeyWidth
  {
    var s := Strip(Cell(row, ModelColumn));
    LowerTrimmed(s);
    ZFillTrimmed(Lower(s), KeyWidth);
    LowerZFillLower(s, KeyWidth);
  }

  /** Row `j` of `rows` has a 型號 column and table key `k`. */
  predicate KeyedRow(rows: seq<Record>, j: int, k: string) {
    0 <= j < |rows| && HasModel(rows[j]) && TableKey(rows[j]) == k
  }

  ghost predicate SheetHasKey(rows: seq<Record>, k: string) {
    exists j :: KeyedRow(rows, j, k)
  }

  /** The items of one row. */
  function RowItems(row: Record): seq<(string, Record)> {
    if HasModel(row) then [(TableKey(row), NormRecord(row))] else []
  }

  lemma RowItemsKeys(rows: seq<Record>, k: string)
    requires rows != []
    ensures k in Keys(RowItems(rows[0])) <==> KeyedRow(rows, 0, k)
  {
    var row := rows[0];
    if HasModel(row) {
      var items := [(TableKey(row), NormRecord(row))];
      assert Keys(items) == [TableKey(row)];
    } else {
      assert Keys(RowItems(row)) == [];
    }
  }

  lemma {:induction false} SheetItemsKeys(rows: seq<Record>, k: string)
    ensures k in Keys(SheetItems(rows)) <==> SheetHasKey(rows, k)
  {
    if rows != [] {
      var rest := rows[1..];
      SheetItemsKeys(rest, k);
      assert SheetItems(rows) == RowItems(rows[0]) + SheetItems(rest);
      KeysConcat(RowItems(rows[0]), SheetItems(rest));
      RowItemsKeys(rows, k);
      if SheetHasKey(rest, k) {
        var j :| KeyedRow(rest, j, k);
        assert rows[j + 1] == rest[j];
        assert KeyedRow(rows, j + 1, k);
      }
      if SheetHasKey(rows, k) {
        var j :| KeyedRow(rows, j, k);
        if j > 0 {
          assert rows[j] == rest[j - 1];
          assert KeyedRow(rest, j - 1, k);
        }
      }
    }
  }

  /** Some worksheet has a row keyed `k`. */
  ghost predicate AnySheetHasKey(sheets: seq<Worksheet>, k: string) {
    exists i :: 0 <= i < |sheets| && SheetHasKey(sheets[i].records, k)
  }

  /** Some element satisfies `p` exactly when one before the last does or the last does. */
  lemma ExistsSplit<T>(xs: seq<T>, init: seq<T>, p: T -> bool)
    requires xs != [] && init == xs[..|xs| - 1]
    ensures (exists i :: 0 <= i < |xs| && p(xs[i])) <==>
      (exists i :: 0 <= i < |init| && p(init[i])) || p(xs[|xs| - 1])
  {
    if exists i :: 0 <= i < |init| && p(init[i]) {
      var i :| 0 <= i < |init| && p(init[i]);
      assert xs[i] == init[i];
    }
    if exists i :: 0 <= i < |xs| && p(xs[i]) {
      var i :| 0 <= i < |xs| && p(xs[i]);
      if i < |init| {
        assert init[i] == xs[i];
      }
    }
  }

  lemma AnySheetSplit(sheets: seq<Worksheet>, k: string)
    requires sheets != []
    ensures AnySheetHasKey(sheets, k) <==>
      AnySheetHasKey(sheets[..|sheets| - 1], k) || SheetHasKey(sheets[|sheets| - 1].records, k)
  {
    ExistsSplit(sheets, sheets[..|sheets| - 1], (ws: Worksheet) => SheetHasKey(ws.records, k));
  }

  lemma {:induction false} AllItemsKeys(sheets: seq<Worksheet>, k: string)
    ensures k in Keys(AllItems(sheets)) <==> AnySheetHasKey(sheets, k)
  {
    if sheets != [] {
      var n := |sheets| - 1;
      var init := sheets[..n];
      var last := SheetItems(sheets[n].records);
      AllItemsKeys(init, k);
      SheetItemsKeys(sheets[n].records, k);
      assert AllItems(sheets) == AllItems(init) + last;
      KeysConcat(AllItems(init), last);
      AnySheetSplit(sheets, k);
    }
  }

  /**
    The keys of a brand table are exactly the padded models of the rows, over all
    worksheets, that have a 型號 column; each appears once, and each is already
    normalised.
  */
  lemma BrandTableKeys(sheets: seq<Worksheet>, k: string)
    ensures k in Keys(BrandTable(sheets)) <==> AnySheetHasKey(sheets, k)
    ensures Distinct(Keys(BrandTable(sheets)))
    ensures k in Keys(BrandTable(sheets)) ==> NormModel(k) == k && |k| >= KeyWidth
  {
    KeysUpdate([], AllItems(sheets));
    AppendNewMember([], Keys(AllItems(sheets)), k);
    DistinctUpdate([], AllItems(sheets));
    AllItemsKeys(sheets, k);
    if k in Keys(BrandTable(sheets)) {
      var i :| 0 <= i < |sheets| && SheetHasKey(sheets[i].records, k);
      var j :| KeyedRow(sheets[i].records, j, k);
      TableKeyNormalised(sheets[i].records[j]);
    }
  }

  /** Later rows win: a key's record is the one from the last row, over all worksheets in order, with that key. */
  lemma BrandTableLastWins(sheets: seq<Worksheet>, k: string)
    ensures Get(BrandTable(sheets), k) == LastValue(AllItems(sheets), k)
  {
    GetUpdate([], AllItems(sheets), k);
  }

  /** Keys in a table appear in the order their first row appears. */
  lemma BrandTableKeyOrder(sheets: seq<Worksheet>)
    ensures Keys(BrandTable(sheets)) == AppendNew([], Keys(AllItems(sheets)))
  {
    KeysUpdate([], AllItems(sheets));
  }

  // ---------------------------------------------------------------- model resolution

  /** The outcome of looking a model up in a brand table. */
  datatype Resolution =
    | Found(key: string, record: Record)
    | NotFound
    /** The listed key is not a key of the table (`sheet_data[...]` raises `KeyError`). */
    | KeyMissing

  /** `[str(k).strip().lower() for k in table.keys()]`. */
  function ModelKeys(table: Dict<Record>): (keys: seq<string>)
    ensures |keys| == |table| && forall i :: 0 <= i < |table| ==> keys[i] == NormModel(table[i].0)
  {
    seq(|table|, i requires 0 <= i < |table| => NormModel(table[i].0))
  }

  /** `[k.lstrip("0") for k in keys]`. */
  function Unpadded(keys: seq<string>): (r: seq<string>)
    ensures |r| == |keys| && forall i :: 0 <= i < |keys| ==> r[i] == LStripZeros(keys[i])
  {
    seq(|keys|, i requires 0 <= i < |keys| => LStripZeros(keys[i]))
  }

  /** `table[key]`, with `KeyMissing` where it raises. */
  function Lookup(table: Dict<Record>, key: string): (r: Resolution)
    ensures r.Found? ==> r.key == key && Get(table, key) == Some(r.record)
    ensures r.KeyMissing? <==> key !in Keys(table)
    ensures key in Keys(table) ==> r == Found(key, Get(table, key).value)
  {
    match Get(table, key)
    case None => KeyMissing
    case Some(rec) => Found(key, rec)
  }

  /**
    The handler's lookup of a normalised model: the exact key when it is listed;
    otherwise the first listed key equal to it once both drop their leading zeros;
    otherwise nothing.
  */
  function ResolveModel(table: Dict<Record>, model: string): Resolution {
    var keys := ModelKeys(table);
    var unpadded := Unpadded(keys);
    if model in keys then Lookup(table, model)
    else if LStripZeros(model) in unpadded then Lookup(table, keys[IndexOf(unpadded, LStripZeros(model))])
    else NotFound
  }

  /** A listed model is looked up by its own name. */
  lemma ResolveExact(table: Dict<Record>, model: string)
    requires model in ModelKeys(table)
    ensures ResolveModel(table, model) == Lookup(table, model)
  {
  }

  /**
    A model that is not listed resolves, if at all, to the first listed key that
    agrees with it once leading zeros are dropped.
  */
  lemma ResolveFallback(table: Dict<Record>, model: string)
    requires model !in ModelKeys(table) && ResolveModel(table, model).Found?
    ensures exists i :: (0 <= i < |table|
      && ResolveModel(table, model).key == ModelKeys(table)[i]
      && LStripZeros(ModelKeys(table)[i]) == LStripZeros(model)
      && forall j :: 0 <= j < i ==> LStripZeros(ModelKeys(table)[j]) != LStripZeros(model))
  {
    var keys := ModelKeys(table);
    var unpadded := Unpadded(keys);
    var i := IndexOf(unpadded, LStripZeros(model));
    forall j | 0 <= j < i ensures LStripZeros(keys[j]) != LStripZeros(model) {
      assert unpadded[..i][j] == unpadded[j];
    }
  }

  /** Nothing is found exactly when no listed key agrees with the model, with or without leading zeros. */
  lemma ResolveNotFound(table: Dict<Record>, model: string)
    ensures ResolveModel(table, model).NotFound? <==>
      model !in ModelKeys(table) && forall i :: 0 <= i < |table| ==> LStripZeros(ModelKeys(table)[i]) != LStripZeros(model)
  {
    var keys := ModelKeys(table);
    var unpadded := Unpadded(keys);
    if model !in keys && LStripZeros(model) in unpadded {
      var i := IndexOf(unpadded, LStripZeros(model));
      assert LStripZeros(keys[i]) == LStripZeros(model);
    }
    if exists i :: 0 <= i < |table| && LStripZeros(keys[i]) == LStripZeros(model) {
      var i :| 0 <= i < |table| && LStripZeros(keys[i]) == LStripZeros(model);
      assert unpadded[i] == LStripZeros(model);
    }
  }

  /** In a table whose keys are normalised, every listed key is a key: the lookup never raises. */
  lemma ResolveNeverRaises(table: Dict<Record>, model: string)
    requires forall i :: 0 <= i < |table| ==> NormModel(table[i].0) == table[i].0
    ensures !ResolveModel(table, model).KeyMissing?
  {
    assert ModelKeys(table) == Keys(table);
  }

  /** A brand table's keys are already normalised: listing them normalised gives the keys themselves. */
  lemma BrandTableModelKeys(sheets: seq<Worksheet>)
    ensures ModelKeys(BrandTable(sheets)) == Keys(BrandTable(sheets))
  {
    var table := BrandTable(sheets);
    forall i | 0 <= i < |table| ensures NormModel(table[i].0) == table[i].0 {
      BrandTableKeys(sheets, table[i].0);
    }
  }

  /** A brand table's keys are distinct and already normalised. */
  lemma BrandTableWellKeyed(sheets: seq<Worksheet>)
    ensures Distinct(Keys(BrandTable(sheets))) && ModelKeys(BrandTable(sheets)) == Keys(BrandTable(sheets))
  {
    BrandTableModelKeys(sheets);
    BrandTableKeys(sheets, "");
  }

  /** A brand table's lookup never raises. */
  lemma BrandTableResolves(sheets: seq<Worksheet>, model: string)
    ensures !ResolveModel(BrandTable(sheets), model).KeyMissing?
  {
    var table := BrandTable(sheets);
    BrandTableModelKeys(sheets);
    assert forall i :: 0 <= i < |table| ==> NormModel(table[i].0) == Keys(table)[i];
    ResolveNeverRaises(table, model);
  }

  /**
    In a brand table, the key of a digit model of at most `KeyWidth` digits lists,
    without its leading zeros, as the model without its leading zeros: "0000000123",
    the key of model "123" or "0123", lists as "123".
  */
  lemma UnpaddedDigitKey(sheets: seq<Worksheet>, model: string, i: nat)
    requires IsDigit(model) && |model| <= KeyWidth
    requires i < |BrandTable(sheets)| && BrandTable(sheets)[i].0 == ZFill(model, KeyWidth)
    ensures Unpadded(ModelKeys(BrandTable(sheets)))[i] == LStripZeros(model)
  {
    BrandTableModelKeys(sheets);
    ZFillDigitsUnpad(model, KeyWidth);
  }

  /**
    Entry `i` is the one the handler's lookup settles on: its key is the model, or
    the model is not a key and entry `i` is the first whose key agrees with the model
    once leading zeros are dropped.
  */
  predicate ResolvedAt(table: Dict<Record>, model: string, i: int) {
    && 0 <= i < |table|
    && (|| table[i].0 == model
        || (&& model !in Keys(table)
            && LStripZeros(table[i].0) == LStripZeros(model)
            && forall j :: 0 <= j < i ==> LStripZeros(table[j].0) != LStripZeros(model)))
  }

  /** A model that is a key settles on its own entry. */
  lemma ResolveExactEntry(table: Dict<Record>, model: string) returns (i: nat)
    requires ModelKeys(table) == Keys(table) && model in Keys(table)
    ensures ResolvedAt(table, model, i) && ResolveModel(table, model) == Found(table[i].0, table[i].1)
  {
    i := IndexOf(Keys(table), model);
  }

  /** A model that is not a key settles on the first entry that agrees with it without leading zeros. */
  lemma ResolveFallbackEntry(table: Dict<Record>, model: string) returns (i: nat)
    requires Distinct(Keys(table)) && ModelKeys(table) == Keys(table) && model !in Keys(table)
    requires ResolveModel(table, model).Found?
    ensures ResolvedAt(table, model, i) && ResolveModel(table, model) == Found(table[i].0, table[i].1)
  {
    var unpadded := Unpadded(Keys(table));
    i := IndexOf(unpadded, LStripZeros(model));
    forall j | 0 <= j < i ensures LStripZeros(table[j].0) != LStripZeros(model) {
      assert unpadded[..i][j] == unpadded[j];
    }
    IndexOfDistinct(Keys(table), i);
  }

  /**
    In a table with distinct, normalised keys, a lookup that finds something finds
    the record of the entry it settles on.
  */
  lemma ResolveFoundEntry(table: Dict<Record>, model: string) returns (i: nat)
    requires Distinct(Keys(table)) && ModelKeys(table) == Keys(table)
    requires ResolveModel(table, model).Found?
    ensures ResolvedAt(table, model, i) && ResolveModel(table, model) == Found(table[i].0, table[i].1)
  {
    if model in Keys(table) {
      i := ResolveExactEntry(table, model);
    } else {
      i := ResolveFallbackEntry(table, model);
    }
  }

  /**
    In a table with distinct, normalised keys, a digit model whose padded form is a
    key settles on an entry that agrees with it once leading zeros are dropped.
  */
  lemma PaddedEntry(table: Dict<Record>, model: string) returns (i: nat)
    requires Distinct(Keys(table)) && ModelKeys(table) == Keys(table)
    requires IsDigit(model) && |model| <= KeyWidth && ZFill(model, KeyWidth) in Keys(table)
    ensures i < |table| && LStripZeros(table[i].0) == LStripZeros(model)
    ensures ResolveModel(table, model) == Found(table[i].0, table[i].1)
  {
    assert forall j :: 0 <= j < |table| ==> NormModel(table[j].0) == ModelKeys(table)[j];
    DigitModelFound(table, model);
    i := ResolveFoundEntry(table, model);
  }

  /**
    A digit model of at most `KeyWidth` digits typed without its leading zeros is
    still found when a row of that model is in the table.
  */
  lemma DigitModelFound(table: Dict<Record>, model: string)
    requires forall i :: 0 <= i < |table| ==> NormModel(table[i].0) == table[i].0
    requires IsDigit(model) && |model| <= KeyWidth
    requires ZFill(model, KeyWidth) in Keys(table)
    ensures ResolveModel(table, model).Found?
    ensures LStripZeros(ResolveModel(table, model).key) == LStripZeros(model)
  {
    assert ModelKeys(table) == Keys(table);
    ZFillDigitsUnpad(model, KeyWidth);
    var i :| 0 <= i < |table| && table[i].0 == ZFill(model, KeyWidth);
    ResolveNotFound(table, model);
    ResolveNeverRaises(table, model);
    if model !in ModelKeys(table) {
      ResolveFallback(table, model);
    }
  }
}
