/** The portfolio table of an eToro portfolio page (src/parser.py): one record per table row that
    has a first cell and a body slot, with ten fields in a fixed order, and its Markdown report.

    Python floats stay abstract: `isFloat(s)` says whether `float(s)` succeeds, and a parsed
    number is kept as the literal it was parsed from; `show(s)` is `str(float(s))`. */
module Portfolio {
  import opened Wrappers
  import opened Strings
  import opened Dicts
  import opened Html
  import opened Seqs
  import opened Markdown

  /** A record value: `None`, a string, or the float `float(literal)`. */
  datatype Value = Null | Str(text: string) | Num(literal: string)

  function OrNull(s: Option<string>): Value {
    if s.Some? then Str(s.value) else Null
  }

  function NumOrNull(s: Option<string>): Value {
    if s.Some? then Num(s.value) else Null
  }

  // ---------------------------------------------------------------------------
  // landmarks

  const RowQuery := ClassQuery("div", "et-table-row")
  const FirstCellQuery := ClassQuery("div", "et-table-first-cell")
  const BodySlotQuery := ClassQuery("div", "et-table-body-slot")
  const CellQuery := ClassQuery("div", "et-table-cell")
  const MarketNameQuery := AttrQuery("div", "automation-id", "portfolio-overview-table-body-cell-market-name")
  const LastNameQuery := AttrQuery("span", "automation-id", "portfolio-overview-table-body-cell-market-last-name")
  const MirrorNameQuery :=
    AttrQuery("span", "automation-id", "portfolio-overview-table-body-cell-market-mirror-display-name")
  const PriceQuery := AttrQuery("div", "automation-id", "price-price-cell-investing-mode")
  const EquityQuery := AttrQuery("span", "automation-id", "portfolio-overview-table-body-cell-equity")
  const AssetPnlQuery := AttrQuery("span", "automation-id", "portfolio-overview-table-body-cell-asset-pnl")
  const ChangeQuery := AttrQuery("div", "automation-id", "portfolio-overview-table-body-cell-change")
  const DailyQuery := AttrQuery("span", "automation-id", "portfolio-overview-table-body-cell-profit-amount-daily")
  const GainQuery := AttrQuery("span", "automation-id", "portfolio-overview-table-body-cell-gain")
  const ExposureQuery := ClassQuery("span", "table-cell-body")

  /** The keys of every record, in order. */
  const FieldKeys: seq<string> :=
    ["ticker", "company_name", "type", "price", "net_value", "asset_pnl", "change_percent",
     "daily_pnl", "gain_percent", "market_exposure"]

  /** The data cell each of the seven value fields (positions 3 to 9 of a record) is read from;
      cell 1 is never read. */
  function CellOf(field: nat): nat
    requires 3 <= field < 10
  {
    if field == 3 then 0 else field - 2
  }

  // ---------------------------------------------------------------------------
  // one row

  /** The ticker: the text of the first span inside the market-name div, or else of the div. */
  function Ticker(first: Node): Option<string> {
    match Find(first, MarketNameQuery)
    case None => None
    case Some(d) =>
      match Find(d, TagQuery("span"))
      case Some(span) => Some(StrippedText(span))
      case None => Some(StrippedText(d))
  }

  /** The company name and the item type: a last-name span makes an instrument; failing that, a
      mirror-display-name span makes a copied person. */
  function NameAndType(first: Node): (Option<string>, string) {
    match Find(first, LastNameQuery)
    case Some(span) => (Some(StrippedText(span)), "Instrument")
    case None =>
      match Find(first, MirrorNameQuery)
      case Some(span) => (Some(StrippedText(span)), "Person")
      case None => (None, "Instrument")
  }

  /** The number in the element `q` finds in `cell`: its stripped text with the characters of
      `drop` removed, provided `float()` accepts it. */
  function NumberIn(cell: Node, q: Query, drop: seq<char>, isFloat: string -> bool): (r: Option<string>)
    ensures r.Some? <==> FindText(cell, q).Some? && isFloat(RemoveAll(FindText(cell, q).value, drop))
    ensures r.Some? ==> r.value == RemoveAll(FindText(cell, q).value, drop)
    ensures r.Some? ==> isFloat(r.value) && forall c | c in drop :: c !in r.value
    ensures r.Some? ==> Find(cell, q).Some?
  {
    match FindText(cell, q)
    case None => None
    case Some(t) => var literal := RemoveAll(t, drop); if isFloat(literal) then Some(literal) else None
  }

  /** The value field at position `f` of a record (3 to 9), read from its own data cell when the
      row has at least eight of them. */
  function CellValue(cells: seq<Node>, f: nat, isFloat: string -> bool): Value
    requires 3 <= f < 10
  {
    if |cells| < 8 then Null
    else if f == 3 then NumOrNull(NumberIn(cells[0], PriceQuery, ",", isFloat))
    else if f == 4 then NumOrNull(NumberIn(cells[2], EquityQuery, "$,", isFloat))
    else if f == 5 then OrNull(FindText(cells[3], AssetPnlQuery))
    else if f == 6 then NumOrNull(NumberIn(cells[4], ChangeQuery, "%,", isFloat))
    else if f == 7 then NumOrNull(NumberIn(cells[5], DailyQuery, "$,", isFloat))
    else if f == 8 then NumOrNull(NumberIn(cells[6], GainQuery, "%,", isFloat))
    else OrNull(FindText(cells[7], ExposureQuery))
  }

  /** The field at position `f` of the record of a row with first cell `first` and direct data
      cells `cells`. */
  function FieldValue(first: Node, cells: seq<Node>, f: nat, isFloat: string -> bool): Value
    requires f < 10
  {
    if f == 0 then OrNull(Ticker(first))
    else if f == 1 then OrNull(NameAndType(first).0)
    else if f == 2 then Str(NameAndType(first).1)
    else CellValue(cells, f, isFloat)
  }

  /** The record of a row: the ten keys, in order, with their fields. */
  function Record(first: Node, cells: seq<Node>, isFloat: string -> bool): (r: Dict<Value>)
    ensures Keys(r) == FieldKeys
  {
    seq(10, f requires 0 <= f < 10 => (FieldKeys[f], FieldValue(first, cells, f, isFloat)))
  }

  /** The record of a table row, or nothing when the row lacks its first cell or its body slot. */
  function RowRecord(row: Node, isFloat: string -> bool): Option<Dict<Value>> {
    match Find(row, FirstCellQuery)
    case None => None
    case Some(first) =>
      match Find(row, BodySlotQuery)
      case None => None
      case Some(slot) => Some(Record(first, FindChildren(slot, CellQuery), isFloat))
  }

  /** `extract_portfolio_data` on the parsed document. */
  function PortfolioOf(doc: Node, isFloat: string -> bool): seq<Dict<Value>> {
    FilterMap(FindAll(doc, RowQuery), row => RowRecord(row, isFloat))
  }

  /** The ticker, company name and item type of a row's first cell, found the way the loop body
      finds them. */
  method ExtractNames(first: Node) returns (ticker: Option<string>, companyName: Option<string>, itemType: string)
    ensures ticker == Ticker(first)
    ensures (companyName, itemType) == NameAndType(first)
  {
    ticker := None;
    companyName := None;
    itemType := "Instrument";
    var tickerDiv := Find(first, MarketNameQuery);
    if tickerDiv.Some? {
      var span := Find(tickerDiv.value, TagQuery("span"));
      if span.Some? {
        ticker := Some(StrippedText(span.value));
      } else {
        ticker := Some(StrippedText(tickerDiv.value));
      }
    }
    var nameSpan := Find(first, LastNameQuery);
    if nameSpan.Some? {
      companyName := Some(StrippedText(nameSpan.value));
    } else {
      var mirrorSpan := Find(first, MirrorNameQuery);
      if mirrorSpan.Some? {
        companyName := Some(StrippedText(mirrorSpan.value));
        itemType := "Person";
      }
    }
  }

  /** The record of one row, filled in place the way the loop body does it. */
  method ExtractRow(row: Node, isFloat: string -> bool) returns (fields: Option<Dict<Value>>)
    ensures fields == RowRecord(row, isFloat)
  {
    var firstCell := Find(row, FirstCellQuery);
    if firstCell.None? {
      return None;
    }
    var first := firstCell.value;
    var ticker, companyName, itemType := ExtractNames(first);
    var bodySlot := Find(row, BodySlotQuery);
    if bodySlot.None? {
      return None;
    }
    var cells := FindChildren(bodySlot.value, CellQuery);
    var f := BuildRecord(first, cells, ticker, companyName, itemType, isFloat);
    return Some(f);
  }

  /** The dict a row starts from: the ten keys in order, the three name fields, and `None` in the
      seven value fields. */
  function Blank(ticker: Option<string>, companyName: Option<string>, itemType: string): (r: Dict<Value>)
    ensures |r| == 10 && forall k | 0 <= k < 10 :: r[k].0 == FieldKeys[k]
    ensures r[0].1 == OrNull(ticker) && r[1].1 == OrNull(companyName) && r[2].1 == Str(itemType)
    ensures forall k | 3 <= k < 10 :: r[k].1 == Null
  {
    seq(10, k requires 0 <= k < 10 =>
      (FieldKeys[k],
       if k == 0 then OrNull(ticker) else if k == 1 then OrNull(companyName) else if k == 2 then Str(itemType)
       else Null))
  }

  /** The dict of a row: the blank dict, with the value fields filled from the cells when there are
      at least eight of them. */
  method BuildRecord(first: Node, cells: seq<Node>, ticker: Option<string>, companyName: Option<string>,
                     itemType: string, isFloat: string -> bool) returns (f: Dict<Value>)
    requires ticker == Ticker(first) && (companyName, itemType) == NameAndType(first)
    ensures f == Record(first, cells, isFloat)
  {
    f := Blank(ticker, companyName, itemType);
    if |cells| >= 8 {
      f := FillValueFields(f, cells, isFloat);
    }
    RecordByField(first, cells, isFloat, f);
  }

  /** No key of a record is repeated. */
  lemma FieldKeysDistinct()
    ensures forall i, j | 0 <= i < j < 10 :: FieldKeys[i] != FieldKeys[j]
  {
    var heads := "tctpnacdgm";
    var seconds := "ioyreshaaa";
    assert forall i | 0 <= i < 10 :: |FieldKeys[i]| >= 2 && FieldKeys[i][0] == heads[i] && FieldKeys[i][1] == seconds[i];
    forall i, j | 0 <= i < j < 10
      ensures FieldKeys[i] != FieldKeys[j]
    {
      assert heads[i] != heads[j] || seconds[i] != seconds[j];
    }
  }

  /** `fields[FieldKeys[i]] = v` on a record-shaped dict: the pair at position `i` is replaced. */
  method Store(fields: Dict<Value>, i: nat, v: Value) returns (r: Dict<Value>)
    requires |fields| == 10 && forall k | 0 <= k < 10 :: fields[k].0 == FieldKeys[k]
    requires i < 10
    ensures r == fields[i := (FieldKeys[i], v)]
  {
    FieldKeysDistinct();
    PutPresent(fields, i, FieldKeys[i], v);
    r := Put(fields, FieldKeys[i], v);
  }

  /** `fields[FieldKeys[i]] = float(<number>)` when the element holds a number `float()` accepts;
      the field stays `None` otherwise. */
  method StoreNumber(fields: Dict<Value>, i: nat, cell: Node, q: Query, drop: seq<char>, isFloat: string -> bool)
    returns (f: Dict<Value>)
    requires |fields| == 10 && forall k | 0 <= k < 10 :: fields[k].0 == FieldKeys[k]
    requires i < 10 && fields[i].1 == Null
    ensures f == fields[i := (FieldKeys[i], NumOrNull(NumberIn(cell, q, drop, isFloat)))]
  {
    f := fields;
    var number := NumberIn(cell, q, drop, isFloat);
    if number.Some? {
      f := Store(f, i, Num(number.value));
    }
  }

  /** `fields[FieldKeys[i]] = <stripped text>` when the element is there; the field stays `None`
      otherwise. */
  method StoreText(fields: Dict<Value>, i: nat, cell: Node, q: Query) returns (f: Dict<Value>)
    requires |fields| == 10 && forall k | 0 <= k < 10 :: fields[k].0 == FieldKeys[k]
    requires i < 10 && fields[i].1 == Null
    ensures f == fields[i := (FieldKeys[i], OrNull(FindText(cell, q)))]
  {
    f := fields;
    var text := FindText(cell, q);
    if text.Some? {
      f := Store(f, i, Str(text.value));
    }
  }

  /** The seven value fields of a row with at least eight data cells, each parsed from its own cell;
      a field whose element is missing or whose number does not parse stays `None`. */
  method FillValueFields(fields: Dict<Value>, cells: seq<Node>, isFloat: string -> bool) returns (f: Dict<Value>)
    requires |fields| == 10 && forall k | 0 <= k < 10 :: fields[k].0 == FieldKeys[k]
    requires forall k | 3 <= k < 10 :: fields[k].1 == Null
    requires |cells| >= 8
    ensures |f| == 10 && forall k | 0 <= k < 10 :: f[k].0 == FieldKeys[k]
    ensures f[0] == fields[0] && f[1] == fields[1] && f[2] == fields[2]
    ensures forall k | 3 <= k < 10 :: f[k].1 == CellValue(cells, k, isFloat)
  {
    f := StoreNumber(fields, 3, cells[0], PriceQuery, ",", isFloat);
    f := StoreNumber(f, 4, cells[2], EquityQuery, "$,", isFloat);
    f := StoreText(f, 5, cells[3], AssetPnlQuery);
    f := StoreNumber(f, 6, cells[4], ChangeQuery, "%,", isFloat);
    f := StoreNumber(f, 7, cells[5], DailyQuery, "$,", isFloat);
    f := StoreNumber(f, 8, cells[6], GainQuery, "%,", isFloat);
    f := StoreText(f, 9, cells[7], ExposureQuery);
  }

  /** A dict equals the record of a row when it has the record's pairs at all ten positions. */
  lemma RecordByField(first: Node, cells: seq<Node>, isFloat: string -> bool, d: Dict<Value>)
    requires |d| == 10 && forall k | 0 <= k < 10 :: d[k].0 == FieldKeys[k]
    requires d[0].1 == OrNull(Ticker(first))
    requires d[1].1 == OrNull(NameAndType(first).0) && d[2].1 == Str(NameAndType(first).1)
    requires forall f | 3 <= f < 10 :: d[f].1 == CellValue(cells, f, isFloat)
    ensures d == Record(first, cells, isFloat)
  {
    var r := Record(first, cells, isFloat);
    assert forall k | 0 <= k < 10 :: d[k] == r[k];
  }

  /** `extract_portfolio_data(html)`: the records of the table rows, in document order. */
  method ExtractPortfolioData(doc: Node, isFloat: string -> bool) returns (portfolio: seq<Dict<Value>>)
    ensures portfolio == PortfolioOf(doc, isFloat)
  {
    var rows := FindAll(doc, RowQuery);
    portfolio := [];
    var i := 0;
    while i < |rows|
      invariant 0 <= i <= |rows|
      invariant portfolio == FilterMap(rows[..i], row => RowRecord(row, isFloat))
    {
      FilterMapSnoc(rows, i, row => RowRecord(row, isFloat));
      var fields := ExtractRow(rows[i], isFloat);
      if fields.Some? {
        portfolio := portfolio + [fields.value];
      }
      i := i + 1;
    }
    assert rows[..|rows|] == rows;
  }

  // ---------------------------------------------------------------------------
  // what the extraction promises

  /** A row yields a record exactly when it has both a first cell and a body slot. */
  lemma RowKeptIff(row: Node, isFloat: string -> bool)
    ensures RowRecord(row, isFloat).Some? <==>
              Find(row, FirstCellQuery).Some? && Find(row, BodySlotQuery).Some?
  {
  }

  /** One record per row that has a first cell and a body slot, in row order: the k-th record is
      the record of the k-th such row, and every such row is counted. */
  lemma {:induction false} OneRecordPerKeptRow(doc: Node, isFloat: string -> bool)
    ensures var rows := FindAll(doc, RowQuery);
            var kept := Kept(rows, row => RowRecord(row, isFloat));
            && |PortfolioOf(doc, isFloat)| == |kept|
            && (forall k | 0 <= k < |kept| ::
                  PortfolioOf(doc, isFloat)[k] == RowRecord(rows[kept[k]], isFloat).value)
            && (forall k, l | 0 <= k < l < |kept| :: kept[k] < kept[l])
            && (forall i | 0 <= i < |rows| ::
                  Find(rows[i], FirstCellQuery).Some? && Find(rows[i], BodySlotQuery).Some? ==> i in kept)
  {
    var rows := FindAll(doc, RowQuery);
    FilterMapKept(rows, row => RowRecord(row, isFloat));
  }

  /** Every record has the same ten keys, in the same order, each once. */
  lemma RecordsHaveFieldKeys(doc: Node, isFloat: string -> bool, k: nat)
    requires k < |PortfolioOf(doc, isFloat)|
    ensures Keys(PortfolioOf(doc, isFloat)[k]) == FieldKeys
    ensures DistinctKeys(PortfolioOf(doc, isFloat)[k])
  {
    OneRecordPerKeptRow(doc, isFloat);
    var rows := FindAll(doc, RowQuery);
    var kept := Kept(rows, row => RowRecord(row, isFloat));
    RowRecordKeys(rows[kept[k]], isFloat);
  }

  /** The record of a kept row has the ten keys, in order, each once. */
  lemma RowRecordKeys(row: Node, isFloat: string -> bool)
    requires RowRecord(row, isFloat).Some?
    ensures Keys(RowRecord(row, isFloat).value) == FieldKeys
    ensures DistinctKeys(RowRecord(row, isFloat).value)
  {
    FieldKeysDistinct();
    var r := RowRecord(row, isFloat).value;
    assert forall i | 0 <= i < |r| :: r[i].0 == Keys(r)[i];
  }

  /** The type is "Person" exactly when there is no last-name span and there is a
      mirror-display-name span; otherwise it is "Instrument". */
  lemma PersonIffMirrorName(first: Node, cells: seq<Node>, isFloat: string -> bool)
    ensures var t := FieldValue(first, cells, 2, isFloat);
            && (t == Str("Person") || t == Str("Instrument"))
            && (t == Str("Person") <==> Find(first, LastNameQuery).None? && Find(first, MirrorNameQuery).Some?)
  {
    assert "Person" != "Instrument" by {
      assert |"Person"| != |"Instrument"|;
    }
  }

  /** Fewer than eight data cells leave all seven value fields `None`. */
  lemma ShortRowHasNoValues(first: Node, cells: seq<Node>, isFloat: string -> bool)
    requires |cells| < 8
    ensures forall f | 3 <= f < 10 :: Record(first, cells, isFloat)[f].1 == Null
  {
  }

  /** Each value field is read from its own cell only: changing any other cell (a failed parse
      there included) leaves it as it is; cell 1 is never read at all. */
  lemma FieldReadsOwnCell(cells: seq<Node>, cells': seq<Node>, isFloat: string -> bool, f: nat)
    requires 8 <= |cells| && |cells'| == |cells|
    requires 3 <= f < 10 && cells'[CellOf(f)] == cells[CellOf(f)]
    ensures CellValue(cells', f, isFloat) == CellValue(cells, f, isFloat)
  {
    if f == 3 {
      assert cells'[0] == cells[0];
    } else if f == 4 {
      assert cells'[2] == cells[2];
    } else if f == 5 {
      assert cells'[3] == cells[3];
    } else if f == 6 {
      assert cells'[4] == cells[4];
    } else if f == 7 {
      assert cells'[5] == cells[5];
    } else if f == 8 {
      assert cells'[6] == cells[6];
    } else {
      assert cells'[7] == cells[7];
    }
  }

  lemma CellOneIgnored(first: Node, cells: seq<Node>, other: Node, isFloat: string -> bool)
    requires |cells| >= 2
    ensures Record(first, cells[1 := other], isFloat) == Record(first, cells, isFloat)
  {
  }

  /** A numeric field holds a number exactly when its element is present and `float()` accepts
      its stripped text with that field's characters removed. */
  lemma PriceField(cells: seq<Node>, isFloat: string -> bool)
    requires |cells| >= 8
    ensures var t := FindText(cells[0], PriceQuery);
            && (CellValue(cells, 3, isFloat).Num? <==> t.Some? && isFloat(RemoveAll(t.value, ",")))
            && (CellValue(cells, 3, isFloat).Num? ==> CellValue(cells, 3, isFloat).literal == RemoveAll(t.value, ","))
            && (CellValue(cells, 3, isFloat).Num? ==> ',' !in CellValue(cells, 3, isFloat).literal)
  {
  }

  // ---------------------------------------------------------------------------
  // the Markdown report

  /** What a missing value renders as: the UTF-8 bytes of an em dash read back as three
      Windows-1252 characters. */
  const Placeholder: string := "\U{E2}\U{20AC}\U{201D}"

  function HeaderNames(keys: seq<string>): (r: seq<string>)
    ensures |r| == |keys| && forall j | 0 <= j < |keys| :: r[j] == HeaderName(keys[j])
  {
    seq(|keys|, j requires 0 <= j < |keys| => HeaderName(keys[j]))
  }

  /** One run of dashes as long as each header. */
  function Dashes(names: seq<string>): (r: seq<string>)
    ensures |r| == |names| && forall j | 0 <= j < |names| :: r[j] == Repeat('-', |names[j]|)
  {
    seq(|names|, j requires 0 <= j < |names| => Repeat('-', |names[j]|))
  }

  predicate IsPercentKey(key: string) {
    Contains(key, "percent") || Contains(key, "gain") || Contains(key, "change")
  }

  predicate IsMoneyKey(key: string) {
    Contains(key, "net_value") || Contains(key, "daily_pnl") || Contains(key, "price")
  }

  /** The text of one table cell: the placeholder for a missing or `None` value; a number with a
      `%` suffix under a percent, gain or change key, else with a `$` prefix under a net-value,
      daily-P/L or price key, else bare; a string as it is. */
  function CellText(key: string, v: Option<Value>, show: string -> string): string {
    match v
    case None => Placeholder
    case Some(Null) => Placeholder
    case Some(Str(s)) => s
    case Some(Num(literal)) =>
      if IsPercentKey(key) then show(literal) + "%"
      else if IsMoneyKey(key) then "$" + show(literal)
      else show(literal)
  }

  /** The cells of one data row: each header key looked up in the item. */
  function RowCells(item: Dict<Value>, headers: seq<string>, show: string -> string): (r: seq<string>)
    ensures |r| == |headers|
    ensures forall j | 0 <= j < |headers| :: r[j] == CellText(headers[j], Get(item, headers[j]), show)
  {
    seq(|headers|, j requires 0 <= j < |headers| => CellText(headers[j], Get(item, headers[j]), show))
  }

  function DataRows(items: seq<Dict<Value>>, headers: seq<string>, show: string -> string): (r: seq<string>)
    ensures |r| == |items| && forall i | 0 <= i < |items| :: r[i] == Row(RowCells(items[i], headers, show))
  {
    seq(|items|, i requires 0 <= i < |items| => Row(RowCells(items[i], headers, show)))
  }

  /** The five numeric fields as rendered: price, net value and daily P/L with a `$` prefix,
      change and gain with a `%` suffix. */
  lemma NumericFieldDecoration(key: string, literal: string, show: string -> string)
    requires key in ["price", "net_value", "change_percent", "daily_pnl", "gain_percent"]
    ensures key in ["change_percent", "gain_percent"] ==> CellText(key, Some(Num(literal)), show) == show(literal) + "%"
    ensures key in ["price", "net_value", "daily_pnl"] ==> CellText(key, Some(Num(literal)), show) == "$" + show(literal)
  {
    if key in ["change_percent", "gain_percent"] {
      PercentKey(key);
    } else if key == "price" {
      MoneyKey(key, 5, 0, 1);
    } else if key == "net_value" {
      MoneyKey(key, 0, 0, 0);
    } else {
      MoneyKey(key, 1, 0, 0);
    }
  }

  lemma MoneyKey(key: string, a: nat, b: nat, c: nat)
    requires key in ["price", "net_value", "daily_pnl"]
    requires a < 7 && "percent"[a] !in key
    requires b < 4 && "gain"[b] !in key
    requires c < 6 && "change"[c] !in key
    ensures !IsPercentKey(key) && IsMoneyKey(key)
  {
    NotPercentKey(key, a, b, c);
    ContainsAt(key, key, 0);
  }

  lemma PercentKey(key: string)
    requires key in ["change_percent", "gain_percent"]
    ensures IsPercentKey(key)
  {
    ContainsAt(key, "percent", |key| - 7);
  }

  /** A key lacking some character of each of `percent`, `gain` and `change` is no percent key. */
  lemma NotPercentKey(key: string, a: nat, b: nat, c: nat)
    requires a < 7 && "percent"[a] !in key
    requires b < 4 && "gain"[b] !in key
    requires c < 6 && "change"[c] !in key
    ensures !IsPercentKey(key)
  {
    NotContainsMissingChar(key, "percent", a);
    NotContainsMissingChar(key, "gain", b);
    NotContainsMissingChar(key, "change", c);
  }

  /** The report: nothing for an empty portfolio; otherwise the header line, the separator line,
      then one line per item, all with the first item's keys as columns. */
  function MarkdownLines(portfolio: seq<Dict<Value>>, show: string -> string): seq<string> {
    if portfolio == [] then []
    else
      var headers := Keys(portfolio[0]);
      var names := HeaderNames(headers);
      [Row(names), Row(Dashes(names))] + DataRows(portfolio, headers, show)
  }

  /** `generate_markdown(portfolio, path)`, returning the lines it writes. */
  method GenerateMarkdown(portfolio: seq<Dict<Value>>, show: string -> string) returns (lines: seq<string>)
    ensures lines == MarkdownLines(portfolio, show)
    ensures |lines| == if portfolio == [] then 0 else |portfolio| + 2
  {
    if |portfolio| == 0 {
      return [];
    }
    var headers := Keys(portfolio[0]);
    var headerNames := HeaderNames(headers);
    lines := [Row(headerNames)];
    lines := lines + [Row(Dashes(headerNames))];
    var i := 0;
    while i < |portfolio|
      invariant 0 <= i <= |portfolio|
      invariant lines == [Row(headerNames), Row(Dashes(headerNames))] + DataRows(portfolio[..i], headers, show)
    {
      var item := portfolio[i];
      var rowValues: seq<string> := [];
      var j := 0;
      while j < |headers|
        invariant 0 <= j <= |headers|
        invariant rowValues == RowCells(item, headers[..j], show)
      {
        var key := headers[j];
        rowValues := rowValues + [CellText(key, Get(item, key), show)];
        j := j + 1;
      }
      assert headers[..j] == headers;
      lines := lines + [Row(rowValues)];
      i := i + 1;
    }
    assert portfolio[..i] == portfolio;
  }

  /** The header line reads back as the header names, and the separator line as one run of
      dashes per header, each as long as its header, when no header holds a `|`. */
  lemma HeaderAndSeparator(portfolio: seq<Dict<Value>>, show: string -> string)
    requires portfolio != [] && Keys(portfolio[0]) != []
    requires forall k | k in Keys(portfolio[0]) :: '|' !in HeaderName(k)
    ensures var lines := MarkdownLines(portfolio, show);
            var names := ParseRow(lines[0]);
            var seps := ParseRow(lines[1]);
            && |names| == |seps| == |Keys(portfolio[0])|
            && (forall j | 0 <= j < |names| :: names[j] == HeaderName(Keys(portfolio[0])[j]))
            && (forall j | 0 <= j < |seps| :: seps[j] == Repeat('-', |names[j]|))
  {
    var headers := Keys(portfolio[0]);
    var names := HeaderNames(headers);
    forall j | 0 <= j < |names|
      ensures '|' !in names[j]
    {
      assert headers[j] in headers;
    }
    RowRoundTrip(names);
    RowRoundTrip(Dashes(names));
  }

  /** Every data line has one cell per header: it reads back as the item's cells, when none
      of them holds a `|`. */
  lemma DataRowWidth(portfolio: seq<Dict<Value>>, show: string -> string, i: nat)
    requires i < |portfolio| && Keys(portfolio[0]) != []
    requires forall c | c in RowCells(portfolio[i], Keys(portfolio[0]), show) :: '|' !in c
    ensures |MarkdownLines(portfolio, show)| == |portfolio| + 2
    ensures ParseRow(MarkdownLines(portfolio, show)[i + 2]) == RowCells(portfolio[i], Keys(portfolio[0]), show)
    ensures |ParseRow(MarkdownLines(portfolio, show)[i + 2])| == |Keys(portfolio[0])|
  {
    var headers := Keys(portfolio[0]);
    var cells := RowCells(portfolio[i], headers, show);
    var lines := MarkdownLines(portfolio, show);
    assert lines[i + 2] == DataRows(portfolio, headers, show)[i] == Row(cells);
    assert forall j | 0 <= j < |cells| :: cells[j] in cells;
    RowRoundTrip(cells);
  }
}
