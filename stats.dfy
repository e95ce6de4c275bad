/** The statistics page of an eToro profile (src/stats_parser.py): six sections of labelled
    figures found by landmark, by fallback landmark, or by the text of a nearby label, and their
    Markdown report. */
module Stats {
  import opened Wrappers
  import opened Strings
  import opened Dicts
  import opened Html
  import opened Seqs
  import opened Markdown

  /** A section value: a stripped text, `None`, or a nested dict of optional texts. */
  datatype Val = Str(text: string) | Null | Nested(entries: Dict<Option<string>>)

  /** A text that was found, as a value to store. */
  function Found(s: Option<string>): Option<Val> {
    if s.Some? then Some(Str(s.value)) else None
  }

  function OrNull(s: Option<string>): Val {
    if s.Some? then Str(s.value) else Null
  }

  // ---------------------------------------------------------------------------
  // landmarks

  function IdQuery(tag: string, id: string): Query {
    AttrQuery(tag, "automation-id", id)
  }

  const CopiersQuery := IdQuery("div", "stats-copiers-chart-copiers-value")
  const CopiersFallbackQuery := IdQuery("span", "copiers-value")
  const UserReturnQuery := IdQuery("span", "compare-user-performance-value")
  const MarketReturnQuery := IdQuery("span", "compare-market-performance-value")
  const AllocationQuery := IdQuery("div", "stats-portfolio-allocation-container")
  const NameQuery := ClassQuery("span", "name")
  const ValueQuery := ClassQuery("span", "value")
  const BarQuery := ElementQuery("div", None, ClassContaining("bar"))
  const YieldQuery := IdQuery("div", "stats-dividends-yield-value")
  const WeeksContainerQuery := IdQuery("div", "stats-chart-profitable-weeks-parameter")
  const WeeksQuery := ClassQuery("span", "data-value")
  const EsgScoreQuery := IdQuery("div", "user-stats-esg-score-value")
  const EsgListQuery := ClassQuery("div", "esg-breakdown-list")

  /** The labels the allocation fallback searches the whole page for, in order. */
  const AllocationLabels: seq<string> :=
    ["Stocks", "Crypto", "ETF", "Indices", "Commodities", "Currencies", "Copy & SmartPortfolios"]

  const DividendLabels: seq<string> :=
    ["Assets Paying Dividends", "Annual Income", "Monthly Income", "Daily Income", "Income (Last 12 Months)"]
  const DividendKeys: seq<string> :=
    ["assets_paying_dividends", "annual_income", "monthly_income", "daily_income", "income_last_12m"]

  const EsgCategories: seq<string> := ["Environmental", "Social", "Governance"]

  const SectionKeys: seq<string> :=
    ["performance", "asset_allocation", "dividends", "trading_statistics", "additional_stats", "esg_rating"]
  const SectionTitles: seq<string> :=
    ["Performance", "Asset Allocation", "Dividends", "Trading Statistics", "Additional Stats", "ESG Rating"]

  // ---------------------------------------------------------------------------
  // 1. performance

  /** The copier count: the primary div, and only when it is absent the fallback span. */
  function Copiers(doc: Node): Option<string> {
    match Find(doc, CopiersQuery)
    case Some(e) => Some(StrippedText(e))
    case None => FindText(doc, CopiersFallbackQuery)
  }

  /** The user-versus-market pair, present when either side is found, the other side `None`. */
  function Versus(doc: Node): Option<Val> {
    var user := FindText(doc, UserReturnQuery);
    var market := FindText(doc, MarketReturnQuery);
    if user.Some? || market.Some? then Some(Nested([("user", user), ("spx500", market)])) else None
  }

  function PerformanceEntries(doc: Node): seq<(string, Option<Val>)> {
    [("copiers_12m", Found(Copiers(doc))), ("user_vs_spx500", Versus(doc))]
  }

  /** The copier count, looked up in the primary div and, only when that is absent, in the span. */
  method FindCopiers(doc: Node) returns (copiers: Option<Val>)
    ensures copiers == Found(Copiers(doc))
  {
    var copiersElem := Find(doc, CopiersQuery);
    if copiersElem.None? {
      copiersElem := Find(doc, CopiersFallbackQuery);
    }
    copiers := if copiersElem.Some? then Some(Str(StrippedText(copiersElem.value))) else None;
  }

  /** The user-versus-market pair. */
  method FindVersus(doc: Node) returns (versus: Option<Val>)
    ensures versus == Versus(doc)
  {
    var userElem := Find(doc, UserReturnQuery);
    var marketElem := Find(doc, MarketReturnQuery);
    versus := None;
    if userElem.Some? || marketElem.Some? {
      var user := if userElem.Some? then Some(StrippedText(userElem.value)) else None;
      var market := if marketElem.Some? then Some(StrippedText(marketElem.value)) else None;
      versus := Some(Nested([("user", user), ("spx500", market)]));
    }
  }

  method ExtractPerformance(doc: Node) returns (performance: Dict<Val>)
    ensures performance == Present(PerformanceEntries(doc))
  {
    var copiers := FindCopiers(doc);
    var versus := FindVersus(doc);
    assert "user_vs_spx500" != "copiers_12m" by {
      assert |"user_vs_spx500"| != |"copiers_12m"|;
    }
    performance := AssignTwo(("copiers_12m", copiers), ("user_vs_spx500", versus));
  }

  // ---------------------------------------------------------------------------
  // 2. asset allocation

  /** The name and value spans paired up in order. */
  function ZipPairs(names: seq<Node>, values: seq<Node>): (r: seq<(string, string)>)
    requires |names| == |values|
    ensures |r| == |names|
    ensures forall i | 0 <= i < |names| :: r[i] == (StrippedText(names[i]), StrippedText(values[i]))
  {
    seq(|names|, i requires 0 <= i < |names| => (StrippedText(names[i]), StrippedText(values[i])))
  }

  /** The pair of one bar, when it holds both a name span and a value span. */
  function BarPair(bar: Node): Option<(string, string)> {
    match (Find(bar, NameQuery), Find(bar, ValueQuery))
    case (Some(n), Some(v)) => Some((StrippedText(n), StrippedText(v)))
    case _ => None
  }

  /** The allocation read inside the container: the name and value spans zipped when there are
      as many of each and at least one; otherwise the bars that hold both. */
  function ContainerAllocation(container: Node): Dict<string> {
    var names := FindAll(container, NameQuery);
    var values := FindAll(container, ValueQuery);
    if |names| == |values| && names != [] then PutAll([], ZipPairs(names, values))
    else PutAll([], FilterMap(FindAll(container, BarQuery), BarPair))
  }

  /** The percentage near a label found anywhere on the page: the first text containing the label,
      its nearest enclosing div, and the first percent figure inside that div. */
  function LabelValue(doc: Node, caption: string): Option<string> {
    match FindPath(doc, TextQuery(Containing(caption)))
    case None => None
    case Some(p) =>
      match EnclosingPath(doc, p, "div")
      case None => None
      case Some(up) =>
        match NodeAt(doc, up)
        case None => None
        case Some(parent) => FindText(parent, TextQuery(PercentFigure))
  }

  function LabelPair(doc: Node, caption: string): Option<(string, string)> {
    match LabelValue(doc, caption)
    case Some(v) => Some((caption, v))
    case None => None
  }

  function LabelPairs(doc: Node): seq<(string, string)> {
    FilterMap(AllocationLabels, caption => LabelPair(doc, caption))
  }

  /** The allocation: from the container when there is one, and from the labels when that left it
      empty. */
  function AllocationOf(doc: Node): Dict<string> {
    var primary := PrimaryAllocation(doc);
    if primary == [] then PutAll([], LabelPairs(doc)) else primary
  }

  /** What the container gives, nothing when there is no container. */
  function PrimaryAllocation(doc: Node): Dict<string> {
    match Find(doc, AllocationQuery)
    case None => []
    case Some(container) => ContainerAllocation(container)
  }

  /** `for n, v in zip(names, values): d[n.text.strip()] = v.text.strip()`. */
  method ZipAllocation(names: seq<Node>, values: seq<Node>) returns (allocation: Dict<string>)
    requires |names| == |values|
    ensures allocation == PutAll([], ZipPairs(names, values))
  {
    ghost var pairs := ZipPairs(names, values);
    allocation := [];
    var i := 0;
    while i < |names|
      invariant 0 <= i <= |names|
      invariant allocation == PutAll([], pairs[..i])
    {
      assert pairs[..i + 1][..i] == pairs[..i];
      allocation := Put(allocation, StrippedText(names[i]), StrippedText(values[i]));
      i := i + 1;
    }
    assert pairs[..i] == pairs;
  }

  /** The bar loop: each bar holding both spans assigns its name to its value. */
  method BarAllocation(bars: seq<Node>) returns (allocation: Dict<string>)
    ensures allocation == PutAll([], FilterMap(bars, BarPair))
  {
    allocation := [];
    var i := 0;
    while i < |bars|
      invariant 0 <= i <= |bars|
      invariant allocation == PutAll([], FilterMap(bars[..i], BarPair))
    {
      FilterMapSnoc(bars, i, BarPair);
      var name := Find(bars[i], NameQuery);
      var value := Find(bars[i], ValueQuery);
      if name.Some? && value.Some? {
        PutAllSnoc([], FilterMap(bars[..i], BarPair), StrippedText(name.value), StrippedText(value.value));
        allocation := Put(allocation, StrippedText(name.value), StrippedText(value.value));
      }
      i := i + 1;
    }
    assert bars[..i] == bars;
  }

  /** The label loop of the fallback: each label with a percentage near it assigns it. */
  method LabelAllocation(doc: Node) returns (allocation: Dict<string>)
    ensures allocation == PutAll([], LabelPairs(doc))
  {
    var labels := AllocationLabels;
    allocation := [];
    var i := 0;
    while i < |labels|
      invariant 0 <= i <= |labels|
      invariant allocation == PutAll([], FilterMap(labels[..i], caption => LabelPair(doc, caption)))
    {
      FilterMapSnoc(labels, i, caption => LabelPair(doc, caption));
      var caption := labels[i];
      var value := LabelValue(doc, caption);
      if value.Some? {
        PutAllSnoc([], FilterMap(labels[..i], caption => LabelPair(doc, caption)), caption, value.value);
        allocation := Put(allocation, caption, value.value);
      }
      i := i + 1;
    }
    assert labels[..i] == labels;
  }

  method ExtractAllocation(doc: Node) returns (allocation: Dict<string>)
    ensures allocation == AllocationOf(doc)
  {
    allocation := [];
    var container := Find(doc, AllocationQuery);
    if container.Some? {
      var names := FindAll(container.value, NameQuery);
      var values := FindAll(container.value, ValueQuery);
      if |names| == |values| && names != [] {
        allocation := ZipAllocation(names, values);
      } else {
        var bars := FindAll(container.value, BarQuery);
        allocation := BarAllocation(bars);
      }
    }
    if allocation == [] {
      allocation := LabelAllocation(doc);
    }
  }

  // ---------------------------------------------------------------------------
  // 3. dividends

  /** `find_value_by_label(labelText)`: the first text containing the label in any case; its
      nearest enclosing div; that div's next sibling div when its class list is exactly `value` or
      includes `ets-num`; otherwise the first `span.value`, then the first `div.value`, inside the
      div's parent. */
  function ValueByLabel(doc: Node, labelText: string): Option<string> {
    match FindPath(doc, TextQuery(ContainingIgnoringCase(labelText)))
    case None => None
    case Some(p) =>
      match EnclosingPath(doc, p, "div")
      case None => None
      case Some(up) =>
        var sibling := NextSibling(doc, up, "div");
        if sibling.Some? && (sibling.value.classes == ["value"] || "ets-num" in sibling.value.classes) then
          Some(StrippedText(sibling.value))
        else
          match ParentPath(up)
          case None => None
          case Some(gp) =>
            match NodeAt(doc, gp)
            case None => None
            case Some(grandparent) =>
              match Find(grandparent, ValueQuery)
              case Some(v) => Some(StrippedText(v))
              case None => FindText(grandparent, ClassQuery("div", "value"))
  }

  function DividendEntries(doc: Node): seq<(string, Val)> {
    [(DividendKeys[0], OrNull(ValueByLabel(doc, DividendLabels[0]))),
     (DividendKeys[1], OrNull(ValueByLabel(doc, DividendLabels[1]))),
     (DividendKeys[2], OrNull(ValueByLabel(doc, DividendLabels[2]))),
     (DividendKeys[3], OrNull(ValueByLabel(doc, DividendLabels[3]))),
     (DividendKeys[4], OrNull(ValueByLabel(doc, DividendLabels[4])))]
  }

  /** The dividend yield when found, then the five labelled figures, always, `None` when missing. */
  function DividendsOf(doc: Node): (r: Dict<Val>)
    ensures |r| >= |DividendKeys|
  {
    Present([("dividend_yield", Found(FindText(doc, YieldQuery)))]) + DividendEntries(doc)
  }

  /** The six dividend keys differ pairwise. */
  lemma DividendKeysDistinct()
    ensures forall i, j | 0 <= i < j < 5 :: DividendKeys[i] != DividendKeys[j]
    ensures forall i | 0 <= i < 5 :: DividendKeys[i] != "dividend_yield"
  {
    var lengths := [23, 13, 14, 12, 15];
    assert forall i | 0 <= i < 5 :: |DividendKeys[i]| == lengths[i];
    assert "dividend_yield"[0] != DividendKeys[2][0];
  }

  lemma AppendFive<T>(h: seq<T>, a: T, b: T, c: T, d: T, e: T)
    ensures h + [a] + [b] + [c] + [d] + [e] == h + [a, b, c, d, e]
  {
  }

  method ExtractDividends(doc: Node) returns (dividends: Dict<Val>)
    ensures dividends == DividendsOf(doc)
  {
    DividendKeysDistinct();
    dividends := [];
    var yieldText := FindText(doc, YieldQuery);
    dividends := AssignFound(dividends, "dividend_yield", Found(yieldText));
    dividends := AssignFigures(dividends, doc);
  }

  /** The five labelled figures, assigned after whatever `d` holds. */
  method AssignFigures(d: Dict<Val>, doc: Node) returns (dividends: Dict<Val>)
    requires forall i | 0 <= i < 5 :: DividendKeys[i] !in Keys(d)
    ensures dividends == d + DividendEntries(doc)
  {
    DividendKeysDistinct();
    var keys := Keys(d);
    dividends := Assign(d, DividendKeys[0], OrNull(ValueByLabel(doc, DividendLabels[0])));
    assert DividendKeys[1] !in keys + [DividendKeys[0]];
    dividends := Assign(dividends, DividendKeys[1], OrNull(ValueByLabel(doc, DividendLabels[1])));
    assert DividendKeys[2] !in keys + [DividendKeys[0]] + [DividendKeys[1]];
    dividends := Assign(dividends, DividendKeys[2], OrNull(ValueByLabel(doc, DividendLabels[2])));
    assert DividendKeys[3] !in keys + [DividendKeys[0]] + [DividendKeys[1]] + [DividendKeys[2]];
    dividends := Assign(dividends, DividendKeys[3], OrNull(ValueByLabel(doc, DividendLabels[3])));
    assert DividendKeys[4] !in keys + [DividendKeys[0]] + [DividendKeys[1]] + [DividendKeys[2]] + [DividendKeys[3]];
    dividends := Assign(dividends, DividendKeys[4], OrNull(ValueByLabel(doc, DividendLabels[4])));
    ghost var e := DividendEntries(doc);
    AppendFive(d, e[0], e[1], e[2], e[3], e[4]);
    assert e == [e[0], e[1], e[2], e[3], e[4]];
  }

  // ---------------------------------------------------------------------------
  // 4. trading statistics, 5. additional statistics

  const TotalTradesQuery := IdQuery("div", "stats-trading-total-trades-value")
  const ProfitabilityQuery := IdQuery("div", "stats-trading-profitability-value")
  const AvgProfitQuery := IdQuery("div", "stats-trading-avg-profit-value")
  const AvgLossQuery := IdQuery("div", "stats-trading-avg-loss-value")
  const TradesPerWeekQuery := IdQuery("div", "stats-trading-trades-per-week-value")
  const HoldingTimeQuery := IdQuery("div", "stats-trading-avg-holding-time-value")
  const ActiveSinceQuery := IdQuery("div", "stats-trading-active-since-value")

  function TradingEntries(doc: Node): seq<(string, Option<Val>)> {
    [("total_trades_12m", Found(FindText(doc, TotalTradesQuery))),
     ("profitable_trades_percentage", Found(FindText(doc, ProfitabilityQuery))),
     ("average_profit", Found(FindText(doc, AvgProfitQuery))),
     ("average_loss", Found(FindText(doc, AvgLossQuery)))]
  }

  /** The profitable-weeks figure: the value span inside its container. */
  function ProfitableWeeks(doc: Node): Option<string> {
    match Find(doc, WeeksContainerQuery)
    case None => None
    case Some(container) => FindText(container, WeeksQuery)
  }

  function AdditionalEntries(doc: Node): seq<(string, Option<Val>)> {
    [("trades_per_week", Found(FindText(doc, TradesPerWeekQuery))),
     ("average_holding_time", Found(FindText(doc, HoldingTimeQuery))),
     ("account_active_since", Found(FindText(doc, ActiveSinceQuery))),
     ("profitable_weeks", Found(ProfitableWeeks(doc)))]
  }

  method ExtractTrading(doc: Node) returns (trading: Dict<Val>)
    ensures trading == Present(TradingEntries(doc))
  {
    TradingKeysDistinct();
    trading := AssignFour(("total_trades_12m", Found(FindText(doc, TotalTradesQuery))),
                          ("profitable_trades_percentage", Found(FindText(doc, ProfitabilityQuery))),
                          ("average_profit", Found(FindText(doc, AvgProfitQuery))),
                          ("average_loss", Found(FindText(doc, AvgLossQuery))));
  }

  method FindProfitableWeeks(doc: Node) returns (weeks: Option<string>)
    ensures weeks == ProfitableWeeks(doc)
  {
    weeks := None;
    var container := Find(doc, WeeksContainerQuery);
    if container.Some? {
      weeks := FindText(container.value, WeeksQuery);
    }
  }

  method ExtractAdditional(doc: Node) returns (additional: Dict<Val>)
    ensures additional == Present(AdditionalEntries(doc))
  {
    AdditionalKeysDistinct();
    var weeks := FindProfitableWeeks(doc);
    additional := AssignFour(("trades_per_week", Found(FindText(doc, TradesPerWeekQuery))),
                             ("average_holding_time", Found(FindText(doc, HoldingTimeQuery))),
                             ("account_active_since", Found(FindText(doc, ActiveSinceQuery))),
                             ("profitable_weeks", Found(weeks)));
  }

  /** The four trading keys differ pairwise. */
  lemma TradingKeysDistinct()
    ensures var ks := ["total_trades_12m", "profitable_trades_percentage", "average_profit", "average_loss"];
            forall i, j | 0 <= i < j < 4 :: ks[i] != ks[j]
  {
    var ks := ["total_trades_12m", "profitable_trades_percentage", "average_profit", "average_loss"];
    var lengths := [16, 28, 14, 12];
    assert forall i | 0 <= i < 4 :: |ks[i]| == lengths[i];
  }

  /** The four additional keys differ pairwise. */
  lemma AdditionalKeysDistinct()
    ensures var ks := ["trades_per_week", "average_holding_time", "account_active_since", "profitable_weeks"];
            forall i, j | 0 <= i < j < 4 :: ks[i] != ks[j]
  {
    var ks := ["trades_per_week", "average_holding_time", "account_active_since", "profitable_weeks"];
    var lengths := [15, 20, 20, 16];
    assert forall i | 0 <= i < 4 :: |ks[i]| == lengths[i];
    assert ks[1][1] != ks[2][1];
  }

  // ---------------------------------------------------------------------------
  // 6. ESG rating

  /** The score of one ESG category: the text that is exactly the category name, its nearest
      enclosing div, and that div's next sibling div or else its first `span.value`. */
  function EsgValue(doc: Node, category: string): Option<Val> {
    match FindPath(doc, TextQuery(Exactly(category)))
    case None => None
    case Some(p) =>
      match EnclosingPath(doc, p, "div")
      case None => None
      case Some(up) =>
        match NextSibling(doc, up, "div")
        case Some(sibling) => Some(Str(StrippedText(sibling)))
        case None =>
          match NodeAt(doc, up)
          case None => None
          case Some(parent) => Found(FindText(parent, ValueQuery))
  }

  /** The category scores, keyed by the lower-cased category name. */
  function EsgEntries(doc: Node): (r: seq<(string, Option<Val>)>)
    ensures |r| == 3
    ensures forall i | 0 <= i < 3 :: r[i] == (Lower(EsgCategories[i]), EsgValue(doc, EsgCategories[i]))
  {
    seq(3, i requires 0 <= i < 3 => (Lower(EsgCategories[i]), EsgValue(doc, EsgCategories[i])))
  }

  function OverallEntry(doc: Node): (string, Option<Val>) {
    ("overall_score", Found(FindText(doc, EsgScoreQuery)))
  }

  /** The overall score when found; the category scores only when there is no breakdown list. */
  function EsgOf(doc: Node): Dict<Val> {
    if Find(doc, EsgListQuery).None? then Present([OverallEntry(doc)] + EsgEntries(doc))
    else Present([OverallEntry(doc)])
  }

  /** The stored ESG keys differ pairwise. */
  lemma EsgKeysDistinct()
    ensures forall i, j | 0 <= i < j < 3 :: Lower(EsgCategories[i]) != Lower(EsgCategories[j])
    ensures forall i | 0 <= i < 3 :: Lower(EsgCategories[i]) != "overall_score"
  {
    var lengths := [13, 6, 10];
    assert forall i | 0 <= i < 3 :: |Lower(EsgCategories[i])| == lengths[i];
    assert Lower(EsgCategories[0])[0] == 'e';
  }

  /** The i-th category adds a new key after the overall score and the categories before it. */
  lemma EsgStep(doc: Node, i: nat)
    requires i < 3
    ensures var es := EsgEntries(doc);
            && Lower(EsgCategories[i]) !in EntryKeys([OverallEntry(doc)] + es[..i])
            && ([OverallEntry(doc)] + es[..i]) + [es[i]] == [OverallEntry(doc)] + es[..i + 1]
  {
    EsgKeysDistinct();
    var es := EsgEntries(doc);
    var done := [OverallEntry(doc)] + es[..i];
    assert forall j | 1 <= j < |done| :: done[j] == es[j - 1];
    assert es[..i] + [es[i]] == es[..i + 1];
  }

  method ExtractEsg(doc: Node) returns (esg: Dict<Val>)
    ensures esg == EsgOf(doc)
  {
    EsgKeysDistinct();
    esg := AssignNext([], [], "overall_score", Found(FindText(doc, EsgScoreQuery)));
    assert [] + [OverallEntry(doc)] == [OverallEntry(doc)];
    var esgList := Find(doc, EsgListQuery);
    if esgList.None? {
      var categories := EsgCategories;
      ghost var es := EsgEntries(doc);
      var i := 0;
      while i < |categories|
        invariant 0 <= i <= 3
        invariant esg == Present([OverallEntry(doc)] + es[..i])
      {
        var category := categories[i];
        var value := EsgValue(doc, category);
        EsgStep(doc, i);
        esg := AssignNext(esg, [OverallEntry(doc)] + es[..i], Lower(category), value);
        i := i + 1;
      }
      assert es[..3] == es;
    }
  }

  // ---------------------------------------------------------------------------
  // the whole page

  /** The allocation as section values. */
  function AsVals(d: Dict<string>): (r: Dict<Val>)
    ensures Keys(r) == Keys(d)
    ensures forall i | 0 <= i < |d| :: r[i].1 == Str(d[i].1)
  {
    seq(|d|, i requires 0 <= i < |d| => (d[i].0, Str(d[i].1)))
  }

  /** The page's dict: the six sections under their keys, in order. */
  function Sections(performance: Dict<Val>, allocation: Dict<Val>, dividends: Dict<Val>,
                    trading: Dict<Val>, additional: Dict<Val>, esg: Dict<Val>): (r: Dict<Dict<Val>>)
    ensures Keys(r) == SectionKeys
  {
    [(SectionKeys[0], performance), (SectionKeys[1], allocation), (SectionKeys[2], dividends),
     (SectionKeys[3], trading), (SectionKeys[4], additional), (SectionKeys[5], esg)]
  }

  /** The six sections of a page, each a dict that may be empty. */
  function StatsOf(doc: Node): Dict<Dict<Val>> {
    Sections(Present(PerformanceEntries(doc)), AsVals(AllocationOf(doc)), DividendsOf(doc),
             Present(TradingEntries(doc)), Present(AdditionalEntries(doc)), EsgOf(doc))
  }

  lemma SectionKeysDistinct()
    ensures forall i, j | 0 <= i < j < 6 :: SectionKeys[i] != SectionKeys[j]
  {
    var lengths := [11, 16, 9, 18, 16, 10];
    assert forall i | 0 <= i < 6 :: |SectionKeys[i]| == lengths[i];
    assert SectionKeys[1][1] != SectionKeys[4][1];
  }

  /** The page's dict, filled in section order. */
  method AssignSections(performance: Dict<Val>, allocation: Dict<Val>, dividends: Dict<Val>,
                        trading: Dict<Val>, additional: Dict<Val>, esg: Dict<Val>)
    returns (data: Dict<Dict<Val>>)
    ensures data == Sections(performance, allocation, dividends, trading, additional, esg)
  {
    SectionKeysDistinct();
    data := Assign([], SectionKeys[0], performance);
    data := Assign(data, SectionKeys[1], allocation);
    data := Assign(data, SectionKeys[2], dividends);
    data := Assign(data, SectionKeys[3], trading);
    data := Assign(data, SectionKeys[4], additional);
    data := Assign(data, SectionKeys[5], esg);
  }

  /** `extract_stats_data(html)`. */
  method ExtractStatsData(doc: Node) returns (data: Dict<Dict<Val>>)
    ensures data == StatsOf(doc)
  {
    var performance := ExtractPerformance(doc);
    var allocation := ExtractAllocation(doc);
    var dividends := ExtractDividends(doc);
    var trading := ExtractTrading(doc);
    var additional := ExtractAdditional(doc);
    var esg := ExtractEsg(doc);
    data := AssignSections(performance, AsVals(allocation), dividends, trading, additional, esg);
  }

  // ---------------------------------------------------------------------------
  // what extraction promises

  /** Each performance key maps to what its lookup found; the copier count is found exactly
      when the primary div or the fallback span is on the page. */
  lemma PerformanceFields(doc: Node)
    ensures Get(Present(PerformanceEntries(doc)), "copiers_12m") == Found(Copiers(doc))
    ensures Get(Present(PerformanceEntries(doc)), "user_vs_spx500") == Versus(doc)
    ensures Copiers(doc).Some? <==> Find(doc, CopiersQuery).Some? || Find(doc, CopiersFallbackQuery).Some?
  {
    var es := PerformanceEntries(doc);
    assert es[0].0 != es[1].0 by {
      assert |es[0].0| != |es[1].0|;
    }
    PresentGet(es, "copiers_12m");
    PresentGet(es, "user_vs_spx500");
  }

  /** The user-versus-market pair renders both sides, a missing side as `None`. */
  lemma VersusShown(user: Option<string>, market: Option<string>)
    ensures ValueText(Nested([("user", user), ("spx500", market)])) ==
              "user: " + user.GetOr("None") + ", spx500: " + market.GetOr("None")
  {
    var entries := [("user", user), ("spx500", market)];
    var pieces := NestedPieces(entries);
    assert pieces[0] == "user: " + user.GetOr("None");
    assert pieces[1] == "spx500: " + market.GetOr("None");
    var rest := pieces[1..];
    assert |rest| == 1 && rest[0] == pieces[1];
    assert Join(pieces, ", ") == pieces[0] + ", " + Join(rest, ", ");
  }

  /** When the container's name and value spans pair up, the fallback is never consulted, and
      the allocation holds the name of every pair. */
  lemma ZipNeverFallsBack(doc: Node, container: Node)
    requires Find(doc, AllocationQuery) == Some(container)
    requires |FindAll(container, NameQuery)| == |FindAll(container, ValueQuery)| > 0
    ensures AllocationOf(doc) == PutAll([], ZipPairs(FindAll(container, NameQuery), FindAll(container, ValueQuery)))
    ensures forall i | 0 <= i < |FindAll(container, NameQuery)| ::
              Get(AllocationOf(doc), StrippedText(FindAll(container, NameQuery)[i])).Some?
  {
    var pairs := ZipPairs(FindAll(container, NameQuery), FindAll(container, ValueQuery));
    PutAllEmpty(pairs);
    forall i | 0 <= i < |pairs|
      ensures Get(PutAll([], pairs), pairs[i].0).Some?
    {
      PutAllGet([], pairs, pairs[i].0);
    }
  }

  /** An allocation with a repeated name keeps the value of its last occurrence. */
  lemma AllocationLastWins(names: seq<Node>, values: seq<Node>, i: nat)
    requires |names| == |values| && i < |names|
    requires forall j | i < j < |names| :: StrippedText(names[j]) != StrippedText(names[i])
    ensures Get(PutAll([], ZipPairs(names, values)), StrippedText(names[i])) == Some(StrippedText(values[i]))
  {
    var pairs := ZipPairs(names, values);
    PutAllGet([], pairs, pairs[i].0);
    LastValueIsLast(pairs, i);
  }

  /** The allocation falls back on the page-wide labels exactly when the container gave nothing. */
  lemma LabelFallbackIff(doc: Node)
    ensures Find(doc, AllocationQuery).None? ==> AllocationOf(doc) == PutAll([], LabelPairs(doc))
    ensures AllocationOf(doc) == [] <==> PrimaryAllocation(doc) == [] && LabelPairs(doc) == []
  {
    PutAllEmpty(LabelPairs(doc));
  }

  /** The label search ignores case: a label matches the same text as its lower-case form. */
  lemma ValueByLabelIgnoresCase(doc: Node, labelText: string)
    ensures ValueByLabel(doc, Lower(labelText)) == ValueByLabel(doc, labelText)
  {
    LowerIdempotent(labelText);
    var q1 := TextQuery(ContainingIgnoringCase(Lower(labelText)));
    var q2 := TextQuery(ContainingIgnoringCase(labelText));
    SameMatchesSamePath(doc, q1, q2);
  }

  /** The dividends always hold the five labelled keys, `None` for a figure not found, and hold
      the yield exactly when it was found. */
  lemma DividendFields(doc: Node)
    ensures forall i | 0 <= i < 5 :: Get(DividendsOf(doc), DividendKeys[i]) == Some(OrNull(ValueByLabel(doc, DividendLabels[i])))
    ensures Get(DividendsOf(doc), "dividend_yield") == Found(FindText(doc, YieldQuery))
  {
    DividendKeysDistinct();
    var head := [("dividend_yield", Found(FindText(doc, YieldQuery)))];
    var figures := DividendEntries(doc);
    PresentGet(head, "dividend_yield");
    GetAppend(Present(head), figures, "dividend_yield");
    assert "dividend_yield" !in Keys(figures);
    GetDefined(figures, "dividend_yield");
    forall i | 0 <= i < 5
      ensures Get(DividendsOf(doc), DividendKeys[i]) == Some(OrNull(ValueByLabel(doc, DividendLabels[i])))
    {
      PresentGet(head, DividendKeys[i]);
      GetAppend(Present(head), figures, DividendKeys[i]);
      FiguresGet(doc, i);
    }
  }

  lemma FiguresGet(doc: Node, i: nat)
    requires i < 5
    ensures Get(DividendEntries(doc), DividendKeys[i]) == Some(OrNull(ValueByLabel(doc, DividendLabels[i])))
  {
    DividendKeysDistinct();
    var e := DividendEntries(doc);
    assert forall j | 0 <= j < 5 :: e[j].0 == DividendKeys[j];
    GetFirst(e, i);
  }

  /** Each trading key maps to what its lookup found. */
  lemma TradingFields(doc: Node)
    ensures forall i | 0 <= i < 4 :: Get(Present(TradingEntries(doc)), TradingEntries(doc)[i].0) == TradingEntries(doc)[i].1
  {
    var es := TradingEntries(doc);
    var lengths := [16, 28, 14, 12];
    assert forall i | 0 <= i < 4 :: |es[i].0| == lengths[i];
    forall i | 0 <= i < 4
      ensures Get(Present(es), es[i].0) == es[i].1
    {
      PresentGet(es, es[i].0);
    }
  }

  /** Each additional key maps to what its lookup found. */
  lemma AdditionalFields(doc: Node)
    ensures forall i | 0 <= i < 4 :: Get(Present(AdditionalEntries(doc)), AdditionalEntries(doc)[i].0) == AdditionalEntries(doc)[i].1
  {
    var es := AdditionalEntries(doc);
    var lengths := [15, 20, 20, 16];
    assert forall i | 0 <= i < 4 :: |es[i].0| == lengths[i];
    assert es[1].0[1] != es[2].0[1];
    forall i | 0 <= i < 4
      ensures Get(Present(es), es[i].0) == es[i].1
    {
      PresentGet(es, es[i].0);
    }
  }

  /** With a breakdown list on the page only the overall score is kept; without one each
      category is keyed by its lower-case name. */
  lemma EsgFields(doc: Node)
    ensures Find(doc, EsgListQuery).Some? ==> forall k | k in Keys(EsgOf(doc)) :: k == "overall_score"
    ensures Find(doc, EsgListQuery).None? ==>
              forall i | 0 <= i < 3 :: Get(EsgOf(doc), Lower(EsgCategories[i])) == EsgValue(doc, EsgCategories[i])
  {
    EsgKeysDistinct();
    if Find(doc, EsgListQuery).Some? {
      PresentKeysFrom([OverallEntry(doc)]);
    } else {
      var es := [OverallEntry(doc)] + EsgEntries(doc);
      forall i | 0 <= i < 3
        ensures Get(Present(es), Lower(EsgCategories[i])) == EsgValue(doc, EsgCategories[i])
      {
        assert es[i + 1] == (Lower(EsgCategories[i]), EsgValue(doc, EsgCategories[i]));
        PresentGet(es, Lower(EsgCategories[i]));
      }
    }
  }

  // ---------------------------------------------------------------------------
  // the Markdown report

  const TableHead: seq<string> := ["| Metric | Value |", "|--------|-------|"]

  /** `f"{sub_k}: {sub_v}"` for each pair of a nested dict. */
  function NestedPieces(entries: Dict<Option<string>>): (r: seq<string>)
    ensures |r| == |entries|
  {
    seq(|entries|, i requires 0 <= i < |entries| => entries[i].0 + ": " + entries[i].1.GetOr("None"))
  }

  /** How a value is shown: a text as itself, `None` as `None`, a nested dict as its pairs
      joined by commas. */
  function ValueText(v: Val): string {
    match v
    case Str(text) => text
    case Null => "None"
    case Nested(entries) => Join(NestedPieces(entries), ", ")
  }

  function SectionRow(entry: (string, Val)): string {
    Row([HeaderName(entry.0), ValueText(entry.1)])
  }

  function SectionRows(section: Dict<Val>): (r: seq<string>)
    ensures |r| == |section|
  {
    seq(|section|, i requires 0 <= i < |section| => SectionRow(section[i]))
  }

  /** `write_section(title, section)`: nothing for a missing or empty section, otherwise a heading,
      the two-column table with one line per key in order, and a blank line. */
  function SectionLines(title: string, section: Option<Dict<Val>>): seq<string> {
    if section.None? || section.value == [] then []
    else ["## " + title, ""] + TableHead + SectionRows(section.value) + [""]
  }

  function StatsLines(data: Dict<Dict<Val>>): seq<string> {
    ["# User Statistics", ""]
    + SectionLines(SectionTitles[0], Get(data, SectionKeys[0]))
    + SectionLines(SectionTitles[1], Get(data, SectionKeys[1]))
    + SectionLines(SectionTitles[2], Get(data, SectionKeys[2]))
    + SectionLines(SectionTitles[3], Get(data, SectionKeys[3]))
    + SectionLines(SectionTitles[4], Get(data, SectionKeys[4]))
    + SectionLines(SectionTitles[5], Get(data, SectionKeys[5]))
  }

  /** The nested helper `write_section`, appending to the lines written so far. */
  method WriteSection(lines: seq<string>, title: string, section: Option<Dict<Val>>) returns (out: seq<string>)
    ensures out == lines + SectionLines(title, section)
  {
    out := lines;
    if section.None? || section.value == [] {
      return;
    }
    var items := section.value;
    out := out + ["## " + title, ""] + TableHead;
    ghost var head := out;
    var i := 0;
    while i < |items|
      invariant 0 <= i <= |items|
      invariant out == head + SectionRows(items)[..i]
    {
      var (k, v) := items[i];
      out := out + [Row([HeaderName(k), ValueText(v)])];
      i := i + 1;
    }
    out := out + [""];
  }

  /** `generate_stats_markdown(data, path)`, returning the lines it writes. */
  method GenerateStatsMarkdown(data: Dict<Dict<Val>>) returns (lines: seq<string>)
    ensures lines == StatsLines(data)
  {
    lines := ["# User Statistics", ""];
    lines := WriteSection(lines, SectionTitles[0], Get(data, SectionKeys[0]));
    lines := WriteSection(lines, SectionTitles[1], Get(data, SectionKeys[1]));
    lines := WriteSection(lines, SectionTitles[2], Get(data, SectionKeys[2]));
    lines := WriteSection(lines, SectionTitles[3], Get(data, SectionKeys[3]));
    lines := WriteSection(lines, SectionTitles[4], Get(data, SectionKeys[4]));
    lines := WriteSection(lines, SectionTitles[5], Get(data, SectionKeys[5]));
  }

  // ---------------------------------------------------------------------------
  // what the report promises

  /** A section is written exactly when it is present and non-empty, as five fixed lines around
      one line per key. */
  lemma SectionShape(title: string, section: Option<Dict<Val>>)
    ensures SectionLines(title, section) == [] <==> section.None? || section.value == []
    ensures section.Some? && section.value != [] ==>
              var lines := SectionLines(title, section);
              && |lines| == |section.value| + 5
              && lines[0] == "## " + title && lines[2..4] == TableHead && lines[|lines| - 1] == ""
  {
  }

  /** The i-th row of a section reads back as the readable key and the shown value. */
  lemma SectionRowReadsBack(section: Dict<Val>, i: nat)
    requires i < |section|
    requires '|' !in HeaderName(section[i].0) && '|' !in ValueText(section[i].1)
    ensures ParseRow(SectionRows(section)[i]) == [HeaderName(section[i].0), ValueText(section[i].1)]
  {
    RowRoundTrip([HeaderName(section[i].0), ValueText(section[i].1)]);
  }

  /** A dict with the six section keys gives each section back under its key. */
  lemma SectionGet<V>(data: Dict<V>, i: nat)
    requires Keys(data) == SectionKeys && i < 6
    ensures Get(data, SectionKeys[i]) == Some(data[i].1)
  {
    SectionKeysDistinct();
    assert forall j | 0 <= j < |data| :: data[j].0 == SectionKeys[j];
    GetFirst(data, i);
  }

  /** The report of an extracted page always holds the dividends section: its five labelled
      figures are always stored. */
  lemma DividendsAlwaysReported(doc: Node)
    ensures Get(StatsOf(doc), "dividends") == Some(DividendsOf(doc))
    ensures |SectionLines("Dividends", Some(DividendsOf(doc)))| >= 10
  {
    SectionGet(StatsOf(doc), 2);
    var d := DividendsOf(doc);
    assert |SectionLines("Dividends", Some(d))| == |d| + 5;
  }

  /** A letter after a digit starts a new word for `title()`: the copier key is shown as
      `Copiers 12M`. */
  lemma CopiersHeading(key: string)
    requires key == "copiers_12m"
    ensures HeaderName(key) == "Copiers 12M"
  {
    var shown := "Copiers 12M";
    forall i | 0 <= i < |key|
      ensures HeaderName(key)[i] == shown[i]
    {
      HeaderNameAt(key, i);
    }
  }

  /** A page dict without any of the six sections reports only the title. */
  lemma NoSectionsOnlyTitle(data: Dict<Dict<Val>>)
    requires forall i | 0 <= i < 6 :: Get(data, SectionKeys[i]).None? || Get(data, SectionKeys[i]).value == []
    ensures StatsLines(data) == ["# User Statistics", ""]
  {
    assert forall i | 0 <= i < 6 :: SectionLines(SectionTitles[i], Get(data, SectionKeys[i])) == [];
  }

}
