/** The performance section of an eToro profile page (src/performance_parser.py): the yearly
    gain/loss candles of the performance chart, four headline metrics, and their Markdown report. */
module Performance {
  import opened Wrappers
  import opened Strings
  import opened Dicts
  import opened Html
  import opened Seqs
  import opened Markdown

  /** One `{"year": ..., "gainLoss": ...}` entry. */
  type Entry = Dict<string>

  /** The dict `extract_performance_data` returns, key by key: a missing key is `None`. The
      extractor always fills both; the report writer also accepts dicts that lack them. */
  datatype Report = Report(annualPerformance: Option<seq<Entry>>, additionalMetrics: Option<Dict<string>>)
  {
    /** An empty dict, the one falsy value of this type. */
    predicate IsEmpty() {
      annualPerformance.None? && additionalMetrics.None?
    }
  }

  // ---------------------------------------------------------------------------
  // landmarks

  const CandleQuery := AttrQuery("div", "automation-id", "stats-chart-full-month")
  const TooltipQuery := AttrQuery("div", "automation-id", "stats-chart-gain-tooltip")
  const NumberQuery := ClassQuery("span", "tooltip-number")
  const DateQuery := ClassQuery("span", "tooltip-date")
  const YtdQuery := AttrQuery("span", "automation-id", "return-ytd-data-value-parameter")
  const TwoYearQuery := AttrQuery("span", "automation-id", "return-2y-data-value-parameter")
  const RiskQuery := ClassQuery("div", "risk-default")
  const WeeksContainerQuery := AttrQuery("div", "automation-id", "stats-chart-profitable-weeks-parameter")
  const WeeksQuery := ClassQuery("span", "data-value")

  /** The four metric keys, in the order they are looked up. */
  const MetricKeys: seq<string> := ["renditeYTD", "rendite2Y", "averageRiskRatingLast7Days", "profitableWeeks"]

  // ---------------------------------------------------------------------------
  // extraction

  /** The entry of one candle: present only when its gain tooltip holds both a number span and a
      date span. */
  function CandleEntry(candle: Node): Option<Entry> {
    match Find(candle, TooltipQuery)
    case None => None
    case Some(tooltip) =>
      match (Find(tooltip, NumberQuery), Find(tooltip, DateQuery))
      case (Some(number), Some(date)) => Some([("year", StrippedText(date)), ("gainLoss", StrippedText(number))])
      case _ => None
  }

  /** The annual entries of a page, in candle order. */
  function AnnualOf(doc: Node): seq<Entry> {
    FilterMap(FindAll(doc, CandleQuery), CandleEntry)
  }

  /** The metric stored under `MetricKeys[i]`, looked up on its own landmark; the profitable-weeks
      figure needs both its container and the value span inside it. */
  function Metric(doc: Node, i: nat): Option<string>
    requires i < 4
  {
    if i == 0 then FindText(doc, YtdQuery)
    else if i == 1 then FindText(doc, TwoYearQuery)
    else if i == 2 then FindText(doc, RiskQuery)
    else
      match Find(doc, WeeksContainerQuery)
      case None => None
      case Some(container) => FindText(container, WeeksQuery)
  }

  /** The metric keys whose landmark is found, in lookup order. */
  function PresentKeys(doc: Node): seq<string> {
    (if Metric(doc, 0).Some? then [MetricKeys[0]] else [])
    + (if Metric(doc, 1).Some? then [MetricKeys[1]] else [])
    + (if Metric(doc, 2).Some? then [MetricKeys[2]] else [])
    + (if Metric(doc, 3).Some? then [MetricKeys[3]] else [])
  }

  /** The annual entries, collected candle by candle. */
  method ExtractAnnual(doc: Node) returns (annual: seq<Entry>)
    ensures annual == AnnualOf(doc)
  {
    var candles := FindAll(doc, CandleQuery);
    annual := [];
    var i := 0;
    while i < |candles|
      invariant 0 <= i <= |candles|
      invariant annual == FilterMap(candles[..i], CandleEntry)
    {
      FilterMapSnoc(candles, i, CandleEntry);
      var tooltip := Find(candles[i], TooltipQuery);
      if tooltip.Some? {
        var number := Find(tooltip.value, NumberQuery);
        var date := Find(tooltip.value, DateQuery);
        if number.Some? && date.Some? {
          annual := annual + [[("year", StrippedText(date.value)), ("gainLoss", StrippedText(number.value))]];
        }
      }
      i := i + 1;
    }
    assert candles[..|candles|] == candles;
  }

  /** The metrics, assigned one after another into a fresh dict: each key is there exactly when
      its own landmark is found, with that landmark's stripped text, in lookup order. */
  method ExtractMetrics(doc: Node) returns (metrics: Dict<string>)
    ensures Keys(metrics) == PresentKeys(doc)
    ensures forall i | 0 <= i < 4 :: Get(metrics, MetricKeys[i]) == Metric(doc, i)
  {
    var ytd := FindText(doc, YtdQuery);
    var twoYear := FindText(doc, TwoYearQuery);
    var risk := FindText(doc, RiskQuery);
    var weeks: Option<string> := None;
    var container := Find(doc, WeeksContainerQuery);
    if container.Some? {
      weeks := FindText(container.value, WeeksQuery);
    }
    metrics := StoreMetrics(ytd, twoYear, risk, weeks);
    assert [ytd, twoYear, risk, weeks] == seq(4, i requires 0 <= i < 4 => Metric(doc, i));
  }

  /** The four `if found: metrics[key] = found`, in lookup order, into a fresh dict. */
  method StoreMetrics(ytd: Option<string>, twoYear: Option<string>, risk: Option<string>, weeks: Option<string>)
    returns (metrics: Dict<string>)
    ensures Keys(metrics) == (if ytd.Some? then [MetricKeys[0]] else []) + (if twoYear.Some? then [MetricKeys[1]] else [])
                             + (if risk.Some? then [MetricKeys[2]] else []) + (if weeks.Some? then [MetricKeys[3]] else [])
    ensures forall i | 0 <= i < 4 :: Get(metrics, MetricKeys[i]) == [ytd, twoYear, risk, weeks][i]
  {
    MetricKeysDistinct();
    var m1 := AssignMetric([], 0, ytd);
    var m2 := AssignMetric(m1, 1, twoYear);
    var m3 := AssignMetric(m2, 2, risk);
    metrics := AssignMetric(m3, 3, weeks);
    assert Get(metrics, MetricKeys[0]) == Get(m1, MetricKeys[0]) == ytd;
    assert Get(metrics, MetricKeys[1]) == Get(m2, MetricKeys[1]) == twoYear;
    assert Get(metrics, MetricKeys[2]) == Get(m3, MetricKeys[2]) == risk;
  }

  /** `if found: metrics[MetricKeys[i]] = found` for a key not assigned yet: it is appended, and
      every other key keeps its value. */
  method AssignMetric(metrics: Dict<string>, i: nat, found: Option<string>) returns (r: Dict<string>)
    requires i < 4 && MetricKeys[i] !in Keys(metrics)
    ensures Keys(r) == Keys(metrics) + if found.Some? then [MetricKeys[i]] else []
    ensures forall k :: Get(r, k) == if k == MetricKeys[i] then found else Get(metrics, k)
  {
    GetDefined(metrics, MetricKeys[i]);
    r := metrics;
    if found.Some? {
      PutKeys(metrics, MetricKeys[i], found.value);
      forall k {
        PutGet(metrics, MetricKeys[i], found.value, k);
      }
      r := Put(metrics, MetricKeys[i], found.value);
    }
  }

  /** No metric key is repeated. */
  lemma MetricKeysDistinct()
    ensures forall i, j | 0 <= i < j < 4 :: MetricKeys[i] != MetricKeys[j]
  {
    var lengths := [10, 9, 26, 15];
    assert forall i | 0 <= i < 4 :: |MetricKeys[i]| == lengths[i];
  }

  /** `extract_performance_data(html)`: both keys are always present. */
  method ExtractPerformanceData(doc: Node) returns (data: Report)
    ensures data.annualPerformance == Some(AnnualOf(doc))
    ensures data.additionalMetrics.Some?
    ensures Keys(data.additionalMetrics.value) == PresentKeys(doc)
    ensures forall i | 0 <= i < 4 :: Get(data.additionalMetrics.value, MetricKeys[i]) == Metric(doc, i)
  {
    var annual := ExtractAnnual(doc);
    var metrics := ExtractMetrics(doc);
    data := Report(Some(annual), Some(metrics));
  }

  // ---------------------------------------------------------------------------
  // what the extraction promises

  /** A candle yields an entry exactly when its tooltip holds both spans; the entry has the two
      keys `year` and `gainLoss`, holding the stripped texts of the date and number spans. */
  lemma CandleEntryIff(candle: Node)
    ensures var t := Find(candle, TooltipQuery);
            && (CandleEntry(candle).Some? <==>
                  t.Some? && Find(t.value, NumberQuery).Some? && Find(t.value, DateQuery).Some?)
            && (CandleEntry(candle).Some? ==>
                  && Keys(CandleEntry(candle).value) == ["year", "gainLoss"]
                  && Get(CandleEntry(candle).value, "year") == FindText(t.value, DateQuery)
                  && Get(CandleEntry(candle).value, "gainLoss") == FindText(t.value, NumberQuery))
  {
    var t := Find(candle, TooltipQuery);
    if t.Some? && Find(t.value, NumberQuery).Some? && Find(t.value, DateQuery).Some? {
      var e := CandleEntry(candle).value;
      assert e == [("year", StrippedText(Find(t.value, DateQuery).value)),
                   ("gainLoss", StrippedText(Find(t.value, NumberQuery).value))];
      assert e[0].0 != e[1].0 by {
        assert |e[0].0| != |e[1].0|;
      }
      GetFirst(e, 0);
      GetFirst(e, 1);
      assert Keys(e) == [e[0].0, e[1].0];
    }
  }

  /** One entry per kept candle, in candle order, and every kept candle is counted. */
  lemma {:induction false} OneEntryPerKeptCandle(doc: Node)
    ensures var candles := FindAll(doc, CandleQuery);
            var kept := Kept(candles, CandleEntry);
            && |AnnualOf(doc)| == |kept|
            && (forall k | 0 <= k < |kept| :: AnnualOf(doc)[k] == CandleEntry(candles[kept[k]]).value)
            && (forall k, l | 0 <= k < l < |kept| :: kept[k] < kept[l])
            && (forall i | 0 <= i < |candles| && CandleEntry(candles[i]).Some? :: i in kept)
  {
    FilterMapKept(FindAll(doc, CandleQuery), CandleEntry);
  }

  /** Each metric key is listed exactly when its own landmark is found, whatever the others do. */
  lemma PresentKeysIff(doc: Node, i: nat)
    requires i < 4
    ensures MetricKeys[i] in PresentKeys(doc) <==> Metric(doc, i).Some?
    ensures |PresentKeys(doc)| <= 4
  {
    MetricKeysDistinct();
    var parts := seq(4, j requires 0 <= j < 4 => if Metric(doc, j).Some? then [MetricKeys[j]] else []);
    assert PresentKeys(doc) == parts[0] + parts[1] + parts[2] + parts[3];
    assert forall j | 0 <= j < 4 :: (MetricKeys[i] in parts[j] <==> j == i && Metric(doc, i).Some?);
  }

  // ---------------------------------------------------------------------------
  // the Markdown report

  /** The glyph a missing value renders as. */
  const Dash: string := "—"

  const AnnualHead: seq<string> := ["### Annual Performance", "", "| Year | Gain/Loss |", "|------|-----------|"]
  const MetricsHead: seq<string> := ["", "### Additional Metrics", "", "| Metric | Value |", "|--------|-------|"]

  /** `key_map.get(key, key)`. */
  function Label(key: string): string {
    if key == "renditeYTD" then "Rendite YTD"
    else if key == "rendite2Y" then "Rendite 2Y"
    else if key == "averageRiskRatingLast7Days" then "Durchschnittliche Risikobewertung (letzte 7T)"
    else if key == "profitableWeeks" then "Gewinnbringende Wochen"
    else key
  }

  /** The table line of one entry; a missing key shows the dash. */
  function EntryRow(e: Entry): string {
    Row([Get(e, "year").GetOr(Dash), Get(e, "gainLoss").GetOr(Dash)])
  }

  function MetricRow(metric: (string, string)): string {
    Row([Label(metric.0), metric.1])
  }

  /** One line per entry, or a single line of dashes when there are none. */
  function AnnualRows(annual: seq<Entry>): (r: seq<string>)
    ensures |r| == if annual == [] then 1 else |annual|
  {
    if annual == [] then [Row([Dash, Dash])]
    else seq(|annual|, i requires 0 <= i < |annual| => EntryRow(annual[i]))
  }

  /** One line per metric in insertion order, or a single line of dashes when there are none. */
  function MetricRows(metrics: Dict<string>): (r: seq<string>)
    ensures |r| == if metrics == [] then 1 else |metrics|
  {
    if metrics == [] then [Row([Dash, Dash])]
    else seq(|metrics|, i requires 0 <= i < |metrics| => MetricRow(metrics[i]))
  }

  /** The report: nothing for an empty dict; otherwise the annual table, a blank line, and the
      metrics table, a missing key counting as an empty list or dict. */
  function PerformanceLines(data: Report): seq<string> {
    if data.IsEmpty() then []
    else
      AnnualHead + AnnualRows(data.annualPerformance.GetOr([]))
      + MetricsHead + MetricRows(data.additionalMetrics.GetOr([]))
  }

  /** The rows of the annual table, written one entry at a time. */
  method WriteAnnual(lines: seq<string>, annual: seq<Entry>) returns (out: seq<string>)
    ensures out == lines + AnnualRows(annual)
  {
    out := lines;
    if annual != [] {
      var i := 0;
      while i < |annual|
        invariant 0 <= i <= |annual|
        invariant out == lines + AnnualRows(annual)[..i]
      {
        out := out + [EntryRow(annual[i])];
        i := i + 1;
      }
    } else {
      out := out + [Row([Dash, Dash])];
    }
  }

  /** The rows of the metrics table, written one metric at a time in insertion order. */
  method WriteMetrics(lines: seq<string>, metrics: Dict<string>) returns (out: seq<string>)
    ensures out == lines + MetricRows(metrics)
  {
    out := lines;
    if metrics != [] {
      var i := 0;
      while i < |metrics|
        invariant 0 <= i <= |metrics|
        invariant out == lines + MetricRows(metrics)[..i]
      {
        var (key, value) := metrics[i];
        out := out + [Row([Label(key), value])];
        i := i + 1;
      }
    } else {
      out := out + [Row([Dash, Dash])];
    }
  }

  /** `generate_performance_markdown(data, path)`, returning the lines it writes. */
  method GeneratePerformanceMarkdown(data: Report) returns (lines: seq<string>)
    ensures lines == PerformanceLines(data)
  {
    if data.IsEmpty() {
      return [];
    }
    lines := WriteAnnual(AnnualHead, data.annualPerformance.GetOr([]));
    lines := WriteMetrics(lines + MetricsHead, data.additionalMetrics.GetOr([]));
  }

  // ---------------------------------------------------------------------------
  // what the report promises

  /** The layout: nine fixed lines around the two tables, each table at least one line long. */
  lemma ReportLayout(data: Report)
    requires !data.IsEmpty()
    ensures var lines := PerformanceLines(data);
            var a := AnnualRows(data.annualPerformance.GetOr([]));
            && |lines| == 9 + |a| + |MetricRows(data.additionalMetrics.GetOr([]))|
            && lines[..4] == AnnualHead
            && lines[4 + |a|..9 + |a|] == MetricsHead
  {
    var a := AnnualRows(data.annualPerformance.GetOr([]));
    var m := MetricRows(data.additionalMetrics.GetOr([]));
    assert PerformanceLines(data) == AnnualHead + a + MetricsHead + m;
    assert (AnnualHead + a + MetricsHead + m)[4 + |a|..9 + |a|] == MetricsHead;
  }

  /** The i-th annual line reads back as that entry's year and gain/loss, each the dash when the
      entry lacks it. */
  lemma EntryRowReadsBack(annual: seq<Entry>, i: nat)
    requires i < |annual|
    requires '|' !in Get(annual[i], "year").GetOr(Dash) && '|' !in Get(annual[i], "gainLoss").GetOr(Dash)
    ensures ParseRow(AnnualRows(annual)[i]) == [Get(annual[i], "year").GetOr(Dash), Get(annual[i], "gainLoss").GetOr(Dash)]
  {
    RowRoundTrip([Get(annual[i], "year").GetOr(Dash), Get(annual[i], "gainLoss").GetOr(Dash)]);
  }

  /** The i-th metrics line reads back as the readable name of the i-th key and its value; a key
      with no readable name shows as itself. */
  lemma MetricRowReadsBack(metrics: Dict<string>, i: nat)
    requires i < |metrics|
    requires '|' !in Label(metrics[i].0) && '|' !in metrics[i].1
    ensures ParseRow(MetricRows(metrics)[i]) == [Label(metrics[i].0), metrics[i].1]
    ensures metrics[i].0 !in MetricKeys ==> Label(metrics[i].0) == metrics[i].0
  {
    RowRoundTrip([Label(metrics[i].0), metrics[i].1]);
  }

  /** An empty table, missing or present, is a single row of two dashes. */
  lemma EmptyTablesShowDashes(data: Report)
    requires !data.IsEmpty()
    requires data.annualPerformance.GetOr([]) == [] && data.additionalMetrics.GetOr([]) == []
    ensures var lines := PerformanceLines(data);
            |lines| == 11 && lines[4] == lines[10] && ParseRow(lines[4]) == [Dash, Dash]
  {
    RowRoundTrip([Dash, Dash]);
  }
}
