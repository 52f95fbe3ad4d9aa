/**
 * The popup's treatment of the findings: `sanitizeResults` for the PDF
 * report, the status and severity tallies, the rows `showResults` renders
 * with their defaults (as written, unescaped), the corrected rows, and the
 * state `scanComplete` leaves behind.
 */
module Report {
  import opened JsValues
  import opened Findings
  import opened Escape
  import opened Risk
  import opened Rules

  // ---------------------------------------------------------------------
  // sanitizeResults
  // ---------------------------------------------------------------------

  /** `examples.map(ex => escapeHtml(ex))`. */
  function EscapeAll(items: seq<string>): (r: seq<string>)
    ensures |r| == |items|
    ensures forall i :: 0 <= i < |r| ==> r[i] == EscapeHtml(items[i])
    decreases |items|
  {
    if |items| == 0 then [] else [EscapeHtml(items[0])] + EscapeAll(items[1..])
  }

  /**
   * The `examples` of a sanitized finding: an array (truthy even when empty)
   * is escaped element by element, a non-empty text is escaped, and a
   * missing or empty value becomes null.
   */
  function SanitizeExamples(e: Examples): (r: Examples)
    ensures e.ExampleList? ==> r.ExampleList? && |r.items| == |e.items|
    ensures e.ExampleList? ==> forall i :: 0 <= i < |e.items| ==> r.items[i] == EscapeHtml(e.items[i])
    ensures e.ExampleText? && e.text != "" ==> r == ExampleText(EscapeHtml(e.text))
    ensures e.NoExamples? || e == ExampleText("") ==> r.NoExamples?
  {
    match e
    case NoExamples => NoExamples
    case ExampleList(items) => ExampleList(EscapeAll(items))
    case ExampleText(t) => if t != "" then ExampleText(EscapeHtml(t)) else NoExamples
  }

  /** One element of `sanitizeResults`: `{...result}` with five fields replaced. */
  function SanitizeFinding(f: Finding): (g: Finding)
    ensures g.status == f.status && g.severity == f.severity
    ensures g.url == f.url && g.reference == f.reference
    ensures !Truthy(f.fix) ==> g.fix.None?
    ensures f.examples.NoExamples? ==> g.examples.NoExamples?
  {
    f.(test := EscapeOptional(f.test),
       description := EscapeOptional(f.description),
       details := EscapeOptional(f.details),
       fix := if Truthy(f.fix) then Some(EscapeHtml(f.fix.value)) else None,
       examples := SanitizeExamples(f.examples))
  }

  /** `sanitizeResults(results)`: one sanitized finding per finding, in order. */
  function SanitizeResults(results: seq<Finding>): (r: seq<Finding>)
    ensures |r| == |results|
    ensures forall i :: 0 <= i < |r| ==> r[i] == SanitizeFinding(results[i])
    decreases |results|
  {
    if |results| == 0 then [] else [SanitizeFinding(results[0])] + SanitizeResults(results[1..])
  }

  /** Text that neither opens a tag nor closes an attribute, and holds no bare `&`. */
  predicate Inert(s: string) {
    '<' !in s && '>' !in s && '"' !in s && '\'' !in s
    && forall i :: 0 <= i < |s| && s[i] == '&' ==> StartsEntity(s[i..])
  }

  predicate InertOptional(o: Option<string>) {
    o.Some? ==> Inert(o.value)
  }

  predicate InertExamples(e: Examples) {
    match e
    case NoExamples => true
    case ExampleList(items) => forall i :: 0 <= i < |items| ==> Inert(items[i])
    case ExampleText(t) => Inert(t)
  }

  /** The escaped text of every field `sanitizeResults` touches. */
  predicate InertFinding(f: Finding) {
    InertOptional(f.test) && InertOptional(f.description) && InertOptional(f.details)
    && InertOptional(f.fix) && InertExamples(f.examples)
  }

  lemma EscapedIsInert(s: string)
    ensures Inert(EscapeHtml(s))
  {
    EscapeHtmlSafe(s);
    AmpersandsStartEntities(s);
  }

  lemma SanitizedFindingIsInert(f: Finding)
    ensures InertFinding(SanitizeFinding(f))
  {
    if f.test.Some? { EscapedIsInert(f.test.value); }
    if f.description.Some? { EscapedIsInert(f.description.value); }
    if f.details.Some? { EscapedIsInert(f.details.value); }
    if Truthy(f.fix) { EscapedIsInert(f.fix.value); }
    match f.examples
    case NoExamples =>
    case ExampleText(t) => EscapedIsInert(t);
    case ExampleList(items) =>
      var esc := SanitizeExamples(f.examples).items;
      forall i | 0 <= i < |esc| ensures Inert(esc[i]) {
        EscapedIsInert(items[i]);
      }
  }

  /** Every text field of every sanitized finding is inert. */
  lemma SanitizedResultsAreInert(results: seq<Finding>)
    ensures forall i :: 0 <= i < |results| ==> InertFinding(SanitizeResults(results)[i])
  {
    forall i | 0 <= i < |results| ensures InertFinding(SanitizeResults(results)[i]) {
      SanitizedFindingIsInert(results[i]);
    }
  }

  function UnescapeOptional(o: Option<string>): Option<string> {
    match o
    case None => None
    case Some(s) => Some(Unescape(s))
  }

  lemma UnescapeEscapeOptional(o: Option<string>)
    ensures UnescapeOptional(EscapeOptional(o)) == o
  {
    if o.Some? { UnescapeEscapeHtml(o.value); }
  }

  /** Sanitizing loses nothing: decoding the entities gives back every text that was kept. */
  lemma SanitizeRoundTrip(f: Finding)
    ensures var g := SanitizeFinding(f);
      && UnescapeOptional(g.test) == f.test
      && UnescapeOptional(g.description) == f.description
      && UnescapeOptional(g.details) == f.details
      && (Truthy(f.fix) ==> UnescapeOptional(g.fix) == f.fix)
      && (f.examples.ExampleText? && f.examples.text != "" ==> Unescape(g.examples.text) == f.examples.text)
      && (f.examples.ExampleList? ==>
            forall i :: 0 <= i < |f.examples.items| ==> Unescape(g.examples.items[i]) == f.examples.items[i])
  {
    var g := SanitizeFinding(f);
    UnescapeEscapeOptional(f.test);
    UnescapeEscapeOptional(f.description);
    UnescapeEscapeOptional(f.details);
    if Truthy(f.fix) { UnescapeEscapeHtml(f.fix.value); }
    match f.examples
    case NoExamples =>
    case ExampleText(t) => if t != "" { UnescapeEscapeHtml(t); }
    case ExampleList(items) =>
      forall i | 0 <= i < |items| ensures Unescape(g.examples.items[i]) == items[i] {
        UnescapeEscapeHtml(items[i]);
      }
  }

  // ---------------------------------------------------------------------
  // Tallies
  // ---------------------------------------------------------------------

  /** `results.filter(r => r?.status === status).length`. */
  function CountStatus(results: seq<Finding>, status: string): (n: nat)
    ensures n <= |results|
    decreases |results|
  {
    if |results| == 0 then 0
    else (if results[0].status == Some(status) then 1 else 0) + CountStatus(results[1..], status)
  }

  /** `results.filter(r => r?.severity === severity).length`, whatever the status. */
  function CountSeverity(results: seq<Finding>, severity: string): (n: nat)
    ensures n <= |results|
    decreases |results|
  {
    if |results| == 0 then 0
    else (if results[0].severity == Some(severity) then 1 else 0) + CountSeverity(results[1..], severity)
  }

  datatype Summary = Summary(passed: nat, failed: nat, warnings: nat, na: nat, errors: nat)
  datatype Severities = Severities(critical: nat, high: nat, medium: nat, low: nat)

  /** The summary tally: the five status counts, which together count each finding with a known status once. */
  function Summarize(results: seq<Finding>): (s: Summary)
    ensures s.passed + s.failed + s.warnings + s.na + s.errors == CountKnownStatus(results) <= |results|
  {
    StatusCountsSum(results);
    Summary(CountStatus(results, PASS), CountStatus(results, FAIL), CountStatus(results, WARN),
            CountStatus(results, NA), CountStatus(results, ERROR))
  }

  /** The severity tally, counted over every finding whatever its status. */
  function SeverityBreakdown(results: seq<Finding>): (b: Severities)
    ensures b.critical <= |results| && b.high <= |results| && b.medium <= |results| && b.low <= |results|
  {
    Severities(CountSeverity(results, CRITICAL), CountSeverity(results, HIGH),
               CountSeverity(results, MEDIUM), CountSeverity(results, LOW))
  }

  predicate KnownStatus(status: Option<string>) {
    status in {Some(PASS), Some(FAIL), Some(WARN), Some(NA), Some(ERROR)}
  }

  /** The number of findings whose status is one of the five. */
  function CountKnownStatus(results: seq<Finding>): nat
    decreases |results|
  {
    if |results| == 0 then 0
    else (if KnownStatus(results[0].status) then 1 else 0) + CountKnownStatus(results[1..])
  }

  /** The five status counts together count the findings with a known status, none twice. */
  lemma {:induction false} StatusCountsSum(results: seq<Finding>)
    ensures CountStatus(results, PASS) + CountStatus(results, FAIL) + CountStatus(results, WARN)
      + CountStatus(results, NA) + CountStatus(results, ERROR) == CountKnownStatus(results) <= |results|
    decreases |results|
  {
    if |results| > 0 {
      StatusCountsSum(results[1..]);
    }
  }

  /** The weight of the findings that carry a known severity but passed: the part of the severity tally the score leaves out. */
  function PassedWeight(results: seq<Finding>): nat
    decreases |results|
  {
    if |results| == 0 then 0
    else (if results[0].status == Some(PASS) then Weight(results[0].severity) else 0) + PassedWeight(results[1..])
  }

  /**
   * The severity tally counts passed findings too, the score does not: the
   * total penalty plus the weight of the passed findings is the weighted
   * severity tally.
   */
  lemma {:induction false} PenaltyAndSeverityTally(results: seq<Finding>)
    ensures var b := SeverityBreakdown(results);
      TotalPenalty(results) + PassedWeight(results) == 5 * b.critical + 3 * b.high + 2 * b.medium + b.low
    decreases |results|
  {
    if |results| > 0 {
      PenaltyAndSeverityTally(results[1..]);
    }
  }

  /** No passed finding carries a known severity exactly when the passed weight is zero. */
  lemma {:induction false} PassedWeightZero(results: seq<Finding>)
    ensures PassedWeight(results) == 0 <==>
      forall i :: 0 <= i < |results| && results[i].status == Some(PASS) ==> !KnownSeverity(results[i].severity)
    decreases |results|
  {
    if |results| > 0 {
      PassedWeightZero(results[1..]);
      assert forall i :: 0 < i < |results| ==> results[i] == results[1..][i - 1];
    }
  }

  /** A scan without headers: every header rule's `error` finding carries no severity and costs nothing. */
  lemma HeaderErrorsCostNothing()
    ensures Penalty(HstsValidation(Null)) == 0 && Penalty(XssProtection(Null)) == 0
    ensures Penalty(ReferrerPolicy(Null)) == 0 && Penalty(PermissionsPolicy(Null)) == 0
    ensures Penalty(ClickjackingProtection(Null)) == 0 && Penalty(ServerHeader(Null)) == 0
  {
  }

  /**
   * The weighted severity tally bounds the penalty, and equals it exactly
   * when no passed finding carries a known severity.
   */
  lemma PenaltyBoundedBySeverities(results: seq<Finding>)
    ensures var b := SeverityBreakdown(results);
      var weighted := 5 * b.critical + 3 * b.high + 2 * b.medium + b.low;
      && TotalPenalty(results) <= weighted
      && (TotalPenalty(results) == weighted <==>
            forall i :: 0 <= i < |results| && results[i].status == Some(PASS) ==> !KnownSeverity(results[i].severity))
  {
    PenaltyAndSeverityTally(results);
    PassedWeightZero(results);
  }

  /**
   * The PDF report draws its charts from the raw findings and its text from
   * the sanitized ones: both give the same tallies and the same score.
   */
  lemma {:induction false} SanitizeKeepsTallies(results: seq<Finding>)
    ensures Summarize(SanitizeResults(results)) == Summarize(results)
    ensures SeverityBreakdown(SanitizeResults(results)) == SeverityBreakdown(results)
    ensures TotalPenalty(SanitizeResults(results)) == TotalPenalty(results)
    ensures RiskScore(SanitizeResults(results)) == RiskScore(results)
    decreases |results|
  {
    if |results| > 0 {
      SanitizeKeepsTallies(results[1..]);
      assert SanitizeResults(results)[1..] == SanitizeResults(results[1..]);
    }
  }

  // ---------------------------------------------------------------------
  // The rows of showResults
  // ---------------------------------------------------------------------

  /** The examples block of a row: absent, up to three bullets, or the placeholder text. */
  datatype ExamplesBlock = Hidden | Bullets(items: seq<string>) | Placeholder

  const NoExamplesText := "No examples available"

  /** What one rendered row shows; the optional parts are shown only when present. */
  datatype Row = Row(testName: string, status: string, description: string, details: string,
                     severityBadge: Option<string>, fix: Option<string>, reference: Option<string>,
                     examples: ExamplesBlock)

  /** `value || fallback`. */
  function OrDefault(o: Option<string>, fallback: string): (r: string)
    ensures Truthy(o) ==> r == o.value
    ensures !Truthy(o) ==> r == fallback
  {
    if Truthy(o) then o.value else fallback
  }

  /** A truthy field, or nothing. */
  function IfTruthy(o: Option<string>): (r: Option<string>)
    ensures r.Some? <==> Truthy(o)
    ensures r.Some? ==> r == o
  {
    if Truthy(o) then o else None
  }

  function Min(a: nat, b: nat): nat { if a < b then a else b }

  /** `result?.examples ? (Array.isArray(...) ? slice(0, 3) : placeholder) : ''`. */
  function ExamplesShown(e: Examples): (b: ExamplesBlock)
    ensures e.ExampleList? ==> b == Bullets(e.items[..Min(3, |e.items|)])
    ensures b.Placeholder? <==> e.ExampleText? && e.text != ""
    ensures b.Hidden? <==> e.NoExamples? || e == ExampleText("")
  {
    match e
    case NoExamples => Hidden
    case ExampleList(items) => Bullets(items[..Min(3, |items|)])
    case ExampleText(t) => if t != "" then Placeholder else Hidden
  }

  /** One row of `showResults`, as written: the finding's own text, unescaped. */
  function DisplayRow(f: Finding): (row: Row)
    ensures row.testName == OrDefault(f.test, "Unknown Test")
    ensures row.status == OrDefault(f.status, ERROR)
    ensures row.description == OrDefault(f.description, "No description available")
    ensures row.details == OrDefault(f.details, "No details available")
  {
    Row(OrDefault(f.test, "Unknown Test"), OrDefault(f.status, ERROR),
        OrDefault(f.description, "No description available"), OrDefault(f.details, "No details available"),
        IfTruthy(f.severity), IfTruthy(f.fix), IfTruthy(f.reference), ExamplesShown(f.examples))
  }

  /** No row shows an empty name, status, description or details, and a present field is shown as it is. */
  lemma RowsAreNeverBlank(f: Finding)
    ensures var row := DisplayRow(f);
      && row.testName != "" && row.status != "" && row.description != "" && row.details != ""
      && (Truthy(f.details) ==> row.details == f.details.value)
      && (!Truthy(f.status) ==> row.status == ERROR)
      && (row.fix.Some? <==> Truthy(f.fix))
      && (row.severityBadge.Some? <==> Truthy(f.severity))
      && (row.examples.Bullets? ==> |row.examples.items| <= 3)
  {
  }

  /**
   * A page controls its own response headers. A `Server` header holding
   * markup reaches the popup's row verbatim: `showResults` does not escape.
   */
  lemma RawRowCarriesMarkup()
    ensures var f := ServerHeader(Map(map["server" := "<img src=x onerror=alert(1)>"]));
      '<' in DisplayRow(f).details
  {
    var v := "<img src=x onerror=alert(1)>";
    var h := Map(map["server" := v]);
    var d := "Server header exposed: " + v;
    assert HeaderValue(h, "server") == Some(v);
    assert ServerHeader(h).details == Some(d);
    assert d[|"Server header exposed: "|] == '<';
  }

  predicate InertBlock(b: ExamplesBlock) {
    b.Bullets? ==> forall i :: 0 <= i < |b.items| ==> Inert(b.items[i])
  }

  /** The fallback texts of a row hold no special character. */
  lemma DefaultsAreInert()
    ensures Inert("Unknown Test") && Inert("No description available") && Inert("No details available")
    ensures '&' !in "Unknown Test" && '&' !in "No description available" && '&' !in "No details available"
  {
    var test, description, details := "Unknown Test", "No description available", "No details available";
    assert forall i :: 0 <= i < |test| ==>
      test[i] != '&' && test[i] != '<' && test[i] != '>' && test[i] != '"' && test[i] != '\'';
    assert forall i :: 0 <= i < |description| ==>
      description[i] != '&' && description[i] != '<' && description[i] != '>' && description[i] != '"' && description[i] != '\'';
    assert forall i :: 0 <= i < |details| ==>
      details[i] != '&' && details[i] != '<' && details[i] != '>' && details[i] != '"' && details[i] != '\'';
  }

  /** An inert field stays inert under an inert default. */
  lemma OrDefaultInert(o: Option<string>, fallback: string)
    requires InertOptional(o) && Inert(fallback)
    ensures Inert(OrDefault(o, fallback))
  {
  }

  /** The examples shown are some of the examples, so inert examples give an inert block. */
  lemma ExamplesShownInert(e: Examples)
    requires InertExamples(e)
    ensures InertBlock(ExamplesShown(e))
  {
    if e.ExampleList? {
      var shown := ExamplesShown(e).items;
      forall i | 0 <= i < |shown| ensures Inert(shown[i]) {
        assert shown[i] == e.items[i];
      }
    }
  }

  /** The row of a finding whose text is inert shows no markup in those parts. */
  lemma InertRow(g: Finding)
    requires InertFinding(g)
    ensures var row := DisplayRow(g);
      && Inert(row.testName) && Inert(row.description) && Inert(row.details)
      && InertOptional(row.fix) && InertBlock(row.examples)
  {
    DefaultsAreInert();
    OrDefaultInert(g.test, "Unknown Test");
    OrDefaultInert(g.description, "No description available");
    OrDefaultInert(g.details, "No details available");
    ExamplesShownInert(g.examples);
  }

  /** A row with the five entities of its text parts decoded. */
  function UnescapeRow(row: Row): Row {
    row.(testName := Unescape(row.testName), description := Unescape(row.description),
         details := Unescape(row.details), fix := UnescapeOptional(row.fix),
         examples := UnescapeBlock(row.examples))
  }

  function UnescapeBlock(b: ExamplesBlock): ExamplesBlock {
    match b
    case Bullets(items) => Bullets(seq(|items|, i requires 0 <= i < |items| => Unescape(items[i])))
    case _ => b
  }

  /** Escaping keeps a text truthy exactly when it was. */
  lemma EscapeKeepsTruthy(o: Option<string>)
    ensures Truthy(EscapeOptional(o)) <==> Truthy(o)
  {
    if o.Some? && o.value == "" {
      assert EscapeHtml("") == "" by { assert '&' !in ""; }
    }
  }

  /** A shown text field of the sanitized finding decodes to the raw row's text, fallback included. */
  lemma OrDefaultUnescapes(o: Option<string>, fallback: string)
    requires '&' !in fallback
    ensures Unescape(OrDefault(EscapeOptional(o), fallback)) == OrDefault(o, fallback)
  {
    EscapeKeepsTruthy(o);
    if Truthy(o) {
      UnescapeEscapeHtml(o.value);
    } else {
      UnescapePlain(fallback);
    }
  }

  /** The fix block of the sanitized finding decodes to the raw row's fix block. */
  lemma FixUnescapes(f: Finding)
    ensures UnescapeOptional(IfTruthy(SanitizeFinding(f).fix)) == IfTruthy(f.fix)
  {
    if Truthy(f.fix) {
      UnescapeEscapeHtml(f.fix.value);
    }
  }

  /** The examples block of the sanitized finding decodes to the raw row's examples block. */
  lemma ExamplesUnescape(e: Examples)
    ensures UnescapeBlock(ExamplesShown(SanitizeExamples(e))) == ExamplesShown(e)
  {
    match e
    case NoExamples =>
    case ExampleText(t) =>
      if t != "" {
        assert |EscapeHtml(t)| >= |t|;
      }
    case ExampleList(items) =>
      var shown := ExamplesShown(SanitizeExamples(e)).items;
      var decoded := UnescapeBlock(ExamplesShown(SanitizeExamples(e))).items;
      assert |decoded| == |items[..Min(3, |items|)]|;
      forall i | 0 <= i < |decoded| ensures decoded[i] == items[i] {
        assert shown[i] == EscapeHtml(items[i]);
        UnescapeEscapeHtml(items[i]);
      }
  }

  /** No text part of a row can open a tag, close an attribute or start a stray entity. */
  predicate InertRowText(row: Row) {
    Inert(row.testName) && Inert(row.description) && Inert(row.details)
    && InertOptional(row.fix) && InertBlock(row.examples)
  }

  /**
   * The corrected row: `showResults` on the finding as `sanitizeResults`
   * leaves it. Its text parts show no markup, decoding them gives the raw
   * row back, and the status, severity badge and reference are those of the
   * raw row.
   */
  function SafeDisplayRow(f: Finding): (row: Row)
    ensures InertRowText(row)
    ensures UnescapeRow(row) == DisplayRow(f)
    ensures row.status == DisplayRow(f).status && row.severityBadge == DisplayRow(f).severityBadge
    ensures row.reference == DisplayRow(f).reference
  {
    SanitizedFindingIsInert(f);
    InertRow(SanitizeFinding(f));
    DefaultsAreInert();
    OrDefaultUnescapes(f.test, "Unknown Test");
    OrDefaultUnescapes(f.description, "No description available");
    OrDefaultUnescapes(f.details, "No details available");
    FixUnescapes(f);
    ExamplesUnescape(f.examples);
    DisplayRow(SanitizeFinding(f))
  }

  /** The rows of the results view, one per finding. */
  function DisplayRows(results: seq<Finding>): (rows: seq<Row>)
    ensures |rows| == |results|
    ensures forall i :: 0 <= i < |rows| ==> rows[i] == DisplayRow(results[i])
    decreases |results|
  {
    if |results| == 0 then [] else [DisplayRow(results[0])] + DisplayRows(results[1..])
  }

  // ---------------------------------------------------------------------
  // The popup's state
  // ---------------------------------------------------------------------

  /** What the popup shows. */
  datatype Screen =
    | Blank
    | ErrorShown(message: string)
    | ResultsShown(summary: Summary, score: int, level: string, color: string, rows: seq<Row>)

  const NoResultsMessage := "No test results were returned"

  /** The results view `showResults` builds for a list of findings. */
  function ResultsScreen(results: seq<Finding>): (s: Screen)
    ensures s.ResultsShown? && |s.rows| == |results|
    ensures s.summary == Summarize(results) && s.score == RiskScore(results)
    ensures s.level == RiskLevel(s.score) && s.color == RiskColor(s.score)
    ensures 0 <= s.score <= 100 && s.color == BandColor(s.level)
    ensures forall i :: 0 <= i < |results| ==> s.rows[i] == DisplayRow(results[i])
  {
    var score := RiskScore(results);
    ColorFollowsLevel(score, score);
    ResultsShown(Summarize(results), score, RiskLevel(score), RiskColor(score), DisplayRows(results))
  }

  /**
   * The corrected screen: showing the sanitized findings keeps the summary,
   * the score, the band and its colour, and changes every row into its
   * inert counterpart with the same status.
   */
  lemma SanitizedScreen(results: seq<Finding>)
    ensures var raw, safe := ResultsScreen(results), ResultsScreen(SanitizeResults(results));
      && safe.summary == raw.summary && safe.score == raw.score
      && safe.level == raw.level && safe.color == raw.color
      && |safe.rows| == |raw.rows|
      && forall i :: 0 <= i < |results| ==>
           safe.rows[i] == SafeDisplayRow(results[i]) && InertRowText(safe.rows[i])
           && safe.rows[i].status == raw.rows[i].status
  {
    SanitizeKeepsTallies(results);
  }

  class Popup {
    var currentScanResults: seq<Finding>
    var downloadEnabled: bool
    var scanning: bool
    var screen: Screen

    /**
     * Between scans, the report button is enabled only with results to
     * report, and the results on screen are those results. PDF generation,
     * which this class does not model, can break this.
     */
    predicate Valid()
      reads this
    {
      (downloadEnabled ==> |currentScanResults| > 0 && screen == ResultsScreen(currentScanResults))
      && (scanning ==> !downloadEnabled)
    }

    /** The popup as it opens: no results, the report button disabled. */
    constructor()
      ensures Valid()
      ensures currentScanResults == [] && !downloadEnabled && !scanning && screen == Blank
    {
      currentScanResults := [];
      downloadEnabled := false;
      scanning := false;
      screen := Blank;
    }

    /** `startScan` before the request is sent: clear the view, disable the report button. */
    method StartScan()
      modifies this
      ensures Valid()
      ensures scanning && !downloadEnabled && screen == Blank
      ensures currentScanResults == old(currentScanResults)
    {
      screen := Blank;
      scanning := true;
      downloadEnabled := false;
    }

    /**
     * `scanComplete(results, error)`: an error or an empty list is shown as
     * an error and leaves the stored results alone; otherwise the results are
     * stored, shown and the report button is enabled.
     */
    method ScanComplete(results: seq<Finding>, error: Option<string>)
      modifies this
      ensures Valid()
      ensures !scanning
      ensures Truthy(error) ==>
        screen == ErrorShown(error.value) && !downloadEnabled && currentScanResults == old(currentScanResults)
      ensures !Truthy(error) && |results| == 0 ==>
        screen == ErrorShown(NoResultsMessage) && !downloadEnabled && currentScanResults == old(currentScanResults)
      ensures !Truthy(error) && |results| > 0 ==>
        currentScanResults == results && downloadEnabled && screen == ResultsScreen(results)
    {
      scanning := false;
      if Truthy(error) {
        screen := ErrorShown(error.value);
        downloadEnabled := false;
        return;
      }
      if |results| == 0 {
        screen := ErrorShown(NoResultsMessage);
        downloadEnabled := false;
        return;
      }
      currentScanResults := results;
      downloadEnabled := true;
      screen := ResultsScreen(results);
    }
  }
}
