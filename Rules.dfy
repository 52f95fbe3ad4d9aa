/**
 * The rule registry of the content script: the header-driven rules, the
 * jQuery version rule and the order in which all rules are registered.
 * Rules that inspect the DOM, `performance`, `window` or storage are opaque:
 * the registry receives their bodies as `probe(name)`.
 */
module Rules {
  import opened JsValues
  import opened Findings
  import opened Versions

  /**
   * The `headers` of a scan request: null, the `{unavailable: true}` object
   * the background script sends when no headers were captured, or a map
   * from lower-case header names to values.
   */
  datatype Headers = Null | Unavailable | Map(m: map<string, string>)

  /** `headers[key]` for a non-null `headers`; the sentinel object has the one key "unavailable". */
  function HeaderValue(h: Headers, key: string): (v: Option<string>)
    requires !h.Null?
    ensures h.Map? ==> (v.Some? <==> key in h.m)
    ensures h.Map? && key in h.m ==> v == Some(h.m[key])
    ensures h.Unavailable? ==> (v.Some? <==> key == "unavailable")
    ensures h.Unavailable? && key == "unavailable" ==> v == Some("true")
  {
    match h
    case Unavailable => if key == "unavailable" then Some("true") else None
    case Map(m) => if key in m then Some(m[key]) else None
  }

  /** `headers?.unavailable` is truthy. */
  predicate HeadersUnavailable(h: Headers) {
    !h.Null? && Truthy(HeaderValue(h, "unavailable"))
  }

  /** The page state the jQuery rule reads: `window.jQuery` and `jQuery.fn.jquery`. */
  datatype JQueryState = NoJQuery | JQueryLoaded(version: Option<string>)

  /** What rules read besides the request: the page address and its jQuery. */
  datatype Page = Page(href: string, jquery: JQueryState)

  /** A scan request with the page it is run against. */
  datatype Request = Request(headers: Headers, page: Page)

  /** A rule either returns a partial finding or throws (or its promise rejects) with a message. */
  datatype Outcome = Returned(finding: Finding) | Threw(message: string)

  datatype Rule = Rule(name: string, description: string, run: Request -> Outcome)

  // ===== Header rules =====

  function HstsValidation(h: Headers): (f: Finding)
    ensures f.test.None? && f.description.None? && f.url.None? && f.status.Some?
    ensures f.status == Some(NA) <==> HeadersUnavailable(h)
    ensures f.status == Some(ERROR) <==> h.Null?
    ensures f.status == Some(PASS) <==>
      !h.Null? && !HeadersUnavailable(h) && Truthy(HeaderValue(h, "strict-transport-security"))
    ensures f.status == Some(PASS) ==>
      f.details == Some("HSTS: " + HeaderValue(h, "strict-transport-security").value)
    ensures !h.Null? && !HeadersUnavailable(h) && !Truthy(HeaderValue(h, "strict-transport-security")) ==>
      f.status == Some(FAIL) && f.severity == Some(HIGH)
    ensures f.status == Some(FAIL) ==> f.severity == Some(HIGH)
    ensures f.severity.Some? <==> f.status == Some(FAIL)
  {
    if HeadersUnavailable(h) then Result(NA, "Header check not available")
    else if h.Null? then Result(ERROR, "Header check failed")
    else
      var v := HeaderValue(h, "strict-transport-security");
      if Truthy(v) then Result(PASS, "HSTS: " + v.value)
      else Result(FAIL, "Missing HSTS header").(
        severity := Some(HIGH), fix := Some("Add Strict-Transport-Security header"))
  }

  function XssProtection(h: Headers): (f: Finding)
    ensures f.test.None? && f.description.None? && f.url.None? && f.status.Some?
    ensures f.status == Some(ERROR) <==> h.Null?
    ensures !h.Null? && Truthy(HeaderValue(h, "x-xss-protection")) ==>
      var v := HeaderValue(h, "x-xss-protection").value;
      && f.status == Some(if Contains(v, "mode=block") then PASS else WARN)
      && f.severity.None?
      && f.fix.Some? == !Contains(v, "mode=block")
    ensures !h.Null? && !Truthy(HeaderValue(h, "x-xss-protection")) ==>
      f.status == Some(FAIL) && f.severity == Some(MEDIUM)
    ensures f.severity.Some? <==> f.status == Some(FAIL)
  {
    if h.Null? then Result(ERROR, "Header check unavailable")
    else
      var v := HeaderValue(h, "x-xss-protection");
      if Truthy(v) then
        var block := Contains(v.value, "mode=block");
        Result(if block then PASS else WARN, "XSS Protection: " + v.value).(
          fix := if block then None else Some("Set to '1; mode=block'"))
      else Result(FAIL, "Missing X-XSS-Protection header").(
        severity := Some(MEDIUM), fix := Some("Add 'X-XSS-Protection: 1; mode=block' header"))
  }

  function ReferrerPolicy(h: Headers): (f: Finding)
    ensures f.test.None? && f.description.None? && f.url.None? && f.status.Some?
    ensures f.status == Some(ERROR) <==> h.Null?
    ensures f.status == Some(PASS) <==> !h.Null? && Truthy(HeaderValue(h, "referrer-policy"))
    ensures f.status == Some(WARN) <==> !h.Null? && !Truthy(HeaderValue(h, "referrer-policy"))
    ensures f.status == Some(WARN) ==> f.severity == Some(LOW)
    ensures f.severity.Some? <==> f.status == Some(WARN)
  {
    if h.Null? then Result(ERROR, "Header check unavailable")
    else
      var v := HeaderValue(h, "referrer-policy");
      if Truthy(v) then Result(PASS, "Referrer-Policy: " + v.value)
      else Result(WARN, "Missing Referrer-Policy header").(
        severity := Some(LOW), fix := Some("Set Referrer-Policy: strict-origin-when-cross-origin"))
  }

  function PermissionsPolicy(h: Headers): (f: Finding)
    ensures f.test.None? && f.description.None? && f.url.None? && f.status.Some?
    ensures f.status == Some(ERROR) <==> h.Null?
    ensures f.status == Some(PASS) <==> !h.Null? && Truthy(HeaderValue(h, "permissions-policy"))
    ensures f.status == Some(WARN) <==> !h.Null? && !Truthy(HeaderValue(h, "permissions-policy"))
    ensures f.status == Some(WARN) ==> f.severity == Some(MEDIUM)
    ensures f.severity.Some? <==> f.status == Some(WARN)
  {
    if h.Null? then Result(ERROR, "Header check unavailable")
    else
      var v := HeaderValue(h, "permissions-policy");
      if Truthy(v) then Result(PASS, "Permissions-Policy: " + v.value)
      else Result(WARN, "Missing Permissions-Policy header").(
        severity := Some(MEDIUM), fix := Some("Implement least-privilege permissions policy"))
  }

  function ClickjackingProtection(h: Headers): (f: Finding)
    ensures f.test.None? && f.description.None? && f.url.None? && f.status.Some?
    ensures f.status == Some(ERROR) <==> h.Null?
    ensures f.status == Some(PASS) <==> !h.Null? && Truthy(HeaderValue(h, "x-frame-options"))
    ensures f.status == Some(FAIL) <==> !h.Null? && !Truthy(HeaderValue(h, "x-frame-options"))
    ensures f.status == Some(FAIL) ==> f.severity == Some(HIGH)
    ensures f.severity.Some? <==> f.status == Some(FAIL)
  {
    if h.Null? then Result(ERROR, "Header check unavailable")
    else
      var v := HeaderValue(h, "x-frame-options");
      if Truthy(v) then Result(PASS, "X-Frame-Options: " + v.value)
      else Result(FAIL, "Missing X-Frame-Options header").(
        severity := Some(HIGH), fix := Some("Set X-Frame-Options: DENY or SAMEORIGIN"))
  }

  /** Here a present header is the problem: it discloses the server software. */
  function ServerHeader(h: Headers): (f: Finding)
    ensures f.test.None? && f.description.None? && f.url.None? && f.status.Some?
    ensures f.status == Some(ERROR) <==> h.Null?
    ensures f.status == Some(WARN) <==> !h.Null? && Truthy(HeaderValue(h, "server"))
    ensures f.status == Some(PASS) <==> !h.Null? && !Truthy(HeaderValue(h, "server"))
    ensures f.status == Some(WARN) ==>
      f.severity == Some(LOW) && f.details == Some("Server header exposed: " + HeaderValue(h, "server").value)
    ensures f.severity.Some? <==> f.status == Some(WARN)
  {
    if h.Null? then Result(ERROR, "Header check unavailable")
    else
      var v := HeaderValue(h, "server");
      if Truthy(v) then Result(WARN, "Server header exposed: " + v.value).(
        severity := Some(LOW), fix := Some("Remove Server header from responses"))
      else Result(PASS, "No Server header exposed")
  }

  /**
   * With the unavailable sentinel the five rules other than HSTS do not say
   * "not applicable": they look the header up in the sentinel object, do not
   * find it and report it missing, exactly as for an empty header map.
   */
  lemma SentinelReadsAsNoHeaders()
    ensures XssProtection(Unavailable) == XssProtection(Map(map[]))
    ensures ReferrerPolicy(Unavailable) == ReferrerPolicy(Map(map[]))
    ensures PermissionsPolicy(Unavailable) == PermissionsPolicy(Map(map[]))
    ensures ClickjackingProtection(Unavailable) == ClickjackingProtection(Map(map[]))
    ensures ServerHeader(Unavailable) == ServerHeader(Map(map[]))
    ensures XssProtection(Unavailable).status == Some(FAIL)
    ensures ReferrerPolicy(Unavailable).status == Some(WARN)
    ensures PermissionsPolicy(Unavailable).status == Some(WARN)
    ensures ClickjackingProtection(Unavailable).status == Some(FAIL)
    ensures ServerHeader(Unavailable).status == Some(PASS)
    ensures HstsValidation(Unavailable).status == Some(NA)
    ensures HstsValidation(Map(map[])).status == Some(FAIL)
  {
  }

  /** A header rule depends on its own header only: maps that agree on that key give the same finding. */
  lemma HeaderRulesAreLocal(m1: map<string, string>, m2: map<string, string>, key: string)
    requires (key in m1) == (key in m2) && (key in m1 ==> m1[key] == m2[key])
    ensures key == "x-xss-protection" ==> XssProtection(Map(m1)) == XssProtection(Map(m2))
    ensures key == "referrer-policy" ==> ReferrerPolicy(Map(m1)) == ReferrerPolicy(Map(m2))
    ensures key == "permissions-policy" ==> PermissionsPolicy(Map(m1)) == PermissionsPolicy(Map(m2))
    ensures key == "x-frame-options" ==> ClickjackingProtection(Map(m1)) == ClickjackingProtection(Map(m2))
    ensures key == "server" ==> ServerHeader(Map(m1)) == ServerHeader(Map(m2))
  {
  }

  // ===== jQuery version rule =====

  datatype Threshold = Threshold(max: string, severity: string)

  /** The table of vulnerable jQuery versions, searched in order. */
  const VulnerableVersions: seq<Threshold> := [
    Threshold("1.4.4", CRITICAL),
    Threshold("1.6.4", HIGH),
    Threshold("1.9.1", MEDIUM),
    Threshold("2.2.4", MEDIUM)
  ]

  /**
   * `Array.prototype.find` from index `from` on: the first index whose
   * threshold the version does not exceed, or None if it exceeds them all.
   */
  function FindVulnerable(version: string, table: seq<Threshold>, from: nat): (r: Option<nat>)
    requires from <= |table|
    ensures r.Some? ==> from <= r.value < |table| && VersionCmp(version, table[r.value].max) <= 0
    ensures r.Some? ==> forall j :: from <= j < r.value ==> VersionCmp(version, table[j].max) > 0
    ensures r.None? ==> forall j :: from <= j < |table| ==> VersionCmp(version, table[j].max) > 0
    decreases |table| - from
  {
    if from == |table| then None
    else if VersionCmp(version, table[from].max) <= 0 then Some(from)
    else FindVulnerable(version, table, from + 1)
  }

  const JQueryFix := "Upgrade to jQuery 3.6.0+"
  const JQueryReference := "https://nvd.nist.gov/vuln/search/results?form_type=Advanced&results_type=overview&search_type=all&cpe_vendor=cpe%3A%2F%3Ajquery&cpe_product=cpe%3A%2F%3Ajquery%3Ajquery"

  /**
   * The jQuery rule. Without `window.jQuery` it is not applicable; a jQuery
   * whose `fn.jquery` is not a string makes `versionCompare` throw on `split`.
   */
  function JQueryVersion(jq: JQueryState): (o: Outcome)
    ensures jq.NoJQuery? ==> o == Returned(Result(NA, "jQuery not used"))
    ensures jq.JQueryLoaded? && jq.version.None? ==> o.Threw?
  {
    match jq
    case NoJQuery => Returned(Result(NA, "jQuery not used"))
    case JQueryLoaded(None) => Threw("Cannot read properties of undefined (reading 'split')")
    case JQueryLoaded(Some(version)) =>
      match FindVulnerable(version, VulnerableVersions, 0)
      case Some(k) =>
        var sev := VulnerableVersions[k].severity;
        Returned(Result(FAIL, "Vulnerable v" + version + " (" + sev + " risk)").(
          severity := Some(sev), fix := Some(JQueryFix), reference := Some(JQueryReference)))
      case None => Returned(Result(PASS, "Secure v" + version))
  }

  /** The status and severity the jQuery rule reports for a version string. */
  function JQueryVerdict(version: string): (Option<string>, Option<string>) {
    var f := JQueryVersion(JQueryLoaded(Some(version))).finding;
    (f.status, f.severity)
  }

  lemma PartsOf144() ensures Parts("1.4.4") == [1, 4, 4] {
    assert Join(["1", "4", "4"], '.') == "1.4.4";
    SplitUnique("1.4.4", '.', ["1", "4", "4"]);
    DigitValues();
  }

  lemma PartsOf164() ensures Parts("1.6.4") == [1, 6, 4] {
    assert Join(["1", "6", "4"], '.') == "1.6.4";
    SplitUnique("1.6.4", '.', ["1", "6", "4"]);
    DigitValues();
  }

  lemma PartsOf191() ensures Parts("1.9.1") == [1, 9, 1] {
    assert Join(["1", "9", "1"], '.') == "1.9.1";
    SplitUnique("1.9.1", '.', ["1", "9", "1"]);
    DigitValues();
  }

  lemma PartsOf224() ensures Parts("2.2.4") == [2, 2, 4] {
    assert Join(["2", "2", "4"], '.') == "2.2.4";
    SplitUnique("2.2.4", '.', ["2", "2", "4"]);
    DigitValues();
  }

  lemma PartsOf1124() ensures Parts("1.12.4") == [1, 12, 4] {
    assert Join(["1", "12", "4"], '.') == "1.12.4";
    SplitUnique("1.12.4", '.', ["1", "12", "4"]);
    DigitValues();
    assert "12"[..1] == "1";
    PartValueDigits("12");
  }

  lemma PartsOf1100() ensures Parts("1.10.0") == [1, 10, 0] {
    assert Join(["1", "10", "0"], '.') == "1.10.0";
    SplitUnique("1.10.0", '.', ["1", "10", "0"]);
    DigitValues();
    assert "10"[..1] == "1";
    PartValueDigits("10");
  }

  /** Versions compare part by part as numbers, not as text: 1.10.0 is later than 1.9.1. */
  lemma NumericNotTextual()
    ensures VersionCmp("1.10.0", "1.9.1") == 1
  {
    PartsOf1100();
    PartsOf191();
  }

  /** jQuery 1.12.4, a later release than the 1.9.1 threshold, falls in the medium band below 2.2.4. */
  lemma JQuery1124IsMedium()
    ensures JQueryVerdict("1.12.4") == (Some(FAIL), Some(MEDIUM))
  {
    PartsOf1124();
    PartsOf164();
    PartsOf224();
    JQueryBands("1.12.4");
  }

  lemma DigitValues()
    ensures PartValue("1") == 1 && PartValue("2") == 2 && PartValue("4") == 4
    ensures PartValue("6") == 6 && PartValue("9") == 9 && PartValue("0") == 0
  {
    assert "1"[..0] == "" && "2"[..0] == "" && "4"[..0] == "" && "6"[..0] == "" && "9"[..0] == "" && "0"[..0] == "";
  }

  /** The thresholds are listed in increasing order. */
  lemma ThresholdsAscend()
    ensures VersionCmp("1.4.4", "1.6.4") < 0
    ensures VersionCmp("1.6.4", "1.9.1") < 0
    ensures VersionCmp("1.9.1", "2.2.4") < 0
  {
    PartsOf144();
    PartsOf164();
    PartsOf191();
    PartsOf224();
  }

  /** `find` stops at index `k` when the version exceeds every earlier threshold but not `k`'s. */
  lemma FindStopsAt(version: string, table: seq<Threshold>, k: nat)
    requires k < |table| && VersionCmp(version, table[k].max) <= 0
    requires forall j :: 0 <= j < k ==> VersionCmp(version, table[j].max) > 0
    ensures FindVulnerable(version, table, 0) == Some(k)
  {
  }

  /** `find` finds nothing when the version exceeds every threshold. */
  lemma FindNothing(version: string, table: seq<Threshold>)
    requires forall j :: 0 <= j < |table| ==> VersionCmp(version, table[j].max) > 0
    ensures FindVulnerable(version, table, 0) == None
  {
  }

  lemma TableMaxima()
    ensures |VulnerableVersions| == 4
    ensures VulnerableVersions[0] == Threshold("1.4.4", CRITICAL)
    ensures VulnerableVersions[1] == Threshold("1.6.4", HIGH)
    ensures VulnerableVersions[2] == Threshold("1.9.1", MEDIUM)
    ensures VulnerableVersions[3] == Threshold("2.2.4", MEDIUM)
  {
  }

  /** Thresholds listed in increasing order. */
  predicate Ascending(t: seq<Threshold>) {
    forall i, j :: 0 <= i < j < |t| ==> VersionCmp(t[i].max, t[j].max) <= 0
  }

  /** Four thresholds in increasing order from one to the next are in increasing order pairwise. */
  lemma FourAscending(t: seq<Threshold>)
    requires |t| == 4
    requires VersionCmp(t[0].max, t[1].max) <= 0
    requires VersionCmp(t[1].max, t[2].max) <= 0
    requires VersionCmp(t[2].max, t[3].max) <= 0
    ensures Ascending(t)
  {
    VersionCmpTransitive(t[0].max, t[1].max, t[2].max);
    VersionCmpTransitive(t[1].max, t[2].max, t[3].max);
    VersionCmpTransitive(t[0].max, t[2].max, t[3].max);
  }

  /** In an ascending table, a version above threshold `k - 1` is above every earlier threshold too. */
  lemma ExceedsAllBelow(version: string, t: seq<Threshold>, k: nat)
    requires Ascending(t) && k <= |t|
    requires k > 0 ==> VersionCmp(version, t[k - 1].max) > 0
    ensures forall j :: 0 <= j < k ==> VersionCmp(version, t[j].max) > 0
  {
    forall j | 0 <= j < k - 1 ensures VersionCmp(version, t[j].max) > 0 {
      ExceedsLower(version, t[j].max, t[k - 1].max);
    }
  }

  /**
   * In an ascending table `find` stops at the first threshold the version
   * does not exceed, and finds nothing when the version exceeds the last.
   */
  lemma AscendingTableBands(version: string, t: seq<Threshold>, k: nat)
    requires Ascending(t) && k < |t|
    ensures VersionCmp(version, t[k].max) <= 0 && (k > 0 ==> VersionCmp(version, t[k - 1].max) > 0) ==>
      FindVulnerable(version, t, 0) == Some(k)
    ensures k == |t| - 1 && VersionCmp(version, t[k].max) > 0 ==> FindVulnerable(version, t, 0) == None
  {
    if VersionCmp(version, t[k].max) <= 0 && (k > 0 ==> VersionCmp(version, t[k - 1].max) > 0) {
      ExceedsAllBelow(version, t, k);
      FindStopsAt(version, t, k);
    }
    if k == |t| - 1 && VersionCmp(version, t[k].max) > 0 {
      ExceedsAllBelow(version, t, |t|);
      FindNothing(version, t);
    }
  }

  /** A version above `y` is above every `x` that does not exceed `y`. */
  lemma ExceedsLower(version: string, x: string, y: string)
    requires VersionCmp(x, y) <= 0
    ensures VersionCmp(version, y) > 0 ==> VersionCmp(version, x) > 0
  {
    if VersionCmp(version, x) <= 0 {
      VersionCmpTransitive(version, x, y);
    }
  }

  /** The severity bands of the jQuery rule, the first matching threshold deciding. */
  lemma JQueryBands(version: string)
    ensures VersionCmp(version, "1.4.4") <= 0 ==>
      JQueryVerdict(version) == (Some(FAIL), Some(CRITICAL))
    ensures VersionCmp(version, "1.4.4") > 0 && VersionCmp(version, "1.6.4") <= 0 ==>
      JQueryVerdict(version) == (Some(FAIL), Some(HIGH))
    ensures VersionCmp(version, "1.6.4") > 0 && VersionCmp(version, "2.2.4") <= 0 ==>
      JQueryVerdict(version) == (Some(FAIL), Some(MEDIUM))
    ensures VersionCmp(version, "2.2.4") > 0 ==>
      JQueryVerdict(version) == (Some(PASS), None)
  {
    var t := VulnerableVersions;
    TableMaxima();
    ThresholdsAscend();
    FourAscending(t);
    VerdictOfFind(version);
    AscendingTableBands(version, t, 0);
    AscendingTableBands(version, t, 1);
    AscendingTableBands(version, t, 3);
    if VersionCmp(version, "1.6.4") > 0 && VersionCmp(version, "2.2.4") <= 0 {
      AscendingTableBands(version, t, 2);
    }
  }

  /** The verdict is `fail` with the severity of the threshold `find` returns, or `pass` when it returns none. */
  lemma VerdictOfFind(version: string)
    ensures var r := FindVulnerable(version, VulnerableVersions, 0);
      && (r.Some? ==> JQueryVerdict(version) == (Some(FAIL), Some(VulnerableVersions[r.value].severity)))
      && (r.None? ==> JQueryVerdict(version) == (Some(PASS), None))
  {
  }

  // ===== Registry =====

  /** The name and description a rule is declared with. */
  datatype Entry = Entry(name: string, description: string)

  const JQueryEntry := Entry("jQuery Version", "Checks for vulnerable jQuery versions")
  const OutdatedLibrariesEntry := Entry("Outdated Libraries", "Detects known vulnerable library versions")
  const MixedContentEntry := Entry("Mixed Content", "Detects HTTP resources on HTTPS pages")
  const HstsEntry := Entry("HSTS Validation", "Checks for Strict-Transport-Security header")
  const WebSocketSecurityEntry := Entry("WebSocket Security", "Checks for insecure WebSocket connections (ws://)")
  const CookieSecurityEntry := Entry("Cookie Security", "Checks for Secure/HttpOnly cookie flags")
  const PasswordFieldsEntry := Entry("Password Fields", "Checks for insecure password fields")
  const PasswordVisibilityEntry := Entry("Password Visibility", "Checks if passwords are visible in DOM")
  const PasswordAutocompleteEntry := Entry("Password Autocomplete", "Checks password fields have autocomplete=off")
  const CspHeaderEntry := Entry("CSP Header", "Checks for Content Security Policy")
  const XssEntry := Entry("XSS Protection", "Checks X-XSS-Protection header")
  const ReferrerEntry := Entry("Referrer Policy", "Checks for Referrer-Policy header")
  const PermissionsEntry := Entry("Permissions Policy", "Checks for Permissions-Policy header")
  const ClickjackingEntry := Entry("Clickjacking Protection", "Checks for X-Frame-Options header")
  const ServerEntry := Entry("Server Header", "Checks for Server header disclosure")
  const SriEntry := Entry("SRI Validation", "Checks for missing SRI on scripts/styles")
  const ThirdPartyScriptsEntry := Entry("Third-Party Scripts", "Detects potentially risky third-party scripts")
  const DocumentStandardsEntry := Entry("Document Standards", "Checks document compatibility mode")
  const DocumentWriteEntry := Entry("document.write() Usage", "Detects dangerous document.write() calls")
  const FormActionEntry := Entry("Form Action Security", "Checks form submission targets")

  const HiddenDataCollectionEntry := Entry("Hidden Data Collection", "Detects hidden forms/iframes that might collect data")
  const BeaconTrackingEntry := Entry("Beacon Tracking", "Checks for navigator.sendBeacon() usage")
  const WebSocketExfiltrationEntry := Entry("WebSocket Data Exfiltration", "Checks for WebSocket connections sending sensitive data")
  const LocalStorageEntry := Entry("Local Storage Sensitive Data", "Checks for sensitive data in localStorage")
  const SessionStorageEntry := Entry("Session Storage Sensitive Data", "Checks for sensitive data in sessionStorage")
  const FingerprintingEntry := Entry("Browser Fingerprinting", "Detects common fingerprinting techniques")
  const BackgroundExfiltrationEntry := Entry("Background Data Exfiltration", "Detects hidden tracking pixels and background data collection")

  /** A rule whose body is one of the header functions above. */
  function HeaderRule(e: Entry, check: Headers -> Finding): Rule {
    Rule(e.name, e.description, (req: Request) => Returned(check(req.headers)))
  }

  /** A rule that reads page state this model does not describe: its body is `probe(name)`. */
  function PageRule(probe: string -> Request -> Outcome, e: Entry): Rule {
    Rule(e.name, e.description, probe(e.name))
  }

  /** `securityTests` as declared: twenty rules, in this order of names. */
  function SecurityTests(probe: string -> Request -> Outcome): (tests: seq<Rule>)
    ensures |tests| == |BaseTestNames|
    ensures forall i :: 0 <= i < |BaseTestNames| ==> tests[i].name == BaseTestNames[i]
  {
    [
      Rule(JQueryEntry.name, JQueryEntry.description,
        (req: Request) => JQueryVersion(req.page.jquery)),
      PageRule(probe, OutdatedLibrariesEntry),
      PageRule(probe, MixedContentEntry),
      HeaderRule(HstsEntry, HstsValidation),
      PageRule(probe, WebSocketSecurityEntry),
      PageRule(probe, CookieSecurityEntry),
      PageRule(probe, PasswordFieldsEntry),
      PageRule(probe, PasswordVisibilityEntry),
      PageRule(probe, PasswordAutocompleteEntry),
      PageRule(probe, CspHeaderEntry),
      HeaderRule(XssEntry, XssProtection),
      HeaderRule(ReferrerEntry, ReferrerPolicy),
      HeaderRule(PermissionsEntry, PermissionsPolicy),
      HeaderRule(ClickjackingEntry, ClickjackingProtection),
      HeaderRule(ServerEntry, ServerHeader),
      PageRule(probe, SriEntry),
      PageRule(probe, ThirdPartyScriptsEntry),
      PageRule(probe, DocumentStandardsEntry),
      PageRule(probe, DocumentWriteEntry),
      PageRule(probe, FormActionEntry)
    ]
  }

  /** `enhancedSecurityTests` as declared: seven rules, in this order of names. */
  function EnhancedSecurityTests(probe: string -> Request -> Outcome): (tests: seq<Rule>)
    ensures |tests| == |EnhancedTestNames|
    ensures forall i :: 0 <= i < |EnhancedTestNames| ==> tests[i].name == EnhancedTestNames[i]
  {
    [
      PageRule(probe, HiddenDataCollectionEntry),
      PageRule(probe, BeaconTrackingEntry),
      PageRule(probe, WebSocketExfiltrationEntry),
      PageRule(probe, LocalStorageEntry),
      PageRule(probe, SessionStorageEntry),
      PageRule(probe, FingerprintingEntry),
      PageRule(probe, BackgroundExfiltrationEntry)
    ]
  }

  /** `securityTests.push(...enhancedSecurityTests)`: the enhanced rules go after the base ones. */
  function Registry(probe: string -> Request -> Outcome): seq<Rule> {
    SecurityTests(probe) + EnhancedSecurityTests(probe)
  }

  const BaseTestNames: seq<string> := [
    "jQuery Version", "Outdated Libraries", "Mixed Content", "HSTS Validation",
    "WebSocket Security", "Cookie Security", "Password Fields", "Password Visibility",
    "Password Autocomplete", "CSP Header", "XSS Protection", "Referrer Policy",
    "Permissions Policy", "Clickjacking Protection", "Server Header", "SRI Validation",
    "Third-Party Scripts", "Document Standards", "document.write() Usage", "Form Action Security"]

  const EnhancedTestNames: seq<string> := [
    "Hidden Data Collection", "Beacon Tracking", "WebSocket Data Exfiltration",
    "Local Storage Sensitive Data", "Session Storage Sensitive Data", "Browser Fingerprinting",
    "Background Data Exfiltration"]

  lemma TestNamesDistinct()
    ensures |BaseTestNames + EnhancedTestNames| == 27
    ensures forall i, j :: 0 <= i < j < 27 ==>
      (BaseTestNames + EnhancedTestNames)[i] != (BaseTestNames + EnhancedTestNames)[j]
  {
  }

  /** The registry holds the 20 base rules and then the 7 enhanced ones, and no two share a name. */
  lemma RegistryNamesDistinct(probe: string -> Request -> Outcome)
    ensures |Registry(probe)| == 27
    ensures forall i :: 0 <= i < 27 ==> Registry(probe)[i].name == (BaseTestNames + EnhancedTestNames)[i]
    ensures forall i, j :: 0 <= i < j < 27 ==> Registry(probe)[i].name != Registry(probe)[j].name
  {
    var base: seq<Rule>, enhanced: seq<Rule> := SecurityTests(probe), EnhancedSecurityTests(probe);
    var names := BaseTestNames + EnhancedTestNames;
    TestNamesDistinct();
    forall i | 0 <= i < 27 ensures (base + enhanced)[i].name == names[i] {
      if i < 20 {
        assert (base + enhanced)[i] == base[i] && names[i] == BaseTestNames[i];
      } else {
        assert (base + enhanced)[i] == enhanced[i - 20] && names[i] == EnhancedTestNames[i - 20];
      }
    }
  }
}
