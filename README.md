# Vigilante scanner core in Dafny

Vigilante is a browser extension that scans the open page for security
weaknesses. Its content script holds a registry of rules. Each rule looks at
the page or at the response headers, and returns a finding or throws. A
runner runs the rules in order and turns each outcome into a finding record.
The popup shows the findings with their tallies. It scores them out of 100,
puts the score in a risk band, and escapes the findings' text before it
writes the PDF report.

This project models that data path:

- `JsValues`: the few JavaScript values and string built-ins the code relies on. An absent key is `None`; truthiness of a string; `split` and `includes`.
- `Findings`: the finding record, `{status, details}` result literals and the object spread `{...a, ...b}`.
- `Versions`: `versionCompare`. The method keeps the source's early-return loop and is proved against a recursive specification. That specification is proved to be a total preorder that ignores trailing zero components.
- `Rules`: the six header-driven rules, the jQuery rule with its severity table, and the registry of all 27 rules in registration order. The DOM-reading rules are opaque, given as `probe(name)`.
- `Scanner`: the runner loop with its per-rule try/catch, proved against a recursive specification.
- `Risk`: `calculateRiskScore` as a loop proved against a penalty sum, and `getRiskLevel` / `getRiskColor`.
- `Escape`: `escapeHtml` as the source's chain of five global replacements. It is proved equal to escaping character by character, and decoding its entities is proved to restore the input.
- `Report`:
  - `sanitizeResults`;
  - the status and severity tallies;
  - the rows `showResults` renders, with their defaults and, as in the source, without escaping;
  - the corrected rows, built from the sanitized findings;
  - the popup state `scanComplete` leaves behind, as a class.

## Model

| member | source | states |
|---|---|---|
| JsValues.Split | src/content/content.js:10-11 | `split('.')` yields at least one piece, also for the empty string |
| JsValues.SplitSpec | src/content/content.js:10-11 | no piece of the split contains the separator, and joining the pieces gives the input back |
| JsValues.SplitUnique | src/content/content.js:10-11 | any pieces with those three properties are exactly the split, so the split is determined by its contract |
| JsValues.Contains | src/content/content.js:233-236 | `includes(sub)` holds exactly when `sub` occurs at some position of the string |
| Findings.Result | src/content/content.js:29 | a rule's `{status, details}` literal has those two keys and no others |
| Findings.Spread | src/content/content.js:585-590 | every key of the rule's result overrides `test`/`description`/`url`, the other keys keep the base value; spreading `{}` changes nothing |
| Versions.PartValue | src/content/content.js:10-11 | `Number(piece) \|\| 0`: the empty piece and any piece with a non-digit read as 0, a single digit reads as its value |
| Versions.PartValueDigits | src/content/content.js:10-11 | a digit string reads as a decimal number: its value is ten times the value without its last digit, plus that digit |
| Versions.Parts | src/content/content.js:10-11 | one numeric part per piece of the split |
| Versions.CompareFrom | src/content/content.js:13-18 | the comparison from a position on is always -1, 0 or 1 |
| Versions.VersionCmp | src/content/content.js:9-20 | `versionCompare` returns -1, 0 or 1 |
| Versions.VersionCompare | src/content/content.js:9-20 | the loop with early returns computes exactly the specification's comparison |
| Versions.CompareStep | src/content/content.js:13-17 | one loop step: compare parts `i` (0 past the end), and continue only on equality |
| Versions.CompareZeroIff | src/content/content.js:13-19 | the result is 0 exactly when the part lists agree at every position, missing parts read as 0 |
| Versions.CompareAntisymmetric | src/content/content.js:15-16 | swapping the part lists negates the result |
| Versions.CompareTransitive | src/content/content.js:13-19 | "at most" is transitive over part lists |
| Versions.VersionCmpReflexive | src/content/content.js:9-20 | every version compares equal to itself |
| Versions.VersionCmpAntisymmetric | src/content/content.js:9-20 | `versionCompare(a, b) == -versionCompare(b, a)` |
| Versions.VersionCmpTransitive | src/content/content.js:9-20 | `a <= b` and `b <= c` give `a <= c` |
| Versions.VersionCmpZeroIff | src/content/content.js:9-20 | two versions compare equal exactly when their parts agree up to trailing zeros |
| Versions.TrailingZeroIsIgnored | src/content/content.js:14-15 | `v` and `v + ".0"` compare equal |
| Versions.JoinSnoc | src/content/content.js:10 | joining pieces with one more piece appended adds the separator and that piece |
| Rules.HeaderValue | src/background/background.js:108 | `headers[key]` on a header map is present exactly for its keys and reads that key's value; the `{unavailable: true}` sentinel has only the key `unavailable`, which reads as the truthy "true" |
| Rules.HstsValidation | src/content/content.js:95-117 | `na` exactly when `headers.unavailable` is truthy (the background sentinel, or a captured header of that name), `error` exactly for null headers, `pass` exactly when the header is non-empty (details quote it), otherwise `fail` with severity high; a severity only on `fail` |
| Rules.XssProtection | src/content/content.js:227-243 | `error` exactly for null headers; a present header passes iff it contains `mode=block`, else warns with a fix; a missing header fails with severity medium; a severity exactly on `fail`, so the error and pass findings carry none |
| Rules.ReferrerPolicy | src/content/content.js:244-259 | `error` iff null headers; `pass` iff the header is present; `warn` with severity low iff it is missing; a severity exactly on `warn`, so the error and pass findings carry none |
| Rules.PermissionsPolicy | src/content/content.js:260-275 | `error` iff null headers; `pass` iff present; `warn` with severity medium iff missing; a severity exactly on `warn`, so the error and pass findings carry none |
| Rules.ClickjackingProtection | src/content/content.js:276-291 | `error` iff null headers; `pass` iff `x-frame-options` is present; `fail` with severity high iff missing; a severity exactly on `fail`, so the error and pass findings carry none |
| Rules.ServerHeader | src/content/content.js:292-304 | `error` iff null headers; `warn` with severity low iff a `server` header is present, quoting it; `pass` iff it is absent; a severity exactly on `warn`, so the error and pass findings carry none |
| Rules.SentinelReadsAsNoHeaders | src/content/content.js:95-117 | with the unavailable sentinel only HSTS says `na`; the other five rules treat it as an empty header map (XSS fail, Referrer warn, Permissions warn, Clickjacking fail, Server pass) |
| Rules.HeaderRulesAreLocal | src/content/content.js:227-304 | each header rule depends only on its own header |
| Rules.FindVulnerable | src/content/content.js:38 | `find` returns the first threshold the version does not exceed, and the version exceeds every earlier one; none when it exceeds all |
| Rules.JQueryVersion | src/content/content.js:25-50 | no jQuery gives `na` "jQuery not used"; a jQuery without a version string throws |
| Rules.PartsOf144 | src/content/content.js:32 | the threshold "1.4.4" reads as the parts [1, 4, 4] |
| Rules.PartsOf164 | src/content/content.js:33 | "1.6.4" reads as [1, 6, 4] |
| Rules.PartsOf191 | src/content/content.js:34 | "1.9.1" reads as [1, 9, 1] |
| Rules.PartsOf224 | src/content/content.js:35 | "2.2.4" reads as [2, 2, 4] |
| Rules.PartsOf1124 | src/content/content.js:10-11 | "1.12.4" reads as [1, 12, 4] |
| Rules.PartsOf1100 | src/content/content.js:10-11 | "1.10.0" reads as [1, 10, 0] |
| Rules.NumericNotTextual | src/content/content.js:9-20 | versions compare as numbers, not as text: 1.10.0 is later than 1.9.1 |
| Rules.JQuery1124IsMedium | src/content/content.js:31-48 | jQuery 1.12.4 fails with severity medium, falling between the 1.9.1 and 2.2.4 thresholds |
| Rules.DigitValues | src/content/content.js:10 | the digits of the thresholds read as their values |
| Rules.ThresholdsAscend | src/content/content.js:31-36 | the table's thresholds are strictly increasing under `versionCompare` |
| Rules.TableMaxima | src/content/content.js:31-36 | the table has four entries: 1.4.4 critical, 1.6.4 high, 1.9.1 medium, 2.2.4 medium |
| Rules.FindStopsAt | src/content/content.js:38 | `find` stops at the first threshold not exceeded |
| Rules.FindNothing | src/content/content.js:38 | `find` finds nothing when every threshold is exceeded |
| Rules.FourAscending | src/content/content.js:31-36 | four thresholds increasing from one to the next increase pairwise |
| Rules.ExceedsAllBelow | src/content/content.js:38 | in an ascending table a version above one threshold is above every earlier one |
| Rules.AscendingTableBands | src/content/content.js:31-38 | in any ascending table `find` stops at the first threshold the version does not exceed, and finds nothing past the last |
| Rules.ExceedsLower | src/content/content.js:38 | a version above a threshold is above every lower threshold |
| Rules.JQueryBands | src/content/content.js:25-50 | versions up to 1.4.4 fail critical, up to 1.6.4 fail high, up to 2.2.4 fail medium, later versions pass without severity |
| Rules.VerdictOfFind | src/content/content.js:38-48 | the rule fails with the severity of the threshold `find` returns, and passes without severity when it returns none |
| Rules.TestNamesDistinct | src/content/content.js:23-569 | the 27 rule names are pairwise distinct |
| Rules.RegistryNamesDistinct | src/content/content.js:572 | after the push the registry holds the 20 base rules then the 7 enhanced ones, no two sharing a name |
| Rules.SecurityTests | src/content/content.js:23-391 | `securityTests` holds the 20 base rules, names in declaration order |
| Rules.EnhancedSecurityTests | src/content/content.js:393-569 | `enhancedSecurityTests` holds the 7 enhanced rules, names in declaration order |
| Scanner.FindingFor | src/content/content.js:585-599 | every finding carries a test name and the url; a rule that throws gives an `error` finding under its own name, without a description |
| Scanner.Scan | src/content/content.js:583-600 | one finding per rule |
| Scanner.RunScan | src/content/content.js:583-600 | the runner loop yields exactly the specified findings, one per rule |
| Scanner.ScanShape | src/content/content.js:583-600 | finding `i` comes from rule `i`, and there is one finding per rule |
| Scanner.ScanAppend | src/content/content.js:572-600 | scanning a concatenation of rule lists concatenates the scans |
| Scanner.RegistryScan | src/content/content.js:572-600 | the registry scan is the base rules' findings followed by the enhanced rules' findings, 27 in all |
| Scanner.ThrownRuleFinding | src/content/content.js:592-598 | a throwing rule gives an `error` finding: its name, the url, "Test failed: " + message, no description, severity or fix |
| Scanner.ReturnedRuleFinding | src/content/content.js:585-591 | a returning rule's finding carries its name, description and url unless its own result has those keys; every other key is its own |
| Scanner.ScanIsolation | src/content/content.js:583-600 | replacing one rule, say by one that throws, changes that rule's finding and no other |
| Scanner.HeaderRuleFinding | src/content/content.js:585-590 | a header rule's finding is its header verdict under the rule's name, description and url |
| Scanner.ScanWithUnavailableHeaders | src/content/content.js:583-600 | a full scan with the sentinel headers reports HSTS `na`, XSS `fail`, Referrer `warn`, Permissions `warn`, Clickjacking `fail`, Server `pass`, at their registry positions |
| Scanner.SentinelStatuses | src/content/content.js:95-304 | the status each header rule reports for the unavailable sentinel |
| Scanner.HeaderRulePositions | src/content/content.js:95-304 | the header rules sit at registry positions 3 and 10 to 14 |
| Risk.Penalty | src/popup/popup.js:516-518 | a finding costs points exactly when its severity is critical/high/medium/low and its status is not `pass`, and at most 5 |
| Risk.RiskScore | src/popup/popup.js:506-522 | the score lies in [0, 100]: 100 minus the total penalty, or 0 when the penalties reach 100 |
| Risk.CalculateRiskScore | src/popup/popup.js:506-522 | the `forEach` decrement loop with its final clamp computes exactly the score |
| Risk.PenaltyAppend | src/popup/popup.js:515-519 | the penalty of two lists together is the sum of their penalties |
| Risk.ScoreExamples | src/popup/popup.js:506-522 | no findings score 100; a failing critical finding and a failing high finding score 92 |
| Risk.PassCostsNothing | src/popup/popup.js:516 | a passed finding leaves the score unchanged whatever its severity; any other status costs the severity's weight |
| Risk.AppendNeverRaises | src/popup/popup.js:513-521 | adding findings never raises the score |
| Risk.PenaltyRemove | src/popup/popup.js:515-519 | removing one finding removes exactly its penalty |
| Risk.PenaltyFrom | src/popup/popup.js:506-522 | the findings from position j cost finding j plus those after it |
| Risk.MultisetRemove | src/popup/popup.js:515-519 | removing matching elements from two permutations leaves permutations |
| Risk.ScoreIgnoresOrder | src/popup/popup.js:506-522 | permuting the findings changes neither the penalty nor the score |
| Risk.RiskLevel | src/popup/popup.js:524-529 | Low at 80 and above, Medium in [50, 80), High in [20, 50), Critical below 20 |
| Risk.RiskColor | src/popup/popup.js:617-622 | the colour is the colour of the score's band, as `getRiskLevel` draws the bands |
| Risk.ColorFollowsLevel | src/popup/popup.js:617-622 | the colour is a function of the band, with the same thresholds, and distinct bands get distinct colours |
| Risk.LevelMonotonic | src/popup/popup.js:524-529 | a higher score never gives a worse band |
| Risk.LevelBoundaries | src/popup/popup.js:524-529 | each band includes its lower bound: 80, 50 and 20 |
| Escape.ReplaceAll | src/popup/popup.js:299-303 | `replace(/c/g, rep)` leaves text without `c` alone and introduces no character other than the input's and the replacement's |
| Escape.EscapeHtml | src/popup/popup.js:296-304 | escaping never shortens the text, and text without the five special characters comes back unchanged |
| Escape.EscapeHtmlSafe | src/popup/popup.js:296-304 | the output has no `<`, `>`, `"` or `'` |
| Escape.EscapeOptional | src/popup/popup.js:297 | a non-string value comes back unchanged; a string is escaped |
| Escape.ReplaceAllAppend | src/popup/popup.js:299-303 | a global replace distributes over concatenation |
| Escape.EscapeHtmlAppend | src/popup/popup.js:298-303 | escaping distributes over concatenation |
| Escape.ReplaceOne | src/popup/popup.js:299-303 | a replacement on one character replaces it or keeps it |
| Escape.EscapeHtmlChar | src/popup/popup.js:298-303 | each character becomes its own entity: no later replacement touches an earlier entity |
| Escape.EscapeHtmlIsCharwise | src/popup/popup.js:296-304 | the chain of five replacements equals escaping character by character |
| Escape.UnescapeEntity | src/popup/popup.js:299-303 | decoding reads an entity back as its character |
| Escape.UnescapeEscapeHtml | src/popup/popup.js:296-304 | decoding the five entities restores the input |
| Escape.UnescapePlain | src/popup/popup.js:296-304 | text without `&` holds no entity and decodes to itself |
| Escape.EntityAmpersand | src/popup/popup.js:299-303 | inside an entity `&` occurs only at its start |
| Escape.EachAmpersandStartsEntity | src/popup/popup.js:299-303 | in the character-wise escape every `&` starts an entity |
| Escape.AmpersandsStartEntities | src/popup/popup.js:298-303 | every `&` of the output starts one of the five entities |
| Escape.AmpersandLastDoubleEscapes | src/popup/popup.js:299 | with `&` replaced last, "<" would become "&amp;lt;", hence `&` first |
| Report.EscapeAll | src/popup/popup.js:289 | element-wise escaping keeps the length, each element escaped |
| Report.SanitizeExamples | src/popup/popup.js:288-292 | an array is escaped element by element (kept when empty), a non-empty text escaped, a missing or empty one becomes null |
| Report.SanitizeFinding | src/popup/popup.js:282-293 | status, severity, url and reference are unchanged; a falsy fix becomes null; missing examples stay missing |
| Report.SanitizeResults | src/popup/popup.js:281-294 | one sanitized finding per finding, same length and order |
| Report.EscapedIsInert | src/popup/popup.js:296-304 | escaped text opens no tag, closes no attribute and holds no bare `&` |
| Report.SanitizedFindingIsInert | src/popup/popup.js:282-293 | every escaped field of a sanitized finding is inert |
| Report.SanitizedResultsAreInert | src/popup/popup.js:281-294 | every sanitized finding is inert in those fields |
| Report.UnescapeEscapeOptional | src/popup/popup.js:297 | decoding an escaped optional field restores it |
| Report.SanitizeRoundTrip | src/popup/popup.js:281-294 | decoding restores test, description, details, a truthy fix and every example |
| Report.CountStatus | src/popup/popup.js:307-311 | a status count is at most the number of findings |
| Report.CountSeverity | src/popup/popup.js:314-319 | a severity count is at most the number of findings |
| Report.Summarize | src/popup/popup.js:550-554 | the five status counts of the results view; together they count each finding with a known status exactly once |
| Report.SeverityBreakdown | src/popup/popup.js:314-319 | each severity count of the report is at most the number of findings |
| Report.StatusCountsSum | src/popup/popup.js:550-554 | the five status counts sum to the number of findings with one of the five statuses, at most the list length |
| Report.PenaltyAndSeverityTally | src/popup/popup.js:314-319 | severity counts include passed findings: penalty plus passed weight equals 5·critical + 3·high + 2·medium + low |
| Report.PassedWeightZero | src/popup/popup.js:516 | the passed weight is 0 exactly when no passed finding has a known severity |
| Report.HeaderErrorsCostNothing | src/content/content.js:95-304 | with null headers every header rule reports `error` without a severity, so none of them costs a point |
| Report.PenaltyBoundedBySeverities | src/popup/popup.js:506-522 | the weighted severity tally bounds the penalty, with equality iff no passed finding carries a known severity |
| Report.SanitizeKeepsTallies | src/popup/popup.js:111-135 | sanitized and raw findings give the same tallies and score, so the PDF's text and charts agree |
| Report.OrDefault | src/popup/popup.js:572-575 | a truthy value is shown as it is; a falsy one is replaced by the fallback |
| Report.IfTruthy | src/popup/popup.js:588-603 | an optional block is shown exactly for a truthy field |
| Report.ExamplesShown | src/popup/popup.js:604-611 | an array shows its first three elements (an empty array shows an empty block), a text shows the placeholder, a missing or empty value hides the block |
| Report.DisplayRow | src/popup/popup.js:571-614 | name, status, description and details fall back to "Unknown Test", "error", "No description available", "No details available" |
| Report.RowsAreNeverBlank | src/popup/popup.js:572-611 | no row shows an empty name, status, description or details; at most three examples; fix and severity shown iff truthy |
| Report.RawRowCarriesMarkup | src/popup/popup.js:567-614 | a `Server` header holding markup reaches the popup row's details verbatim |
| Report.EscapeKeepsTruthy | src/popup/popup.js:296-304 | escaping keeps a field truthy exactly when it was, so `x \|\| fallback` picks the same branch before and after |
| Report.OrDefaultUnescapes | src/popup/popup.js:572-575 | a shown text field of the sanitized finding decodes to the raw row's text, fallback included |
| Report.FixUnescapes | src/popup/popup.js:594-598 | the sanitized fix block decodes to the raw row's fix block |
| Report.ExamplesUnescape | src/popup/popup.js:604-611 | the sanitized examples block decodes to the raw row's examples block |
| Report.SafeDisplayRow | src/popup/popup.js:281-294 | the corrected row, from the sanitized finding: its name, description, details, fix and examples hold no `<`, `>`, quote or bare `&`, decoding those parts gives the raw row back, and its status, severity badge and reference are the raw row's |
| Report.DefaultsAreInert | src/popup/popup.js:573-575 | the fallback texts hold no markup |
| Report.OrDefaultInert | src/popup/popup.js:572-575 | an inert field with an inert default stays inert |
| Report.ExamplesShownInert | src/popup/popup.js:604-611 | the examples shown are among the examples, so inert examples give an inert block |
| Report.InertRow | src/popup/popup.js:571-614 | the row of an inert finding shows no markup in name, description, details, fix or examples |
| Report.DisplayRows | src/popup/popup.js:567-614 | one row per finding, in order, each the unescaped row of that finding |
| Report.ResultsScreen | src/popup/popup.js:549-615 | the results view shows the status summary, the risk score in [0, 100], its band and the band's colour, and the unescaped row of each finding in order |
| Report.SanitizedScreen | src/popup/popup.js:281-294 | showing the sanitized findings instead keeps the summary, score, band and colour, and turns every row into its inert counterpart with the same status |
| Report.Popup.constructor | src/popup/popup.js:4 | the popup opens with no stored results; the report button starting disabled is assumed, since the page markup that sets it is not part of this model |
| Report.Popup.StartScan | src/popup/popup.js:19-26 | a scan start blanks the view and disables the report button, keeping the stored results |
| Report.Popup.ScanComplete | src/popup/popup.js:49-71 | an error or empty list is shown as an error and keeps the stored results; otherwise results are stored and shown and the report button enabled; the button is enabled only with stored results |

## Left out

- src/background/background.js is not modelled beyond its `{unavailable: true}` sentinel. This covers header capture, debugger attachment, timeouts, tab handling and icon updates, all browser I/O. The header map is taken as given. Header names are lower-cased only when the headers come from `webRequest` (background.js:27-30). The debugger fallback passes the server's own casing through (background.js:48, 61). A server that sends `Strict-Transport-Security` in that casing then gets a missing-header verdict from every lower-case lookup of the header rules.
- The DOM-, storage- and `window`-reading rules of the content script are opaque functions `probe(name)`. Their bodies read browser state this model has no counterpart for.
- `async`/`await` in the runner and the message listener: the loop is modelled as sequential. A rejected promise counts as a throw.
- Rendering is not modelled: HTML templates, `toUpperCase` of status and severity badges, Chart.js, html2canvas, jsPDF, PDF page splitting, downloads, and button and spinner appearance.
- `startScan` messaging is not modelled: `chrome.runtime.sendMessage`, the `response.data || []` defaulting, and the exception path feeding `scanComplete`. `Popup.StartScan` models only its state reset.
- `showError` markup and `generatePDFHTML`'s date and URL header line.
- Report.Popup.ScanComplete: the popup stores and shows the unescaped rows, as `scanComplete` and `showResults` do; the corrected rows are `SafeDisplayRow`, and `SanitizedScreen` states what the popup would show with the fix.
- popup.html is not part of this model: the report button's initial disabled state is taken as given.
- Report.Popup.Valid holds only between scans and PDF downloads. `generatePDFReport` is not modelled. Its `finally` re-enables the report button unconditionally (popup.js:276), even when a scan started during generation. Its error path rewrites the scan status line (popup.js:262-267). Either breaks the invariant.
- Versions.PartValue: `Number(part)` is modelled only for digit strings. Any other piece reads as 0. Whitespace, signs, hexadecimal, exponents, `Infinity` and fractions are not modelled. Digit strings are read exactly here, while the source reads them as IEEE doubles. It rounds those beyond 2^53, so "9007199254740993" and "9007199254740992" compare equal there but not in `VersionCmp`. Strings of 309 or more digits overflow to `Infinity` in the source.
- Risk.Weight: a severity naming an `Object.prototype` key (for instance "constructor") would make the source's score `NaN`; the model reads every unknown severity as weight 0.
- Null and undefined are both `None`. A key explicitly set to `undefined` in a rule's result is not distinguished from an absent key in the spread, though JavaScript's spread would copy `undefined` over the base value.
- Extra keys some opaque rules return (such as a CSP rule's `policy`) are not part of the record.
- Report.CountStatus: null entries in the results array, handled by `r?.` in the source, are not modelled. Every finding is an object.
- Report.SanitizeExamples: array examples are taken to be strings; `escapeHtml` passes non-string elements through unchanged.

## Findings

| source | as written | input that shows it | evidently intended | confidence | as-written member | corrected member |
|---|---|---|---|---|---|---|
| src/popup/popup.js:567-614 | `showResults` interpolates each finding's test name, description, details, fix and examples into `innerHTML` without escaping. Page-controlled text, such as a response's `Server` header quoted in the Server Header finding, is therefore parsed as markup in the extension popup. | a page served with `Server: <img src=x onerror=alert(1)>` | the popup escapes findings the way the PDF path does, through `sanitizeResults` (popup.js:281-294) | medium, not executed | Report.DisplayRow (Report.RawRowCarriesMarkup) | Report.SafeDisplayRow (Report.SanitizedScreen) |
