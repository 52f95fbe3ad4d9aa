/**
 * The scan runner of the content script: every registered rule is run in
 * registry order against the request, its result is merged into
 * `{test, description, url}`, and a rule that throws becomes an `error`
 * finding without stopping the scan.
 */
module Scanner {
  import opened JsValues
  import opened Findings
  import opened Rules

  /** The finding the runner records for one rule. */
  function FindingFor(t: Rule, req: Request, url: string): (f: Finding)
    ensures f.test.Some? && f.url.Some?
    ensures t.run(req).Threw? ==> f.test == Some(t.name) && f.status == Some(ERROR) && f.description.None?
  {
    match t.run(req)
    case Returned(partial) =>
      Spread(Empty().(test := Some(t.name), description := Some(t.description), url := Some(url)), partial)
    case Threw(message) =>
      Empty().(test := Some(t.name), url := Some(url), status := Some(ERROR),
               details := Some("Test failed: " + message))
  }

  /** The findings of a whole scan, one per rule, in the rules' order. */
  function Scan(tests: seq<Rule>, req: Request): (results: seq<Finding>)
    ensures |results| == |tests|
    decreases |tests|
  {
    if |tests| == 0 then []
    else [FindingFor(tests[0], req, req.page.href)] + Scan(tests[1..], req)
  }

  /** The runner's loop, collecting into `results`. */
  method RunScan(tests: seq<Rule>, req: Request) returns (results: seq<Finding>)
    ensures results == Scan(tests, req)
    ensures |results| == |tests|
  {
    results := [];
    var currentUrl := req.page.href;
    for i := 0 to |tests|
      invariant results == Scan(tests[..i], req)
    {
      var test := tests[i];
      var result;
      match test.run(req) {
        case Returned(partial) =>
          result := Spread(Empty().(test := Some(test.name), description := Some(test.description),
                                    url := Some(currentUrl)), partial);
        case Threw(message) =>
          result := Empty().(test := Some(test.name), url := Some(currentUrl), status := Some(ERROR),
                             details := Some("Test failed: " + message));
      }
      ScanAppend(tests[..i], [test], req);
      assert tests[..i + 1] == tests[..i] + [test];
      results := results + [result];
    }
    assert tests[..|tests|] == tests;
    ScanShape(tests, req);
  }

  /** Exactly one finding per rule, the i-th finding coming from the i-th rule. */
  lemma {:induction false} ScanShape(tests: seq<Rule>, req: Request)
    ensures |Scan(tests, req)| == |tests|
    ensures forall i :: 0 <= i < |tests| ==> Scan(tests, req)[i] == FindingFor(tests[i], req, req.page.href)
    decreases |tests|
  {
    if |tests| > 0 {
      ScanShape(tests[1..], req);
      forall i | 0 < i < |tests| ensures Scan(tests, req)[i] == FindingFor(tests[i], req, req.page.href) {
        assert tests[1..][i - 1] == tests[i];
      }
    }
  }

  /** Scanning two rule lists one after the other is scanning their concatenation. */
  lemma {:induction false} ScanAppend(a: seq<Rule>, b: seq<Rule>, req: Request)
    ensures Scan(a + b, req) == Scan(a, req) + Scan(b, req)
    decreases |a|
  {
    if |a| == 0 {
      assert a + b == b;
    } else {
      assert (a + b)[1..] == a[1..] + b;
      ScanAppend(a[1..], b, req);
    }
  }

  /** The scan of the registry: the base rules' findings, then the enhanced rules' findings. */
  lemma RegistryScan(probe: string -> Request -> Outcome, req: Request)
    ensures Scan(Registry(probe), req) == Scan(SecurityTests(probe), req) + Scan(EnhancedSecurityTests(probe), req)
    ensures |Scan(Registry(probe), req)| == 27
  {
    ScanAppend(SecurityTests(probe), EnhancedSecurityTests(probe), req);
    RegistryNamesDistinct(probe);
    ScanShape(Registry(probe), req);
  }

  /** A rule that throws yields an error finding with its name, the url and the message, and no description. */
  lemma ThrownRuleFinding(t: Rule, req: Request, url: string)
    requires t.run(req).Threw?
    ensures var f := FindingFor(t, req, url);
      && f.test == Some(t.name) && f.url == Some(url) && f.status == Some(ERROR)
      && f.details == Some("Test failed: " + t.run(req).message)
      && f.description.None? && f.severity.None? && f.fix.None?
  {
  }

  /**
   * A rule that returns carries the rule's name and description and the url,
   * except where its own result has that key, and everything else is its own.
   */
  lemma ReturnedRuleFinding(t: Rule, req: Request, url: string)
    requires t.run(req).Returned?
    ensures var p := t.run(req).finding;
      var f := FindingFor(t, req, url);
      && f.test == (if p.test.Some? then p.test else Some(t.name))
      && f.description == (if p.description.Some? then p.description else Some(t.description))
      && f.url == (if p.url.Some? then p.url else Some(url))
      && f.status == p.status && f.details == p.details && f.severity == p.severity
      && f.fix == p.fix && f.examples == p.examples && f.reference == p.reference
  {
  }

  /**
   * Isolation: replacing the rule at position k (say, by one that throws)
   * changes no other finding.
   */
  lemma ScanIsolation(tests: seq<Rule>, k: nat, other: Rule, req: Request)
    requires k < |tests|
    ensures var changed := tests[k := other];
      && |Scan(changed, req)| == |tests| && |Scan(tests, req)| == |tests|
      && Scan(changed, req)[k] == FindingFor(other, req, req.page.href)
      && forall i :: 0 <= i < |tests| && i != k ==> Scan(changed, req)[i] == Scan(tests, req)[i]
  {
    var changed := tests[k := other];
    ScanShape(tests, req);
    ScanShape(changed, req);
  }

  /** The finding of a header rule is the header function's verdict under the rule's name. */
  lemma HeaderRuleFinding(e: Entry, check: Headers -> Finding, req: Request, url: string)
    requires check(req.headers).test.None? && check(req.headers).description.None? && check(req.headers).url.None?
    ensures var f := FindingFor(HeaderRule(e, check), req, url);
      && f.test == Some(e.name) && f.description == Some(e.description) && f.url == Some(url)
      && f.status == check(req.headers).status && f.severity == check(req.headers).severity
      && f.details == check(req.headers).details
  {
  }

  /** A scan with the unavailable sentinel: HSTS says not applicable, the other header rules report missing headers. */
  lemma ScanWithUnavailableHeaders(probe: string -> Request -> Outcome, page: Page)
    ensures var s := Scan(Registry(probe), Request(Unavailable, page));
      && |s| == 27
      && s[3].test == Some("HSTS Validation") && s[3].status == Some(NA)
      && s[10].test == Some("XSS Protection") && s[10].status == Some(FAIL)
      && s[11].test == Some("Referrer Policy") && s[11].status == Some(WARN)
      && s[12].test == Some("Permissions Policy") && s[12].status == Some(WARN)
      && s[13].test == Some("Clickjacking Protection") && s[13].status == Some(FAIL)
      && s[14].test == Some("Server Header") && s[14].status == Some(PASS)
  {
    var req := Request(Unavailable, page);
    var url := page.href;
    var s := Scan(Registry(probe), req);
    HeaderRulePositions(probe);
    ScanShape(Registry(probe), req);
    assert s[3].test == Some("HSTS Validation") && s[3].status == Some(NA) by {
      SentinelStatuses();
      HeaderRuleFinding(HstsEntry, HstsValidation, req, url);
    }
    assert s[10].test == Some("XSS Protection") && s[10].status == Some(FAIL) by {
      SentinelStatuses();
      HeaderRuleFinding(XssEntry, XssProtection, req, url);
    }
    assert s[11].test == Some("Referrer Policy") && s[11].status == Some(WARN) by {
      SentinelStatuses();
      HeaderRuleFinding(ReferrerEntry, ReferrerPolicy, req, url);
    }
    assert s[12].test == Some("Permissions Policy") && s[12].status == Some(WARN) by {
      SentinelStatuses();
      HeaderRuleFinding(PermissionsEntry, PermissionsPolicy, req, url);
    }
    assert s[13].test == Some("Clickjacking Protection") && s[13].status == Some(FAIL) by {
      SentinelStatuses();
      HeaderRuleFinding(ClickjackingEntry, ClickjackingProtection, req, url);
    }
    assert s[14].test == Some("Server Header") && s[14].status == Some(PASS) by {
      SentinelStatuses();
      HeaderRuleFinding(ServerEntry, ServerHeader, req, url);
    }
  }

  /** What each header rule reports for the unavailable sentinel; none of them sets the runner's keys. */
  lemma SentinelStatuses()
    ensures HstsValidation(Unavailable).status == Some(NA)
    ensures XssProtection(Unavailable).status == Some(FAIL)
    ensures ReferrerPolicy(Unavailable).status == Some(WARN)
    ensures PermissionsPolicy(Unavailable).status == Some(WARN)
    ensures ClickjackingProtection(Unavailable).status == Some(FAIL)
    ensures ServerHeader(Unavailable).status == Some(PASS)
  {
    SentinelReadsAsNoHeaders();
  }

  lemma HeaderRulePositions(probe: string -> Request -> Outcome)
    ensures |Registry(probe)| == 27
    ensures Registry(probe)[3] == HeaderRule(HstsEntry, HstsValidation)
    ensures Registry(probe)[10] == HeaderRule(XssEntry, XssProtection)
    ensures Registry(probe)[11] == HeaderRule(ReferrerEntry, ReferrerPolicy)
    ensures Registry(probe)[12] == HeaderRule(PermissionsEntry, PermissionsPolicy)
    ensures Registry(probe)[13] == HeaderRule(ClickjackingEntry, ClickjackingProtection)
    ensures Registry(probe)[14] == HeaderRule(ServerEntry, ServerHeader)
  {
    var base: seq<Rule>, enhanced: seq<Rule> := SecurityTests(probe), EnhancedSecurityTests(probe);
    assert |base| == 20 && |enhanced| == 7;
    assert Registry(probe) == base + enhanced;
  }
}
