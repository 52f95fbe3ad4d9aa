/**
 * The finding record every rule produces and every report consumes.
 *
 * In the extension a finding is a plain object; here each of its keys is an
 * Option (None: the key is absent, undefined or null). Status and severity
 * stay the strings the code compares against.
 */
module Findings {
  import opened JsValues

  const PASS := "pass"
  const FAIL := "fail"
  const WARN := "warn"
  const NA := "na"
  const ERROR := "error"

  const CRITICAL := "critical"
  const HIGH := "high"
  const MEDIUM := "medium"
  const LOW := "low"

  /** The `examples` key: absent, an array of strings, or a single string. */
  datatype Examples = NoExamples | ExampleList(items: seq<string>) | ExampleText(text: string)

  datatype Finding = Finding(
    test: Option<string>,
    description: Option<string>,
    url: Option<string>,
    status: Option<string>,
    details: Option<string>,
    severity: Option<string>,
    fix: Option<string>,
    examples: Examples,
    reference: Option<string>)

  /** The object literal `{}`. */
  function Empty(): Finding {
    Finding(None, None, None, None, None, None, None, NoExamples, None)
  }

  /** The literal `{ status, details }` with which every rule result starts. */
  function Result(status: string, details: string): (f: Finding)
    ensures f.status == Some(status) && f.details == Some(details)
    ensures f.test.None? && f.description.None? && f.url.None?
    ensures f.severity.None? && f.fix.None? && f.examples.NoExamples? && f.reference.None?
  {
    Empty().(status := Some(status), details := Some(details))
  }

  function Overlay<T>(base: Option<T>, over: Option<T>): Option<T> {
    if over.Some? then over else base
  }

  /**
   * `{ ...base, ...over }`: every key the second object has wins, every
   * other key keeps the first object's value.
   */
  function Spread(base: Finding, over: Finding): (f: Finding)
    ensures f.test == (if over.test.Some? then over.test else base.test)
    ensures f.description == (if over.description.Some? then over.description else base.description)
    ensures f.url == (if over.url.Some? then over.url else base.url)
    ensures f.status == (if over.status.Some? then over.status else base.status)
    ensures f.details == (if over.details.Some? then over.details else base.details)
    ensures f.severity == (if over.severity.Some? then over.severity else base.severity)
    ensures f.fix == (if over.fix.Some? then over.fix else base.fix)
    ensures f.examples == (if over.examples.NoExamples? then base.examples else over.examples)
    ensures f.reference == (if over.reference.Some? then over.reference else base.reference)
    ensures over == Empty() ==> f == base
    ensures base == Empty() ==> f == over
  {
    Finding(
      Overlay(base.test, over.test),
      Overlay(base.description, over.description),
      Overlay(base.url, over.url),
      Overlay(base.status, over.status),
      Overlay(base.details, over.details),
      Overlay(base.severity, over.severity),
      Overlay(base.fix, over.fix),
      if over.examples.NoExamples? then base.examples else over.examples,
      Overlay(base.reference, over.reference))
  }
}
