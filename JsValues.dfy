/**
 * The few JavaScript values and string built-ins the scanner core relies on:
 * optional values (a key that is absent, undefined or null), truthiness of an
 * optional string, `String.prototype.includes` and `String.prototype.split`
 * with a one-character separator.
 */
module JsValues {

  /** An object key that may be absent (or hold undefined / null). */
  datatype Option<+T> = None | Some(value: T)

  /** JavaScript truthiness of an optional string: absent, null and "" are falsy. */
  predicate Truthy(o: Option<string>) {
    o.Some? && o.value != ""
  }

  /** `s.includes(sub)`: `sub` occurs in `s` at some position. */
  predicate Contains(s: string, sub: string)
    ensures Contains(s, sub) <==> exists i :: 0 <= i <= |s| && sub <= s[i..]
    decreases |s|
  {
    assert s[0..] == s;
    if sub <= s then true
    else if |s| == 0 then false
    else
      assert forall j :: 0 <= j < |s| ==> s[1..][j..] == s[j + 1..];
      assert forall i :: 1 <= i <= |s| ==> s[1..][i - 1..] == s[i..];
      Contains(s[1..], sub)
  }

  /** `parts.join(sep)`. */
  function Join(parts: seq<string>, sep: char): string
    decreases |parts|
  {
    if |parts| == 0 then ""
    else if |parts| == 1 then parts[0]
    else parts[0] + [sep] + Join(parts[1..], sep)
  }

  /**
   * `s.split(sep)`: the pieces between separators, empty pieces included.
   * There is always at least one piece ("".split(".") is [""]).
   */
  function Split(s: string, sep: char): (parts: seq<string>)
    ensures |parts| >= 1
    decreases |s|
  {
    if |s| == 0 then [""]
    else
      var rest := Split(s[1..], sep);
      if s[0] == sep then [""] + rest
      else [[s[0]] + rest[0]] + rest[1..]
  }

  /** No piece of a split contains the separator, and joining the pieces gives the string back. */
  lemma {:induction false} SplitSpec(s: string, sep: char)
    ensures forall i :: 0 <= i < |Split(s, sep)| ==> sep !in Split(s, sep)[i]
    ensures Join(Split(s, sep), sep) == s
    decreases |s|
  {
    if |s| > 0 {
      var rest := Split(s[1..], sep);
      SplitSpec(s[1..], sep);
      if s[0] == sep {
        assert Split(s, sep) == [""] + rest;
        assert ([""] + rest)[1..] == rest;
        assert [sep] + Join(rest, sep) == s;
      } else {
        var parts := [[s[0]] + rest[0]] + rest[1..];
        assert Split(s, sep) == parts;
        assert parts[1..] == rest[1..];
        assert Join(parts, sep) == [s[0]] + Join(rest, sep) by {
          if |rest| > 1 {
            assert Join(rest, sep) == rest[0] + [sep] + Join(rest[1..], sep);
          }
        }
        forall i | 0 <= i < |parts| ensures sep !in parts[i] {
          if i > 0 {
            assert parts[i] == rest[i];
          }
        }
      }
    }
  }

  /** Two splits of one string agree: the contract of Split pins its result down. */
  lemma {:induction false} SplitUnique(s: string, sep: char, parts: seq<string>)
    requires |parts| >= 1
    requires forall i :: 0 <= i < |parts| ==> sep !in parts[i]
    requires Join(parts, sep) == s
    ensures parts == Split(s, sep)
    decreases |s|, |parts[0]|
  {
    if |parts[0]| > 0 {
      var c := parts[0][0];
      var tail := [parts[0][1..]] + parts[1..];
      assert tail[1..] == parts[1..];
      assert Join(parts, sep) == [c] + Join(tail, sep) by {
        if |parts| > 1 {
          assert parts[0] == [c] + parts[0][1..];
        }
      }
      assert s[0] == c && s[1..] == Join(tail, sep);
      forall i | 0 <= i < |tail| ensures sep !in tail[i] {
        if i == 0 {
          assert forall x :: x in parts[0][1..] ==> x in parts[0];
        } else {
          assert tail[i] == parts[i];
        }
      }
      SplitUnique(s[1..], sep, tail);
      assert parts[0] == [c] + tail[0];
    } else if |parts| == 1 {
      assert s == "";
    } else {
      assert s == [sep] + Join(parts[1..], sep);
      assert s[1..] == Join(parts[1..], sep);
      forall i | 0 <= i < |parts[1..]| ensures sep !in parts[1..][i] {
        assert parts[1..][i] == parts[i + 1];
      }
      SplitUnique(s[1..], sep, parts[1..]);
      assert parts == [""] + parts[1..];
    }
  }
}
