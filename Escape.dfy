/**
 * `escapeHtml` of the popup: five global replacements applied one after the
 * other, `&` first, so that the entities introduced later are not escaped
 * again.
 */
module Escape {
  import opened JsValues

  /** `s.replace(/c/g, rep)`. */
  function ReplaceAll(s: string, c: char, rep: string): (r: string)
    ensures c !in s ==> r == s
    ensures forall x :: x in r ==> (x in s && x != c) || x in rep
    ensures |rep| >= 1 ==> |r| >= |s|
    decreases |s|
  {
    if |s| == 0 then ""
    else (if s[0] == c then rep else [s[0]]) + ReplaceAll(s[1..], c, rep)
  }

  /**
   * The chain of five replacements of `escapeHtml`, in the source's order.
   * Nothing is removed, and text without the five special characters passes
   * unchanged.
   */
  function EscapeHtml(s: string): (r: string)
    ensures |r| >= |s|
    ensures ('&' !in s && '<' !in s && '>' !in s && '"' !in s && '\'' !in s) ==> r == s
  {
    var amp := ReplaceAll(s, '&', "&amp;");
    var lt := ReplaceAll(amp, '<', "&lt;");
    var gt := ReplaceAll(lt, '>', "&gt;");
    var quot := ReplaceAll(gt, '"', "&quot;");
    ReplaceAll(quot, '\'', "&#039;")
  }

  /** The output holds none of `<`, `>`, `"`, `'`. */
  lemma EscapeHtmlSafe(s: string)
    ensures var r := EscapeHtml(s); '<' !in r && '>' !in r && '"' !in r && '\'' !in r
  {
    var amp := ReplaceAll(s, '&', "&amp;");
    var lt := ReplaceAll(amp, '<', "&lt;");
    assert '<' !in lt by { assert '<' !in "&lt;"; }
    var gt := ReplaceAll(lt, '>', "&gt;");
    assert '<' !in gt && '>' !in gt by { assert '<' !in "&gt;" && '>' !in "&gt;"; }
    var quot := ReplaceAll(gt, '"', "&quot;");
    assert '<' !in quot && '>' !in quot && '"' !in quot by {
      assert '<' !in "&quot;" && '>' !in "&quot;" && '"' !in "&quot;";
    }
    var r := ReplaceAll(quot, '\'', "&#039;");
    assert '<' !in r && '>' !in r && '"' !in r && '\'' !in r by {
      assert '<' !in "&#039;" && '>' !in "&#039;" && '"' !in "&#039;" && '\'' !in "&#039;";
    }
  }

  /** `escapeHtml(value)` on an optional value: a missing value is not a string and comes back unchanged. */
  function EscapeOptional(o: Option<string>): (r: Option<string>)
    ensures r.None? <==> o.None?
    ensures r.Some? ==> r.value == EscapeHtml(o.value)
  {
    match o
    case None => None
    case Some(s) => Some(EscapeHtml(s))
  }

  /** The entity each character becomes: the reference the chain is proved against. */
  function Entity(c: char): string {
    if c == '&' then "&amp;"
    else if c == '<' then "&lt;"
    else if c == '>' then "&gt;"
    else if c == '"' then "&quot;"
    else if c == '\'' then "&#039;"
    else [c]
  }

  /** Escaping character by character. */
  function EscapeEach(s: string): string
    decreases |s|
  {
    if |s| == 0 then "" else Entity(s[0]) + EscapeEach(s[1..])
  }

  lemma {:induction false} ReplaceAllAppend(a: string, b: string, c: char, rep: string)
    ensures ReplaceAll(a + b, c, rep) == ReplaceAll(a, c, rep) + ReplaceAll(b, c, rep)
    decreases |a|
  {
    if |a| == 0 {
      assert a + b == b;
    } else {
      assert (a + b)[1..] == a[1..] + b;
      ReplaceAllAppend(a[1..], b, c, rep);
    }
  }

  lemma EscapeHtmlAppend(a: string, b: string)
    ensures EscapeHtml(a + b) == EscapeHtml(a) + EscapeHtml(b)
  {
    var a1, b1 := ReplaceAll(a, '&', "&amp;"), ReplaceAll(b, '&', "&amp;");
    ReplaceAllAppend(a, b, '&', "&amp;");
    var a2, b2 := ReplaceAll(a1, '<', "&lt;"), ReplaceAll(b1, '<', "&lt;");
    ReplaceAllAppend(a1, b1, '<', "&lt;");
    var a3, b3 := ReplaceAll(a2, '>', "&gt;"), ReplaceAll(b2, '>', "&gt;");
    ReplaceAllAppend(a2, b2, '>', "&gt;");
    var a4, b4 := ReplaceAll(a3, '"', "&quot;"), ReplaceAll(b3, '"', "&quot;");
    ReplaceAllAppend(a3, b3, '"', "&quot;");
    ReplaceAllAppend(a4, b4, '\'', "&#039;");
  }

  lemma ReplaceOne(x: char, c: char, rep: string)
    ensures ReplaceAll([x], c, rep) == if x == c then rep else [x]
  {
    assert [x][1..] == "";
  }

  /** On one character the chain yields that character's entity: no later step touches an earlier entity. */
  lemma EscapeHtmlChar(c: char)
    ensures EscapeHtml([c]) == Entity(c)
  {
    ReplaceOne(c, '&', "&amp;");
    var amp := ReplaceAll([c], '&', "&amp;");
    if c == '&' {
      assert amp == "&amp;";
      assert '<' !in amp && '>' !in amp && '"' !in amp && '\'' !in amp;
    } else {
      assert amp == [c];
      ReplaceOne(c, '<', "&lt;");
      var lt := ReplaceAll(amp, '<', "&lt;");
      if c == '<' {
        assert '>' !in lt && '"' !in lt && '\'' !in lt;
      } else {
        ReplaceOne(c, '>', "&gt;");
        var gt := ReplaceAll(lt, '>', "&gt;");
        if c == '>' {
          assert '"' !in gt && '\'' !in gt;
        } else {
          ReplaceOne(c, '"', "&quot;");
          var quot := ReplaceAll(gt, '"', "&quot;");
          if c == '"' {
            assert '\'' !in quot;
          } else {
            ReplaceOne(c, '\'', "&#039;");
          }
        }
      }
    }
  }

  /** The chained replacements escape each character independently. */
  lemma {:induction false} EscapeHtmlIsCharwise(s: string)
    ensures EscapeHtml(s) == EscapeEach(s)
    decreases |s|
  {
    if |s| > 0 {
      assert s == [s[0]] + s[1..];
      EscapeHtmlAppend([s[0]], s[1..]);
      EscapeHtmlChar(s[0]);
      EscapeHtmlIsCharwise(s[1..]);
    }
  }

  /** Decoding of the five entities; any other text is copied. */
  function Unescape(s: string): string
    decreases |s|
  {
    if |s| == 0 then ""
    else if "&amp;" <= s then "&" + Unescape(s[5..])
    else if "&lt;" <= s then "<" + Unescape(s[4..])
    else if "&gt;" <= s then ">" + Unescape(s[4..])
    else if "&quot;" <= s then "\"" + Unescape(s[6..])
    else if "&#039;" <= s then "'" + Unescape(s[6..])
    else [s[0]] + Unescape(s[1..])
  }

  lemma UnescapeEntity(c: char, rest: string)
    ensures Unescape(Entity(c) + rest) == [c] + Unescape(rest)
  {
    var e := Entity(c);
    var s := e + rest;
    assert s[|e|..] == rest;
    assert forall k :: 0 <= k < |e| ==> s[k] == e[k];
    if c == '&' {
      assert "&amp;" <= s;
    } else if c == '<' {
      assert s[1] == 'l';
      assert "&lt;" <= s;
    } else if c == '>' {
      assert s[1] == 'g';
      assert "&gt;" <= s;
    } else if c == '"' {
      assert s[1] == 'q';
      assert "&quot;" <= s;
    } else if c == '\'' {
      assert s[1] == '#';
      assert "&#039;" <= s;
    } else {
      assert s[0] == c && c != '&';
      assert s[1..] == rest;
    }
  }

  /** Decoding the entities restores the input. */
  lemma {:induction false} UnescapeEscapeHtml(s: string)
    ensures Unescape(EscapeHtml(s)) == s
    decreases |s|
  {
    EscapeHtmlIsCharwise(s);
    if |s| > 0 {
      UnescapeEntity(s[0], EscapeEach(s[1..]));
      UnescapeEscapeHtml(s[1..]);
      EscapeHtmlIsCharwise(s[1..]);
    }
  }

  /** Text without `&` holds no entity and decodes to itself. */
  lemma {:induction false} UnescapePlain(s: string)
    requires '&' !in s
    ensures Unescape(s) == s
    decreases |s|
  {
    if |s| > 0 {
      assert s[0] != '&';
      assert '&' !in s[1..] by {
        forall k | 0 <= k < |s[1..]| ensures s[1..][k] != '&' { assert s[1..][k] == s[k + 1]; }
      }
      UnescapePlain(s[1..]);
      assert s == [s[0]] + s[1..];
    }
  }

  predicate StartsEntity(s: string) {
    "&amp;" <= s || "&lt;" <= s || "&gt;" <= s || "&quot;" <= s || "&#039;" <= s
  }

  /** Inside an entity, `&` occurs only at the start, and only in the entities of the five special characters. */
  lemma EntityAmpersand(c: char, i: nat)
    requires i < |Entity(c)| && Entity(c)[i] == '&'
    ensures i == 0 && StartsEntity(Entity(c))
  {
  }

  /** Every `&` of the charwise escape starts one of the five entities. */
  lemma {:induction false} EachAmpersandStartsEntity(s: string)
    ensures forall i :: 0 <= i < |EscapeEach(s)| && EscapeEach(s)[i] == '&' ==> StartsEntity(EscapeEach(s)[i..])
    decreases |s|
  {
    if |s| > 0 {
      EachAmpersandStartsEntity(s[1..]);
      var e, rest := Entity(s[0]), EscapeEach(s[1..]);
      var r := e + rest;
      assert EscapeEach(s) == r;
      forall i | 0 <= i < |r| && r[i] == '&' ensures StartsEntity(r[i..]) {
        if i < |e| {
          assert r[i] == e[i];
          EntityAmpersand(s[0], i);
          assert r[0..] == r;
          assert e <= r;
        } else {
          assert r[i..] == rest[i - |e|..];
          assert rest[i - |e|] == r[i];
        }
      }
    }
  }

  /** Every `&` of the output starts one of the five entities: the output never holds a bare `&`. */
  lemma AmpersandsStartEntities(s: string)
    ensures forall i :: 0 <= i < |EscapeHtml(s)| && EscapeHtml(s)[i] == '&' ==> StartsEntity(EscapeHtml(s)[i..])
  {
    EscapeHtmlIsCharwise(s);
    EachAmpersandStartsEntity(s);
  }

  /** Why `&` goes first: replacing it last would escape the entities again, "<" becoming "&amp;lt;" where `EscapeHtmlChar` gives "&lt;". */
  lemma AmpersandLastDoubleEscapes()
    ensures ReplaceAll(ReplaceAll("<", '<', "&lt;"), '&', "&amp;") == "&amp;lt;"
  {
    assert ReplaceAll("<", '<', "&lt;") == "&lt;" by { ReplaceOne('<', '<', "&lt;"); }
    assert ReplaceAll("&lt;", '&', "&amp;") == "&amp;lt;" by {
      assert "&lt;" == "&" + "lt;";
      ReplaceAllAppend("&", "lt;", '&', "&amp;");
      assert ReplaceAll("lt;", '&', "&amp;") == "lt;" by { assert '&' !in "lt;"; }
      assert ReplaceAll("&", '&', "&amp;") == "&amp;" by { ReplaceOne('&', '&', "&amp;"); }
    }
  }
}
