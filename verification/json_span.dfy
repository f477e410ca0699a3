/** The handler's extraction of a JSON object from the model's reply:
    `content.match(/\{[\s\S]*\}/)`. The pattern is greedy, so the match runs
    from the first `{` to the last `}`; it is not a balanced span. */
module JsonSpan {
  import opened Common
  import JsText

  /** `s[i..j]` matches the pattern: it opens with `{` and closes with `}`. */
  predicate SpanMatches(s: string, i: int, j: int) {
    0 <= i && i + 2 <= j <= |s| && s[i] == '{' && s[j - 1] == '}'
  }

  /** The regular-expression semantics: the leftmost start at which the pattern
      matches, and at that start the longest match the greedy `*` gives. */
  ghost predicate LeftmostLongest(s: string, i: int, j: int) {
    && SpanMatches(s, i, j)
    && (forall i', j' :: SpanMatches(s, i', j') ==> i <= i')
    && (forall j' :: SpanMatches(s, i, j') ==> j' <= j)
  }

  /** First `{` to last `}`, when the last `}` comes after the first `{`. */
  function FindSpan(s: string): (r: Option<(nat, nat)>)
    ensures r.Some? ==> r.value.0 < r.value.1 <= |s|
  {
    match JsText.FirstIndexOf(s, '{')
    case None => None
    case Some(i) =>
      match JsText.LastIndexOf(s, '}')
      case None => None
      case Some(j) => if i < j then Some((i, j + 1)) else None
  }

  /** `FindSpan` is the regular expression's match: it fails exactly when no
      span matches, and otherwise finds the leftmost, longest one. */
  lemma FindSpanIsRegexMatch(s: string)
    ensures FindSpan(s).None? <==> forall i, j :: !SpanMatches(s, i, j)
    ensures FindSpan(s).Some? ==> LeftmostLongest(s, FindSpan(s).value.0, FindSpan(s).value.1)
  {
    var fo := JsText.FirstIndexOf(s, '{');
    var lc := JsText.LastIndexOf(s, '}');
    if fo.Some? && lc.Some? {
      var i, j := fo.value, lc.value;
      forall i', j' | SpanMatches(s, i', j') ensures i <= i' && j' <= j + 1 { }
      if j <= i {
        assert FindSpan(s).None?;
      } else {
        assert FindSpan(s) == Some((i, j + 1));
        assert SpanMatches(s, i, j + 1);
      }
    } else if fo.Some? {
      forall i', j' | true ensures !SpanMatches(s, i', j') { }
    } else {
      forall i', j' | true ensures !SpanMatches(s, i', j') { }
    }
  }

  /** `jsonMatch[0]`, when there is a match. */
  function ExtractJson(s: string): Option<string> {
    match FindSpan(s)
    case None => None
    case Some((i, j)) => Some(s[i..j])
  }

  /** Extraction succeeds exactly when some `}` follows the first `{`; the text
      found is a contiguous piece of the reply opening with `{` and closing with
      `}`, with no `{` before it and no `}` after it. */
  lemma ExtractJsonShape(s: string)
    ensures ExtractJson(s).Some? <==> exists i, j :: 0 <= i < j < |s| && s[i] == '{' && s[j] == '}'
    ensures ExtractJson(s).Some? ==>
      var t := ExtractJson(s).value;
      && |t| >= 2 && t[0] == '{' && t[|t| - 1] == '}'
      && exists i :: 0 <= i && i + |t| <= |s| && s[i..i + |t|] == t
           && '{' !in s[..i] && '}' !in s[i + |t|..]
  {
    FindSpanIsRegexMatch(s);
    if ExtractJson(s).Some? {
      var (i, j) := FindSpan(s).value;
      assert s[i] == '{' && s[j - 1] == '}';
      var t := s[i..j];
      assert t[0] == s[i] && t[|t| - 1] == s[j - 1];
      assert i + |t| == j;
      assert s[i..i + |t|] == t;
      assert '{' !in s[..i] by {
        forall k | 0 <= k < i ensures s[..i][k] != '{' { }
      }
    } else {
      forall i, j | 0 <= i < j < |s| && s[i] == '{' ensures s[j] != '}' {
        if s[j] == '}' {
          assert SpanMatches(s, i, j + 1);
        }
      }
    }
  }

  /** Two objects separated by a space come back as one span covering both,
      which is not a single JSON value, where the first balanced span is `{a}`. */
  lemma GreedySpanCoversBothObjects()
    ensures ExtractJson("{a} {b}") == Some("{a} {b}")
  {
    var s := "{a} {b}";
    assert JsText.FirstIndexOf(s, '{') == Some(0);
    assert JsText.LastIndexOf(s, '}') == Some(6);
    assert FindSpan(s) == Some((0, 7));
    assert s[0..7] == s;
  }
}
