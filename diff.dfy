/**
  The change highlighter of the note editor (frontend/src/utils/diff.ts):
  HTML escaping, and highlightChange, which splits two strings into a common
  prefix, two differing middles and a common suffix and wraps the middles in
  `<span>` tags.
*/
module Diff {

  /** What highlightChange returns. */
  datatype DiffPieces = DiffPieces(beforeHtml: string, afterHtml: string, changed: bool)

  const DelOpen: string := "<span class=\"diff-del\">"
  const AddOpen: string := "<span class=\"diff-add\">"
  const SpanClose: string := "</span>"

  // ---------------------------------------------------------------------------
  // Escaping
  // ---------------------------------------------------------------------------

  /** `s.replace(/c/g, t)` for a one-character pattern: every occurrence of `c`,
      left to right, becomes `t`; the inserted text is not scanned again. */
  function ReplaceAll(s: string, c: char, t: string): string
  {
    if s == [] then [] else (if s[0] == c then t else [s[0]]) + ReplaceAll(s[1..], c, t)
  }

  /** escapeHtml: `&` first, then `<`, then `>`. */
  function EscapeHtml(s: string): string
  {
    ReplaceAll(ReplaceAll(ReplaceAll(s, '&', "&amp;"), '<', "&lt;"), '>', "&gt;")
  }

  /** The escape of one character. */
  function EscapeChar(c: char): string
  {
    if c == '&' then "&amp;" else if c == '<' then "&lt;" else if c == '>' then "&gt;" else [c]
  }

  /** Reference definition of escaping: each character escaped on its own, in one pass. */
  function EscapeEach(s: string): string
  {
    if s == [] then [] else EscapeChar(s[0]) + EscapeEach(s[1..])
  }

  /** Decoding of the three entities escaping produces (what the browser does
      with `&amp;`, `&lt;` and `&gt;` in the inserted HTML). */
  function Unescape(h: string): string
    decreases |h|
  {
    if h == [] then []
    else if |h| >= 5 && h[..5] == "&amp;" then "&" + Unescape(h[5..])
    else if |h| >= 4 && h[..4] == "&lt;" then "<" + Unescape(h[4..])
    else if |h| >= 4 && h[..4] == "&gt;" then ">" + Unescape(h[4..])
    else [h[0]] + Unescape(h[1..])
  }

  predicate NoSpecialChars(s: string)
  {
    forall k :: 0 <= k < |s| ==> s[k] != '&' && s[k] != '<' && s[k] != '>'
  }

  lemma {:induction false} ReplaceAllConcat(s: string, u: string, c: char, t: string)
    ensures ReplaceAll(s + u, c, t) == ReplaceAll(s, c, t) + ReplaceAll(u, c, t)
  {
    if s == [] {
      assert s + u == u;
    } else {
      assert (s + u)[0] == s[0];
      assert (s + u)[1..] == s[1..] + u;
      ReplaceAllConcat(s[1..], u, c, t);
    }
  }

  lemma {:induction false} ReplaceAllAbsent(s: string, c: char, t: string)
    requires c !in s
    ensures ReplaceAll(s, c, t) == s
  {
    if s != [] {
      assert c !in s[1..] by {
        forall k | 0 <= k < |s[1..]| ensures s[1..][k] != c { assert s[1..][k] == s[k + 1]; }
      }
      ReplaceAllAbsent(s[1..], c, t);
    }
  }

  lemma ReplaceAllSingle(c: char, x: char, t: string)
    ensures ReplaceAll([c], x, t) == if c == x then t else [c]
  {
    assert [c][1..] == [];
  }

  lemma EscapeCharChained(c: char)
    ensures ReplaceAll(ReplaceAll(ReplaceAll([c], '&', "&amp;"), '<', "&lt;"), '>', "&gt;") == EscapeChar(c)
  {
    ReplaceAllSingle(c, '&', "&amp;");
    var r1 := ReplaceAll([c], '&', "&amp;");
    var r2 := ReplaceAll(r1, '<', "&lt;");
    if c == '&' {
      ReplaceAllAbsent(r1, '<', "&lt;");
      ReplaceAllAbsent(r2, '>', "&gt;");
    } else {
      ReplaceAllSingle(c, '<', "&lt;");
      if c == '<' {
        ReplaceAllAbsent(r2, '>', "&gt;");
      } else {
        ReplaceAllSingle(c, '>', "&gt;");
      }
    }
  }

  /** The three chained passes escape each character independently: replacing
      `&` first means that the `&` of `&lt;` and `&gt;` is never escaped again. */
  lemma {:induction false} EscapeHtmlIsEscapeEach(s: string)
    ensures EscapeHtml(s) == EscapeEach(s)
  {
    if s != [] {
      var h, t := [s[0]], s[1..];
      assert s == h + t;
      ReplaceAllConcat(h, t, '&', "&amp;");
      var r1h, r1t := ReplaceAll(h, '&', "&amp;"), ReplaceAll(t, '&', "&amp;");
      ReplaceAllConcat(r1h, r1t, '<', "&lt;");
      var r2h, r2t := ReplaceAll(r1h, '<', "&lt;"), ReplaceAll(r1t, '<', "&lt;");
      ReplaceAllConcat(r2h, r2t, '>', "&gt;");
      EscapeHtmlIsEscapeEach(t);
      EscapeCharChained(s[0]);
    }
  }

  lemma {:induction false} EscapeEachConcat(s: string, u: string)
    ensures EscapeEach(s + u) == EscapeEach(s) + EscapeEach(u)
  {
    if s == [] {
      assert s + u == u;
    } else {
      assert (s + u)[0] == s[0];
      assert (s + u)[1..] == s[1..] + u;
      EscapeEachConcat(s[1..], u);
    }
  }

  /** Escaping distributes over concatenation. */
  lemma EscapeHtmlConcat(s: string, u: string)
    ensures EscapeHtml(s + u) == EscapeHtml(s) + EscapeHtml(u)
  {
    EscapeHtmlIsEscapeEach(s + u);
    EscapeHtmlIsEscapeEach(s);
    EscapeHtmlIsEscapeEach(u);
    EscapeEachConcat(s, u);
  }

  lemma {:induction false} EscapeEachNoAngles(s: string)
    ensures '<' !in EscapeEach(s) && '>' !in EscapeEach(s)
  {
    if s != [] {
      EscapeEachNoAngles(s[1..]);
    }
  }

  /** Escaped text contains no `<` and no `>`, so it can open no tag. */
  lemma EscapeHtmlNoAngles(s: string)
    ensures '<' !in EscapeHtml(s) && '>' !in EscapeHtml(s)
  {
    EscapeHtmlIsEscapeEach(s);
    EscapeEachNoAngles(s);
  }

  lemma {:induction false} EscapeEachIdentity(s: string)
    requires NoSpecialChars(s)
    ensures EscapeEach(s) == s
  {
    if s != [] {
      assert NoSpecialChars(s[1..]) by {
        forall k | 0 <= k < |s[1..]| ensures s[1..][k] != '&' && s[1..][k] != '<' && s[1..][k] != '>' {
          assert s[1..][k] == s[k + 1];
        }
      }
      EscapeEachIdentity(s[1..]);
      assert s == [s[0]] + s[1..];
    }
  }

  /** A string without `&`, `<` and `>` is left unchanged. */
  lemma EscapeHtmlIdentity(s: string)
    requires NoSpecialChars(s)
    ensures EscapeHtml(s) == s
  {
    EscapeHtmlIsEscapeEach(s);
    EscapeEachIdentity(s);
  }

  lemma {:induction false} UnescapeEscapeEach(s: string)
    ensures Unescape(EscapeEach(s)) == s
  {
    if s != [] {
      var e, t := EscapeChar(s[0]), EscapeEach(s[1..]);
      var h := e + t;
      assert EscapeEach(s) == h;
      UnescapeEscapeEach(s[1..]);
      if s[0] == '&' {
        assert h[..5] == "&amp;";
        assert h[5..] == t;
      } else if s[0] == '<' {
        assert h[..4] == "&lt;";
        assert h[4..] == t;
        assert h[1] == 'l';
        assert |h| < 5 || h[..5] != "&amp;" by {
          if |h| >= 5 { assert h[..5][1] == h[1]; }
        }
      } else if s[0] == '>' {
        assert h[..4] == "&gt;";
        assert h[4..] == t;
        assert h[1] == 'g';
        assert |h| < 5 || h[..5] != "&amp;" by {
          if |h| >= 5 { assert h[..5][1] == h[1]; }
        }
        assert |h| < 4 || h[..4] != "&lt;" by {
          if |h| >= 4 { assert h[..4][1] == h[1]; }
        }
      } else {
        assert h[0] == s[0];
        assert h[1..] == t;
        assert |h| < 5 || h[..5] != "&amp;" by {
          if |h| >= 5 { assert h[..5][0] == h[0]; }
        }
        assert |h| < 4 || h[..4] != "&lt;" by {
          if |h| >= 4 { assert h[..4][0] == h[0]; }
        }
        assert |h| < 4 || h[..4] != "&gt;" by {
          if |h| >= 4 { assert h[..4][0] == h[0]; }
        }
      }
      assert s == [s[0]] + s[1..];
    }
  }

  /** Escaping loses nothing: decoding the entities gives back the original text. */
  lemma UnescapeEscape(s: string)
    ensures Unescape(EscapeHtml(s)) == s
  {
    EscapeHtmlIsEscapeEach(s);
    UnescapeEscapeEach(s);
  }

  // ---------------------------------------------------------------------------
  // Common prefix and suffix
  // ---------------------------------------------------------------------------

  /** The length of the longest common prefix of `a` and `b`. */
  function CommonPrefix(a: string, b: string): (i: nat)
    ensures i <= |a| && i <= |b|
    ensures a[..i] == b[..i]
    ensures i == |a| || i == |b| || a[i] != b[i]
  {
    if a == [] || b == [] || a[0] != b[0] then 0
    else
      var i' := CommonPrefix(a[1..], b[1..]);
      assert a[..i' + 1] == [a[0]] + a[1..][..i'];
      assert b[..i' + 1] == [b[0]] + b[1..][..i'];
      i' + 1
  }

  /** The length of the longest common suffix of `a` and `b` that leaves the
      first `i` characters of both alone. */
  function CommonSuffix(a: string, b: string, i: nat): (j: nat)
    requires i <= |a| && i <= |b|
    ensures j <= |a| - i && j <= |b| - i
    ensures forall k :: |a| - j <= k < |a| ==> a[k] == b[k - |a| + |b|]
    ensures j == |a| - i || j == |b| - i || a[|a| - 1 - j] != b[|b| - 1 - j]
    decreases |a|
  {
    if |a| == i || |b| == i || a[|a| - 1] != b[|b| - 1] then 0
    else CommonSuffix(a[..|a| - 1], b[..|b| - 1], i) + 1
  }

  /** The characters the common suffix counts are the same in both strings. */
  lemma CommonSuffixEqual(a: string, b: string, i: nat)
    requires i <= |a| && i <= |b|
    ensures var j := CommonSuffix(a, b, i); a[|a| - j..] == b[|b| - j..]
  {
    var j := CommonSuffix(a, b, i);
    var sa, sb := a[|a| - j..], b[|b| - j..];
    forall t | 0 <= t < j ensures sa[t] == sb[t] {
      assert sa[t] == a[|a| - j + t];
    }
    assert sa == sb;
  }

  /** The six raw segments highlightChange slices out of `a` and `b`. */
  datatype Segments = Segments(preA: string, midA: string, sufA: string,
                               preB: string, midB: string, sufB: string)

  function Split(a: string, b: string): Segments
  {
    var i := CommonPrefix(a, b);
    var j := CommonSuffix(a, b, i);
    Segments(a[..i], a[i..|a| - j], a[|a| - j..], b[..i], b[i..|b| - j], b[|b| - j..])
  }

  /** The marked-up pieces of a split: each side escaped, its middle wrapped in
      a span. */
  function Mark(s: Segments): DiffPieces
  {
    DiffPieces(EscapeHtml(s.preA) + DelOpen + EscapeHtml(s.midA) + SpanClose + EscapeHtml(s.sufA),
               EscapeHtml(s.preB) + AddOpen + EscapeHtml(s.midB) + SpanClose + EscapeHtml(s.sufB),
               true)
  }

  /** highlightChange as a function of its inputs. */
  function Highlight(before: string, after: string): DiffPieces
  {
    if before == after then
      DiffPieces(EscapeHtml(before), EscapeHtml(before), false)
    else
      Mark(Split(before, after))
  }

  lemma SliceThree(s: string, i: nat, k: nat)
    requires i <= k <= |s|
    ensures s[..i] + s[i..k] + s[k..] == s
  {
    assert s[..i] + s[i..k] == s[..k];
    assert s[..k] + s[k..] == s;
  }

  /** Each input is exactly prefix, middle, suffix, and the prefixes and
      suffixes of the two inputs coincide. */
  lemma SplitExact(a: string, b: string)
    ensures var s := Split(a, b);
      && s.preA + s.midA + s.sufA == a
      && s.preB + s.midB + s.sufB == b
      && s.preA == s.preB && s.sufA == s.sufB
  {
    var i := CommonPrefix(a, b);
    var j := CommonSuffix(a, b, i);
    SliceThree(a, i, |a| - j);
    SliceThree(b, i, |b| - j);
    CommonSuffixEqual(a, b, i);
  }

  /** The prefix and suffix are maximal: two non-empty middles differ in their
      first and in their last characters. */
  lemma SplitMaximal(a: string, b: string)
    ensures var s := Split(a, b);
      s.midA != [] && s.midB != [] ==>
        s.midA[0] != s.midB[0] && s.midA[|s.midA| - 1] != s.midB[|s.midB| - 1]
  {
    var i := CommonPrefix(a, b);
    var j := CommonSuffix(a, b, i);
    var s := Split(a, b);
    if s.midA != [] && s.midB != [] {
      assert s.midA[0] == a[i] && s.midB[0] == b[i];
      assert s.midA[|s.midA| - 1] == a[|a| - 1 - j];
      assert s.midB[|s.midB| - 1] == b[|b| - 1 - j];
    }
  }

  /** Different inputs leave at least one non-empty middle. */
  lemma SplitMiddleNonEmpty(a: string, b: string)
    requires a != b
    ensures Split(a, b).midA != [] || Split(a, b).midB != []
  {
    SplitExact(a, b);
    var s := Split(a, b);
    assert s.midA == [] ==> a == s.preA + s.sufA;
    assert s.midB == [] ==> b == s.preB + s.sufB;
  }

  /** The before-HTML of changed inputs is one `diff-del` span between escaped
      text: the escaped pieces hold no tag, and decoding them gives back
      `before`. */
  lemma HighlightRendersBefore(before: string, after: string)
    requires before != after
    ensures var s := Split(before, after);
      var p, m, q := EscapeHtml(s.preA), EscapeHtml(s.midA), EscapeHtml(s.sufA);
      && Highlight(before, after).beforeHtml == p + DelOpen + m + SpanClose + q
      && p + m + q == EscapeHtml(before)
      && '<' !in p + m + q
      && Unescape(p + m + q) == before
  {
    var s := Split(before, after);
    SplitExact(before, after);
    EscapeHtmlConcat(s.preA, s.midA);
    EscapeHtmlConcat(s.preA + s.midA, s.sufA);
    EscapeHtmlNoAngles(before);
    UnescapeEscape(before);
  }

  /** The same for the after-HTML and its `diff-add` span. */
  lemma HighlightRendersAfter(before: string, after: string)
    requires before != after
    ensures var s := Split(before, after);
      var p, m, q := EscapeHtml(s.preB), EscapeHtml(s.midB), EscapeHtml(s.sufB);
      && Highlight(before, after).afterHtml == p + AddOpen + m + SpanClose + q
      && p + m + q == EscapeHtml(after)
      && '<' !in p + m + q
      && Unescape(p + m + q) == after
  {
    var s := Split(before, after);
    SplitExact(before, after);
    EscapeHtmlConcat(s.preB, s.midB);
    EscapeHtmlConcat(s.preB + s.midB, s.sufB);
    EscapeHtmlNoAngles(after);
    UnescapeEscape(after);
  }

  /** The prefix loop of highlightChange stops exactly at the common prefix. */
  lemma PrefixLoopExit(a: string, b: string, i: nat)
    requires i <= CommonPrefix(a, b)
    requires !(i < |a| && i < |b| && a[i] == b[i])
    ensures i == CommonPrefix(a, b)
  {
    var p := CommonPrefix(a, b);
    forall k | 0 <= k < p ensures a[k] == b[k] { assert a[..p][k] == b[..p][k]; }
  }

  /** The suffix loop of highlightChange stops exactly at the common suffix. */
  lemma SuffixLoopExit(a: string, b: string, i: nat, j: nat)
    requires i <= |a| && i <= |b| && j <= CommonSuffix(a, b, i)
    requires !(j < |a| - i && j < |b| - i && a[|a| - 1 - j] == b[|b| - 1 - j])
    ensures j == CommonSuffix(a, b, i)
  {
  }

  /** The split, with its two cut points named. */
  lemma SplitAt(a: string, b: string, i: nat, j: nat)
    requires i == CommonPrefix(a, b) && j == CommonSuffix(a, b, i)
    ensures Split(a, b) == Segments(a[..i], a[i..|a| - j], a[|a| - j..], b[..i], b[i..|b| - j], b[|b| - j..])
  {
  }

  /** highlightChange. */
  method HighlightChange(before: string, after: string) returns (d: DiffPieces)
    ensures d == Highlight(before, after)
    ensures d.changed <==> before != after
    ensures !d.changed ==> d.beforeHtml == EscapeHtml(before) && d.afterHtml == EscapeHtml(before)
  {
    if before == after {
      var safe := EscapeHtml(before);
      return DiffPieces(safe, safe, false);
    }
    // `before || ""` and `after || ""` leave a string unchanged
    var a, b := before, after;

    // common prefix
    var i := 0;
    while i < |a| && i < |b| && a[i] == b[i]
      invariant i <= CommonPrefix(a, b)
    {
      i := i + 1;
    }
    PrefixLoopExit(a, b, i);

    // common suffix
    var j := 0;
    while j < |a| - i && j < |b| - i && a[|a| - 1 - j] == b[|b| - 1 - j]
      invariant j <= CommonSuffix(a, b, i)
    {
      j := j + 1;
    }
    SuffixLoopExit(a, b, i, j);
    SplitAt(a, b, i, j);

    var pre := EscapeHtml(a[..i]);
    var suf := EscapeHtml(a[|a| - j..]);
    var preB := EscapeHtml(b[..i]);
    var sufB := EscapeHtml(b[|b| - j..]);

    var midA := EscapeHtml(a[i..|a| - j]);
    var midB := EscapeHtml(b[i..|b| - j]);

    var beforeHtml := pre + DelOpen + midA + SpanClose + suf;
    var afterHtml := preB + AddOpen + midB + SpanClose + sufB;
    return DiffPieces(beforeHtml, afterHtml, true);
  }
}
