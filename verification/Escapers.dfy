/** The escapers of app/reporting.py (_md_escape) and app/exporters.py (md_escape, _stix_str). */
module Escapers {
  import opened Wrappers
  import opened Sequences

  // In the order of the replace calls, and as a set.
  const REPORT: string := "\\`*_[]<>|#"
  const MARKDOWN: string := "\\`*_{}[]()#+!|<>"
  const STIX: string := "\\'"

  // ---------- one pass ----------

  function EscapeChar(ch: char, special: string): string {
    if ch in special then ['\\', ch] else [ch]
  }

  function Escape(text: string, special: string): string {
    if text == "" then "" else EscapeChar(text[0], special) + Escape(text[1..], special)
  }

  lemma {:induction false} EscapeAppend(a: string, b: string, special: string)
    ensures Escape(a + b, special) == Escape(a, special) + Escape(b, special)
  {
    hide EscapeChar;
    if a == "" {
      assert a + b == b;
    } else {
      EscapeAppend(a[1..], b, special);
      var ab := a + b;
      assert ab[1..] == a[1..] + b && ab[0] == a[0];
      assert Escape(ab, special) == EscapeChar(a[0], special) + Escape(a[1..] + b, special);
    }
  }

  // ---------- the chain of replaces ----------

  // text.replace(c, "\\" + c)
  function Replace(text: string, c: char): string { Escape(text, [c]) }

  function Chain(text: string, special: string): string {
    if special == "" then text else Replace(Chain(text, special[..|special| - 1]), special[|special| - 1])
  }

  lemma EscapeNothing(text: string)
    ensures Escape(text, "") == text
  {
  }

  // One more replace extends the one pass, unless it meets characters or backslashes already written.
  lemma {:induction false} ReplaceExtends(text: string, special: string, c: char)
    requires c !in special && (c != '\\' || special == "")
    ensures Replace(Escape(text, special), c) == Escape(text, special + [c])
  {
    if text != "" {
      ReplaceExtends(text[1..], special, c);
      EscapeAppend(EscapeChar(text[0], special), Escape(text[1..], special), [c]);
      ReplaceChar(text[0], special, c);
    }
  }

  lemma ReplaceChar(ch: char, special: string, c: char)
    requires c !in special && (c != '\\' || special == "")
    ensures Escape(EscapeChar(ch, special), [c]) == EscapeChar(ch, special + [c])
  {
    EscapeSingle(ch, [c]);
    if ch in special {
      assert ch != c;
      var e := ['\\', ch];
      assert e[1..] == [ch] && [ch][1..] == "";
      assert Escape(e, [c]) == ['\\'] + Escape([ch], [c]);
    }
  }

  // With the backslash first, the chain of replaces is the one pass.
  lemma {:induction false} ChainIsOnePass(text: string, special: string)
    requires Distinct(special) && '\\' !in special[if special == "" then 0 else 1..]
    ensures Chain(text, special) == Escape(text, special)
    decreases |special|
  {
    if special == "" {
      EscapeNothing(text);
    } else {
      var n := |special| - 1;
      assert special == special[..n] + [special[n]];
      assert n > 0 ==> special[n] == special[1..][n - 1] && special[..n][1..] <= special[1..];
      ChainIsOnePass(text, special[..n]);
      assert special[n] !in special[..n];
      ReplaceExtends(text, special[..n], special[n]);
    }
  }

  lemma {:induction false} EscapeGrows(text: string, special: string)
    ensures |Escape(text, special)| >= |text|
    ensures (exists i :: 0 <= i < |text| && text[i] in special) ==> |Escape(text, special)| > |text|
  {
    if text != "" {
      EscapeGrows(text[1..], special);
      if i :| 0 <= i < |text| && text[i] in special {
        assert i > 0 ==> text[1..][i - 1] == text[i];
      }
    }
  }

  lemma {:induction false} ChainGrows(text: string, special: string, n: nat)
    requires n <= |special|
    ensures |Chain(text, special)| >= |Chain(text, special[..n])|
    decreases |special|
  {
    if n < |special| {
      var m := |special| - 1;
      ChainGrows(text, special[..m], n);
      assert special[..m][..n] == special[..n];
      EscapeGrows(Chain(text, special[..m]), [special[m]]);
    } else {
      assert special[..n] == special;
    }
  }

  // With the backslash anywhere else it is not: the escapes written before are escaped again.
  lemma LateBackslashEscapesTwice(special: string, k: nat)
    requires Distinct(special) && 0 < k < |special| && special[k] == '\\'
    ensures |Chain([special[0]], special)| > |Escape([special[0]], special)|
  {
    var text, c := [special[0]], special[0];
    assert Escape(text, special) == ['\\', c] + Escape("", special);
    var pre := special[..k];
    assert '\\' !in pre[1..];
    ChainIsOnePass(text, pre);
    assert pre[0] == c && text[1..] == "";
    assert Chain(text, pre) == ['\\', c] + Escape("", pre) == ['\\', c];
    assert special[..k + 1][..k] == pre;
    assert Chain(text, special[..k + 1]) == Replace(['\\', c], '\\');
    assert ['\\', c][0] in ['\\'];
    EscapeGrows(['\\', c], ['\\']);
    ChainGrows(text, special, k + 1);
  }

  // ---------- reading back ----------

  // A backslash stands for the character after it.
  function Unescape(t: string): string {
    if t == "" then ""
    else if t[0] == '\\' && |t| > 1 then [t[1]] + Unescape(t[2..])
    else [t[0]] + Unescape(t[1..])
  }

  lemma {:induction false} UnescapeEscape(text: string, special: string)
    requires '\\' in special
    ensures Unescape(Escape(text, special)) == text
  {
    if text != "" {
      UnescapeEscape(text[1..], special);
      var rest := Escape(text[1..], special);
      var t := EscapeChar(text[0], special) + rest;
      if text[0] in special {
        assert t[0] == '\\' && t[1] == text[0] && t[2..] == rest;
      } else {
        assert t[0] == text[0] && t[1..] == rest;
      }
      assert text == [text[0]] + text[1..];
    }
  }

  // Reading up to the first quote that no backslash escapes: the text before it, and what follows.
  function ReadQuoted(t: string): Option<(string, string)> {
    if t == "" then None
    else if t[0] == '\'' then Some(("", t[1..]))
    else if t[0] == '\\' then
      if |t| == 1 then None
      else
        var r := ReadQuoted(t[2..]);
        if r.None? then None else Some(([t[1]] + r.value.0, r.value.1))
    else
      var r := ReadQuoted(t[1..]);
      if r.None? then None else Some(([t[0]] + r.value.0, r.value.1))
  }

  // The escaped text holds no unescaped quote: inside quotes it is read back whole, and reading stops at the closing
  // quote.
  lemma {:induction false} QuotedReadsBack(text: string, special: string, rest: string)
    requires '\\' in special && '\'' in special
    ensures ReadQuoted(Escape(text, special) + "'" + rest) == Some((text, rest))
  {
    var t := Escape(text, special) + "'" + rest;
    if text == "" {
      assert t[0] == '\'' && t[1..] == rest;
    } else {
      QuotedReadsBack(text[1..], special, rest);
      var u := Escape(text[1..], special) + "'" + rest;
      assert t == EscapeChar(text[0], special) + u;
      assert text == [text[0]] + text[1..];
      if text[0] in special {
        assert t[0] == '\\' && t[1] == text[0] && t[2..] == u;
      } else {
        assert t[0] == text[0] && t[1..] == u;
      }
    }
  }

  // Reading escapes pair by pair, no character of `special` stands by itself.
  predicate NothingBare(t: string, special: string) {
    if t == "" then true
    else if t[0] == '\\' then |t| > 1 && NothingBare(t[2..], special)
    else t[0] !in special && NothingBare(t[1..], special)
  }

  lemma {:induction false} EscapedIsNotBare(text: string, special: string)
    requires '\\' in special
    ensures NothingBare(Escape(text, special), special)
  {
    if text != "" {
      EscapedIsNotBare(text[1..], special);
      var rest := Escape(text[1..], special);
      var t := EscapeChar(text[0], special) + rest;
      if text[0] in special {
        assert t[0] == '\\' && t[2..] == rest;
      } else {
        assert t[0] == text[0] && t[1..] == rest;
      }
    }
  }

  lemma {:induction false} FewerAreNotBare(t: string, special: string, fewer: string)
    requires NothingBare(t, special) && forall c :: c in fewer ==> c in special
    ensures NothingBare(t, fewer)
  {
    if t != "" {
      FewerAreNotBare(if t[0] == '\\' then t[2..] else t[1..], special, fewer);
    }
  }

  // What Markdown or HTML would act on does not stand by itself in the outputs.
  lemma OutputsAreNotBare(text: string)
    ensures NothingBare(Escape(text, REPORT), "`*_[]<>|#")
    ensures NothingBare(Escape(text, MARKDOWN), "`*_{}[]()#+!|<>")
  {
    assert REPORT[0] == '\\' && MARKDOWN[0] == '\\';
    EscapedIsNotBare(text, REPORT);
    EscapedIsNotBare(text, MARKDOWN);
    assert REPORT == "\\" + "`*_[]<>|#" && MARKDOWN == "\\" + "`*_{}[]()#+!|<>";
    hide NothingBare, Escape;
    FewerAreNotBare(Escape(text, REPORT), REPORT, "`*_[]<>|#");
    FewerAreNotBare(Escape(text, MARKDOWN), MARKDOWN, "`*_{}[]()#+!|<>");
  }

  // And only those are escaped: text without them is left as it is.
  lemma {:induction false} OthersStay(text: string, special: string)
    requires forall c :: c in text ==> c !in special
    ensures Escape(text, special) == text
  {
    if text != "" {
      assert text[0] in text && forall c :: c in text[1..] ==> c in text;
      OthersStay(text[1..], special);
      assert text == [text[0]] + text[1..];
    }
  }

  // ---------- the three escapers ----------

  method ReportEscape(text: string) returns (r: string)
    ensures r == Escape(text, REPORT) && Unescape(r) == text
  {
    r := text;
    for n := 0 to |REPORT|
      invariant r == Chain(text, REPORT[..n])
    {
      assert REPORT[..n + 1][..n] == REPORT[..n];
      r := Replace(r, REPORT[n]);
    }
    assert REPORT[..|REPORT|] == REPORT;
    assert REPORT[0] == '\\';
    ChainIsOnePass(text, REPORT);
    UnescapeEscape(text, REPORT);
  }

  function DropReturns(text: string): string {
    if text == "" then "" else if text[0] == '\r' then DropReturns(text[1..]) else [text[0]] + DropReturns(text[1..])
  }

  lemma {:induction false} DropAppend(text: string, ch: char)
    ensures DropReturns(text + [ch]) == if ch == '\r' then DropReturns(text) else DropReturns(text) + [ch]
  {
    if text != "" {
      DropAppend(text[1..], ch);
      assert (text + [ch])[1..] == text[1..] + [ch];
    } else {
      assert (text + [ch])[1..] == "";
    }
  }

  // `value` is the text str() gives, or none for None.
  method MdEscape(value: Option<string>) returns (r: string)
    ensures var text := if value.Some? then value.value else "";
      r == Escape(DropReturns(text), MARKDOWN) && Unescape(r) == DropReturns(text)
  {
    r := "";
    if value.None? { return; }
    var text := value.value;
    hide Escape, DropReturns, Unescape;
    EmptyEscape();
    for n := 0 to |text|
      invariant r == Escape(DropReturns(text[..n]), MARKDOWN)
    {
      var ch := text[n];
      assert text[..n + 1] == text[..n] + [ch];
      DropAppend(text[..n], ch);
      if ch == '\r' { continue; }
      EscapeAppend(DropReturns(text[..n]), [ch], MARKDOWN);
      EscapeSingle(ch, MARKDOWN);
      r := r + EscapeChar(ch, MARKDOWN);
    }
    assert text[..|text|] == text;
    assert MARKDOWN[0] == '\\';
    UnescapeEscape(DropReturns(text), MARKDOWN);
  }

  lemma EmptyEscape()
    ensures Escape(DropReturns(""), MARKDOWN) == ""
  {
  }

  lemma EscapeSingle(ch: char, special: string)
    ensures Escape([ch], special) == EscapeChar(ch, special)
  {
    assert [ch][1..] == "";
    assert Escape("", special) == "";
  }

  method StixStr(text: string) returns (r: string)
    ensures r == Escape(text, STIX) && Unescape(r) == text
    ensures forall rest :: ReadQuoted(r + "'" + rest) == Some((text, rest))
  {
    hide Escape, ReadQuoted, Unescape;
    r := Replace(Replace(text, '\\'), '\'');
    EscapeNothing(text);
    ReplaceExtends(text, "", '\\');
    ReplaceExtends(text, "\\", '\'');
    assert "\\" + ['\''] == STIX && "" + ['\\'] == "\\";
    assert STIX[0] == '\\' && STIX[1] == '\'';
    UnescapeEscape(text, STIX);
    forall rest
      ensures ReadQuoted(r + "'" + rest) == Some((text, rest))
    {
      QuotedReadsBack(text, STIX, rest);
    }
  }
}
