/**
 * `html.escape(s)` with its default `quote=True`, which the mention
 * formatter applies to a member's display name. The standard library
 * writes it as five `str.replace` passes, `&` first; `Escape` is the same
 * map one character at a time, and `EscapeIsReplaceChain` shows the two agree.
 */
module Html {

  /** What one character becomes. */
  function EscapeChar(c: char): string {
    match c
    case '&' => "&amp;"
    case '<' => "&lt;"
    case '>' => "&gt;"
    case '"' => "&quot;"
    case '\'' => "&#x27;"
    case _ => [c]
  }

  /** The escaped text never holds a raw `<`, `>`, `"` or `'`, and is never shorter than its input. */
  function Escape(s: string): (r: string)
    ensures |r| >= |s|
    ensures '<' !in r && '>' !in r && '"' !in r && '\'' !in r
  {
    if s == [] then [] else EscapeChar(s[0]) + Escape(s[1..])
  }

  /** `s.replace(target, replacement)` for a one-character `target`. */
  function ReplaceChar(s: string, target: char, replacement: string): (r: string)
    ensures |replacement| > 0 ==> |r| >= |s|
    ensures target !in replacement ==> target !in r
    ensures forall c :: c !in s && c !in replacement ==> c !in r
  {
    if s == [] then []
    else (if s[0] == target then replacement else [s[0]]) + ReplaceChar(s[1..], target, replacement)
  }

  /**
   * `html.escape` as the standard library writes it. Each pass removes its
   * character, and no later pass brings it back.
   */
  function EscapeByReplace(s: string): (r: string)
    ensures |r| >= |s|
    ensures '<' !in r && '>' !in r && '"' !in r && '\'' !in r
  {
    var s1 := ReplaceChar(s, '&', "&amp;");
    var s2 := ReplaceChar(s1, '<', "&lt;");
    var s3 := ReplaceChar(s2, '>', "&gt;");
    var s4 := ReplaceChar(s3, '"', "&quot;");
    ReplaceChar(s4, '\'', "&#x27;")
  }

  /**
   * Reads back the five character references `Escape` writes; every other
   * character stands for itself.
   */
  function Unescape(s: string): string
    decreases |s|
  {
    if s == [] then []
    else if "&amp;" <= s then "&" + Unescape(s[5..])
    else if "&lt;" <= s then "<" + Unescape(s[4..])
    else if "&gt;" <= s then ">" + Unescape(s[4..])
    else if "&quot;" <= s then "\"" + Unescape(s[6..])
    else if "&#x27;" <= s then "'" + Unescape(s[6..])
    else [s[0]] + Unescape(s[1..])
  }

  lemma {:induction false} ReplaceCharAppend(a: string, b: string, target: char, replacement: string)
    ensures ReplaceChar(a + b, target, replacement)
         == ReplaceChar(a, target, replacement) + ReplaceChar(b, target, replacement)
    decreases |a|
  {
    if a == [] {
      assert a + b == b;
    } else {
      assert (a + b)[1..] == a[1..] + b;
      ReplaceCharAppend(a[1..], b, target, replacement);
    }
  }

  lemma EscapeByReplaceAppend(a: string, b: string)
    ensures EscapeByReplace(a + b) == EscapeByReplace(a) + EscapeByReplace(b)
  {
    var a1 := ReplaceChar(a, '&', "&amp;");
    var b1 := ReplaceChar(b, '&', "&amp;");
    ReplaceCharAppend(a, b, '&', "&amp;");
    var a2 := ReplaceChar(a1, '<', "&lt;");
    var b2 := ReplaceChar(b1, '<', "&lt;");
    ReplaceCharAppend(a1, b1, '<', "&lt;");
    var a3 := ReplaceChar(a2, '>', "&gt;");
    var b3 := ReplaceChar(b2, '>', "&gt;");
    ReplaceCharAppend(a2, b2, '>', "&gt;");
    var a4 := ReplaceChar(a3, '"', "&quot;");
    var b4 := ReplaceChar(b3, '"', "&quot;");
    ReplaceCharAppend(a3, b3, '"', "&quot;");
    ReplaceCharAppend(a4, b4, '\'', "&#x27;");
  }

  lemma {:induction false} ReplaceCharAbsent(s: string, target: char, replacement: string)
    requires target !in s
    ensures ReplaceChar(s, target, replacement) == s
    decreases |s|
  {
    if s != [] {
      assert s[0] != target;
      ReplaceCharAbsent(s[1..], target, replacement);
    }
  }

  lemma ReplaceCharSingle(c: char, target: char, replacement: string)
    ensures ReplaceChar([c], target, replacement) == if c == target then replacement else [c]
  {
    assert [c][1..] == [];
  }

  /** The passes after number `from` (of `<`, `>`, `"`, `'`) leave `e` alone. */
  lemma ReplaceRest(e: string, from: nat)
    requires from <= 3
    requires forall k :: from <= k < 4 ==> "<>\"'"[k] !in e
    ensures from <= 0 ==> ReplaceChar(e, '<', "&lt;") == e
    ensures from <= 1 ==> ReplaceChar(e, '>', "&gt;") == e
    ensures from <= 2 ==> ReplaceChar(e, '"', "&quot;") == e
    ensures ReplaceChar(e, '\'', "&#x27;") == e
  {
    if from <= 0 {
      assert "<>\"'"[0] == '<';
      ReplaceCharAbsent(e, '<', "&lt;");
    }
    if from <= 1 {
      assert "<>\"'"[1] == '>';
      ReplaceCharAbsent(e, '>', "&gt;");
    }
    if from <= 2 {
      assert "<>\"'"[2] == '"';
      ReplaceCharAbsent(e, '"', "&quot;");
    }
    assert "<>\"'"[3] == '\'';
    ReplaceCharAbsent(e, '\'', "&#x27;");
  }

  lemma EscapeByReplaceChar(c: char)
    ensures EscapeByReplace([c]) == EscapeChar(c)
  {
    ReplaceCharSingle(c, '&', "&amp;");
    if c == '&' {
      ReplaceRest("&amp;", 0);
    } else {
      ReplaceCharSingle(c, '<', "&lt;");
      if c == '<' {
        ReplaceRest("&lt;", 1);
      } else {
        ReplaceCharSingle(c, '>', "&gt;");
        if c == '>' {
          ReplaceRest("&gt;", 2);
        } else {
          ReplaceCharSingle(c, '"', "&quot;");
          if c == '"' {
            ReplaceRest("&quot;", 3);
          } else {
            ReplaceCharSingle(c, '\'', "&#x27;");
          }
        }
      }
    }
  }

  /** The one-character-at-a-time escape is the five-pass escape of the standard library. */
  lemma {:induction false} EscapeIsReplaceChain(s: string)
    ensures Escape(s) == EscapeByReplace(s)
    decreases |s|
  {
    if s != [] {
      assert s == [s[0]] + s[1..];
      EscapeByReplaceAppend([s[0]], s[1..]);
      EscapeByReplaceChar(s[0]);
      EscapeIsReplaceChain(s[1..]);
    }
  }

  lemma UnescapeEscapeChar(c: char, t: string)
    ensures Unescape(EscapeChar(c) + t) == [c] + Unescape(t)
  {
    var s := EscapeChar(c) + t;
    assert EscapeChar(c) <= s;
    assert s[..|EscapeChar(c)|] == EscapeChar(c);
    if c == '&' {
      assert s[5..] == t;
    } else if c == '<' {
      assert s[1] == 'l';
      assert s[4..] == t;
    } else if c == '>' {
      assert s[1] == 'g';
      assert s[4..] == t;
    } else if c == '"' {
      assert s[1] == 'q';
      assert s[6..] == t;
    } else if c == '\'' {
      assert s[1] == '#';
      assert s[6..] == t;
    } else {
      assert s[0] == c;
      assert s[1..] == t;
    }
  }

  /** Escaping loses nothing: `Unescape` gives the original text back. */
  lemma {:induction false} UnescapeEscape(s: string)
    ensures Unescape(Escape(s)) == s
    decreases |s|
  {
    if s != [] {
      UnescapeEscapeChar(s[0], Escape(s[1..]));
      UnescapeEscape(s[1..]);
    }
  }

  /** Text with none of the five special characters is left as it is. */
  lemma {:induction false} EscapePlain(s: string)
    requires forall i :: 0 <= i < |s| ==> s[i] !in "&<>\"'"
    ensures Escape(s) == s
    decreases |s|
  {
    if s != [] {
      EscapePlain(s[1..]);
    }
  }
}
