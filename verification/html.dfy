/**
 * The `escapeHtml` helper the booking table puts every name through, and a
 * reading-back function that shows the escaping loses nothing.
 */
module Html {

  /** The five characters the helper replaces. */
  predicate IsSpecial(c: char) {
    c == '&' || c == '<' || c == '>' || c == '"' || c == '\''
  }

  /** The replacement of one character: its entity if it is special, itself otherwise. */
  function Entity(c: char): string {
    match c
    case '&' => "&amp;"
    case '<' => "&lt;"
    case '>' => "&gt;"
    case '"' => "&quot;"
    case '\'' => "&#39;"
    case _ => [c]
  }

  /** The characters that may never appear raw in escaped text. */
  predicate IsMarkup(c: char) {
    c == '<' || c == '>' || c == '"' || c == '\''
  }

  lemma EntityHasNoMarkup(c: char)
    ensures forall i :: 0 <= i < |Entity(c)| ==> !IsMarkup(Entity(c)[i])
  {
  }

  /**
   * `escapeHtml`: every character replaced by its entity, left to right.
   * The result holds no raw `<`, `>`, `"` or `'`.
   */
  function EscapeHtml(s: string): (r: string)
    ensures |r| >= |s|
    ensures forall i :: 0 <= i < |r| ==> !IsMarkup(r[i])
  {
    if s == [] then []
    else
      EntityHasNoMarkup(s[0]);
      Entity(s[0]) + EscapeHtml(s[1..])
  }

  /** Escaping works character by character, so it distributes over concatenation. */
  lemma {:induction false} EscapeAppend(a: string, b: string)
    ensures EscapeHtml(a + b) == EscapeHtml(a) + EscapeHtml(b)
  {
    if a != [] {
      assert (a + b)[1..] == a[1..] + b;
      EscapeAppend(a[1..], b);
    } else {
      assert a + b == b;
    }
  }

  /** Text without any of the five characters comes out unchanged, and only such text does. */
  lemma {:induction false} EscapeIdentity(s: string)
    ensures EscapeHtml(s) == s <==> forall i :: 0 <= i < |s| ==> !IsSpecial(s[i])
  {
    if s != [] {
      EscapeIdentity(s[1..]);
      if IsSpecial(s[0]) {
        assert |Entity(s[0])| > 1;
        assert |EscapeHtml(s)| > |s|;
      } else {
        assert Entity(s[0]) == [s[0]];
        if forall i :: 0 <= i < |s| ==> !IsSpecial(s[i]) {
          assert forall i :: 0 <= i < |s[1..]| ==> !IsSpecial(s[1..][i]) by {
            forall i | 0 <= i < |s[1..]| ensures !IsSpecial(s[1..][i]) {
              assert s[1..][i] == s[i + 1];
            }
          }
        } else {
          var i :| 0 <= i < |s| && IsSpecial(s[i]);
          assert s[1..][i - 1] == s[i];
        }
      }
    }
  }

  predicate StartsWith(s: string, p: string) {
    |p| <= |s| && s[..|p|] == p
  }

  /** Reads entities back, left to right; any other character stands for itself. */
  function UnescapeHtml(s: string): string
    decreases |s|
  {
    if s == [] then []
    else if StartsWith(s, "&amp;") then "&" + UnescapeHtml(s[5..])
    else if StartsWith(s, "&lt;") then "<" + UnescapeHtml(s[4..])
    else if StartsWith(s, "&gt;") then ">" + UnescapeHtml(s[4..])
    else if StartsWith(s, "&quot;") then "\"" + UnescapeHtml(s[6..])
    else if StartsWith(s, "&#39;") then "'" + UnescapeHtml(s[5..])
    else [s[0]] + UnescapeHtml(s[1..])
  }

  /** Text that differs from an entity in its first or second character does not start with it. */
  lemma NotStartsWith(s: string, p: string, k: nat)
    requires k < |s| && k < |p| && s[k] != p[k]
    ensures !StartsWith(s, p)
  {
    if |p| <= |s| {
      assert s[..|p|][k] == s[k];
    }
  }

  /** One escaped character followed by anything reads back as that character. */
  lemma UnescapeEntity(c: char, rest: string)
    ensures UnescapeHtml(Entity(c) + rest) == [c] + UnescapeHtml(rest)
  {
    var s := Entity(c) + rest;
    var n := |Entity(c)|;
    assert s[..n] == Entity(c) && s[n..] == rest;
    if !IsSpecial(c) {
      NotStartsWith(s, "&amp;", 0);
      NotStartsWith(s, "&lt;", 0);
      NotStartsWith(s, "&gt;", 0);
      NotStartsWith(s, "&quot;", 0);
      NotStartsWith(s, "&#39;", 0);
    } else if c != '&' {
      NotStartsWith(s, "&amp;", 1);
      if c == '"' || c == '\'' {
        NotStartsWith(s, "&lt;", 1);
        NotStartsWith(s, "&gt;", 1);
        if c == '\'' {
          NotStartsWith(s, "&quot;", 1);
        }
      } else if c == '>' {
        NotStartsWith(s, "&lt;", 1);
      }
    }
  }

  /** Escaping is lossless: reading the escaped text back gives the original. */
  lemma {:induction false} UnescapeEscape(s: string)
    ensures UnescapeHtml(EscapeHtml(s)) == s
  {
    if s != [] {
      UnescapeEntity(s[0], EscapeHtml(s[1..]));
      UnescapeEscape(s[1..]);
    }
  }

  /** Escaping is injective: two texts that escape alike are equal. */
  lemma EscapeInjective(a: string, b: string)
    requires EscapeHtml(a) == EscapeHtml(b)
    ensures a == b
  {
    UnescapeEscape(a);
    UnescapeEscape(b);
  }
}
