/**
 * The page's HTML escaper: every `&`, `<`, `>`, `"` and `'` of a string is
 * replaced by its character reference, every other character is copied.
 * `Unescape` is the decoder of exactly those five references; the two are
 * proved to form a round trip, so escaping loses no text.
 */
module Escape {

  /** The five characters the escaper rewrites. */
  predicate IsSpecial(c: char) {
    c == '&' || c == '<' || c == '>' || c == '"' || c == '\''
  }

  /** The characters that may open or delimit markup: none survives escaping. */
  predicate IsMarkup(c: char) {
    c == '<' || c == '>' || c == '"' || c == '\''
  }

  /** True when `s` holds no character that could open a tag or end an attribute value. */
  predicate MarkupFree(s: string) {
    forall k :: 0 <= k < |s| ==> !IsMarkup(s[k])
  }

  // The five character references the escaper writes.
  const AmpRef: string := "&amp;"
  const LtRef: string := "&lt;"
  const GtRef: string := "&gt;"
  const QuotRef: string := "&quot;"
  const AposRef: string := "&#039;"

  /** The replacement text for one character. */
  function EscapeChar(c: char): (r: string)
    ensures !IsSpecial(c) ==> r == [c]
    ensures IsSpecial(c) ==> |r| >= 4 && r[0] == '&' && r[|r| - 1] == ';'
    ensures MarkupFree(r)
  {
    match c
    case '&' => AmpRef
    case '<' => LtRef
    case '>' => GtRef
    case '"' => QuotRef
    case '\'' => AposRef
    case _ => [c]
  }

  /** `escapeHtml`: the per-character replacement applied to the whole string, left to right. */
  function EscapeHtml(s: string): (r: string)
    ensures |r| >= |s|
    ensures MarkupFree(r)
    ensures (forall k :: 0 <= k < |s| ==> !IsSpecial(s[k])) ==> r == s
    ensures (exists k :: 0 <= k < |s| && IsSpecial(s[k])) ==> |r| > |s|
  {
    if s == [] then []
    else
      var head := EscapeChar(s[0]);
      var tail := EscapeHtml(s[1..]);
      assert forall k :: |head| <= k < |head| + |tail| ==> (head + tail)[k] == tail[k - |head|];
      assert forall k :: 1 <= k < |s| ==> s[k] == s[1..][k - 1];
      head + tail
  }

  /** Decodes the five references `EscapeHtml` produces and copies everything else. */
  function Unescape(s: string): string
    decreases |s|
  {
    if s == [] then []
    else if AmpRef <= s then "&" + Unescape(s[|AmpRef|..])
    else if LtRef <= s then "<" + Unescape(s[|LtRef|..])
    else if GtRef <= s then ">" + Unescape(s[|GtRef|..])
    else if QuotRef <= s then "\"" + Unescape(s[|QuotRef|..])
    else if AposRef <= s then "'" + Unescape(s[|AposRef|..])
    else [s[0]] + Unescape(s[1..])
  }

  /** Decoding the escape of one character followed by anything gives back that character first. */
  lemma UnescapeEscapedChar(c: char, t: string)
    ensures Unescape(EscapeChar(c) + t) == [c] + Unescape(t)
  {
    var r := EscapeChar(c);
    var e := r + t;
    assert e[..|r|] == r && e[|r|..] == t;
    if IsSpecial(c) {
      // The references all start with '&' and differ in their second character.
      assert e[1] == r[1];
      assert !(AmpRef <= e) || c == '&';
      assert !(LtRef <= e) || c == '<';
      assert !(GtRef <= e) || c == '>';
      assert !(QuotRef <= e) || c == '"';
    } else {
      assert e[0] == c && e[1..] == t;
    }
  }

  /** Escaping is lossless: decoding its output yields the original text. */
  lemma {:induction false} UnescapeEscapeHtml(s: string)
    ensures Unescape(EscapeHtml(s)) == s
  {
    if s != [] {
      UnescapeEscapeHtml(s[1..]);
      UnescapeEscapedChar(s[0], EscapeHtml(s[1..]));
      assert [s[0]] + s[1..] == s;
    }
  }

  /** Escaping distributes over concatenation, so each field can be escaped on its own. */
  lemma {:induction false} EscapeHtmlConcat(a: string, b: string)
    ensures EscapeHtml(a + b) == EscapeHtml(a) + EscapeHtml(b)
  {
    if a == [] {
      assert a + b == b;
    } else {
      assert (a + b)[0] == a[0] && (a + b)[1..] == a[1..] + b;
      EscapeHtmlConcat(a[1..], b);
    }
  }

  /** Escaping is injective: two different texts never render the same. */
  lemma EscapeHtmlInjective(a: string, b: string)
    requires EscapeHtml(a) == EscapeHtml(b)
    ensures a == b
  {
    UnescapeEscapeHtml(a);
    UnescapeEscapeHtml(b);
  }

  /** The escaper changes a text exactly when the text holds one of the five special characters. */
  lemma EscapeHtmlFixedPoints(s: string)
    ensures EscapeHtml(s) == s <==> forall k :: 0 <= k < |s| ==> !IsSpecial(s[k])
  {
  }
}
