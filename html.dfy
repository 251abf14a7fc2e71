/** `escapeHtml` of the richest-list popup: each of the five characters
    `& < > " '` is replaced by its fixed character reference; every other
    character is kept. */
module Html {

  /** The replacement for one character. */
  function Entity(c: char): string {
    match c
    case '&' => "&amp;"
    case '<' => "&lt;"
    case '>' => "&gt;"
    case '"' => "&quot;"
    case '\'' => "&#39;"
    case _ => [c]
  }

  predicate IsSpecial(c: char) {
    c == '&' || c == '<' || c == '>' || c == '"' || c == '\''
  }

  /** The characters that must never appear raw in escaped text. */
  predicate IsMarkup(c: char) {
    c == '<' || c == '>' || c == '"' || c == '\''
  }

  /** `str.replace(/[&<>"']/g, ...)`: one pass, left to right. */
  function EscapeHtml(s: string): (r: string)
    ensures forall i :: 0 <= i < |r| ==> !IsMarkup(r[i])
    ensures (forall i :: 0 <= i < |s| ==> !IsSpecial(s[i])) ==> r == s
    ensures |r| >= |s|
  {
    if s == [] then [] else Entity(s[0]) + EscapeHtml(s[1..])
  }

  /** Escaping works character by character: it distributes over concatenation. */
  lemma {:induction false} EscapeHtmlAppend(a: string, b: string)
    ensures EscapeHtml(a + b) == EscapeHtml(a) + EscapeHtml(b)
  {
    if a == [] {
      assert a + b == b;
    } else {
      assert (a + b)[0] == a[0] && (a + b)[1..] == a[1..] + b;
      EscapeHtmlAppend(a[1..], b);
    }
  }

  /** Each special character maps to its fixed entity. */
  lemma EscapeHtmlEntities()
    ensures EscapeHtml("&") == "&amp;"
    ensures EscapeHtml("<") == "&lt;"
    ensures EscapeHtml(">") == "&gt;"
    ensures EscapeHtml("\"") == "&quot;"
    ensures EscapeHtml("'") == "&#39;"
  {
  }

  /** The inverse: decode the five references `EscapeHtml` writes. */
  function UnescapeHtml(s: string): string
    decreases |s|
  {
    if s == [] then []
    else if |s| >= 5 && s[..5] == "&amp;" then "&" + UnescapeHtml(s[5..])
    else if |s| >= 4 && s[..4] == "&lt;" then "<" + UnescapeHtml(s[4..])
    else if |s| >= 4 && s[..4] == "&gt;" then ">" + UnescapeHtml(s[4..])
    else if |s| >= 6 && s[..6] == "&quot;" then "\"" + UnescapeHtml(s[6..])
    else if |s| >= 5 && s[..5] == "&#39;" then "'" + UnescapeHtml(s[5..])
    else [s[0]] + UnescapeHtml(s[1..])
  }

  /** Decoding undoes the replacement of one character. */
  lemma UnescapeEntity(c: char, rest: string)
    ensures UnescapeHtml(Entity(c) + rest) == [c] + UnescapeHtml(rest)
  {
    match c
    case '&' => UnescapeAmp(rest);
    case '<' => UnescapeAngle(c, rest);
    case '>' => UnescapeAngle(c, rest);
    case '"' => UnescapeQuot(rest);
    case '\'' => UnescapeApos(rest);
    case _ => UnescapePlain(c, rest);
  }

  lemma UnescapeAmp(rest: string)
    ensures UnescapeHtml("&amp;" + rest) == "&" + UnescapeHtml(rest)
  {
    var e := "&amp;" + rest;
    assert e[..5] == "&amp;" && e[5..] == rest;
  }

  /** The two four-character references, `&lt;` and `&gt;`. */
  lemma UnescapeAngle(c: char, rest: string)
    requires c == '<' || c == '>'
    ensures UnescapeHtml(Entity(c) + rest) == [c] + UnescapeHtml(rest)
  {
    var e := Entity(c) + rest;
    assert e[1] == Entity(c)[1];
    assert e[..4] == Entity(c) && e[4..] == rest;
  }

  lemma UnescapeQuot(rest: string)
    ensures UnescapeHtml("&quot;" + rest) == "\"" + UnescapeHtml(rest)
  {
    var e := "&quot;" + rest;
    assert e[1] == 'q';
    assert e[..6] == "&quot;" && e[6..] == rest;
  }

  lemma UnescapeApos(rest: string)
    ensures UnescapeHtml("&#39;" + rest) == "'" + UnescapeHtml(rest)
  {
    var e := "&#39;" + rest;
    assert e[1] == '#';
    assert e[..5] == "&#39;" && e[5..] == rest;
  }

  lemma UnescapePlain(c: char, rest: string)
    requires !IsSpecial(c)
    ensures UnescapeHtml([c] + rest) == [c] + UnescapeHtml(rest)
  {
    var e := [c] + rest;
    assert e[0] == c && e[1..] == rest;
  }

  /** Escaping loses nothing: decoding the escaped text gives the original back. */
  lemma {:induction false} EscapeHtmlRoundTrip(s: string)
    ensures UnescapeHtml(EscapeHtml(s)) == s
  {
    if s != [] {
      EscapeHtmlRoundTrip(s[1..]);
      UnescapeEntity(s[0], EscapeHtml(s[1..]));
      assert s == [s[0]] + s[1..];
    }
  }
}
