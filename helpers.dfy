/**
 * The small pure helpers of the planogram editor: numeric clamping, the
 * integer parse-and-clamp used for the canvas settings, label truncation and
 * HTML escaping.
 */
module Helpers {

  /** The outcome of a lookup or a parse: `None` when nothing was found. */
  datatype Option<+T> = None | Some(value: T)

  function Max(a: real, b: real): real { if a < b then b else a }

  function Min(a: real, b: real): real { if a < b then a else b }

  /**
   * `Math.max(lo, Math.min(hi, n))`. When the bounds are crossed (`hi < lo`)
   * the lower bound wins.
   */
  function Clamp(n: real, lo: real, hi: real): (r: real)
    ensures lo <= r
    ensures lo <= hi ==> r <= hi
    ensures lo <= n <= hi ==> r == n
    ensures n <= lo ==> r == lo
    ensures hi < lo ==> r == lo
    ensures lo <= hi <= n ==> r == hi
  {
    Max(lo, Min(hi, n))
  }

  /** Clamping twice to the same bounds is the same as clamping once. */
  lemma ClampIdempotent(n: real, lo: real, hi: real)
    ensures Clamp(Clamp(n, lo, hi), lo, hi) == Clamp(n, lo, hi)
  {
  }

  /**
   * `clampInt(v, min, max)`: `parsed` is the outcome of `parseInt(v, 10)`,
   * `None` standing for NaN. An unparseable input falls back to the minimum.
   */
  function ClampInt(parsed: Option<int>, lo: int, hi: int): (r: int)
    ensures lo <= r
    ensures lo <= hi ==> r <= hi
    ensures parsed.None? ==> r == lo
    ensures parsed.Some? && lo <= parsed.value <= hi ==> r == parsed.value
    ensures parsed.Some? && parsed.value <= lo ==> r == lo
    ensures parsed.Some? && lo <= hi <= parsed.value ==> r == hi
  {
    match parsed
    case None => lo
    case Some(n) => Clamp(n as real, lo as real, hi as real).Floor
  }

  /** The single-character ellipsis `truncate` appends. */
  const Ellipsis: char := '\U{2026}'

  /**
   * The end index `String.prototype.slice(0, end)` stops at on a string of
   * length `len`: a negative end counts back from the end of the string.
   */
  function SliceEnd(len: nat, end: int): (k: nat)
    ensures k <= len
    ensures 0 <= end <= len ==> k == end
    ensures len < end ==> k == len
    ensures -(len as int) <= end < 0 ==> k == len + end
    ensures end < -(len as int) ==> k == 0
  {
    if end < 0 then (if len + end < 0 then 0 else len + end)
    else if end < len then end
    else len
  }

  /**
   * `truncate(s, n)`: a string longer than `n` is cut to its first `n - 1`
   * characters followed by an ellipsis; anything else is returned as it is.
   */
  function Truncate(s: string, n: int): (r: string)
    ensures |s| <= n ==> r == s
    ensures |s| > n ==> 1 <= |r| && r[|r| - 1] == Ellipsis && r[..|r| - 1] <= s
    ensures |s| > n && n >= 1 ==> |r| == n
  {
    if |s| > n then
      var head := s[..SliceEnd(|s|, n - 1)];
      assert (head + [Ellipsis])[..|head|] == head;
      head + [Ellipsis]
    else s
  }

  /** The characters `escapeHtml` rewrites into entities. */
  predicate IsSpecial(ch: char) {
    ch == '&' || ch == '<' || ch == '>' || ch == '"' || ch == '\''
  }

  /** Text that cannot open a tag, close one, or end a quoted attribute. */
  predicate HtmlSafe(s: string) {
    forall i :: 0 <= i < |s| ==> s[i] != '<' && s[i] != '>' && s[i] != '"' && s[i] != '\''
  }

  /** Text in which `escapeHtml` has nothing to rewrite. */
  predicate Plain(s: string) {
    forall i :: 0 <= i < |s| ==> !IsSpecial(s[i])
  }

  /** The replacement `escapeHtml` uses for one character. */
  function EscapeChar(ch: char): (e: string)
    ensures HtmlSafe(e) && 1 <= |e|
    ensures !IsSpecial(ch) <==> e == [ch]
    ensures IsSpecial(ch) ==> 4 <= |e| && e[0] == '&' && e[|e| - 1] == ';'
  {
    match ch
    case '&' => "&amp;"
    case '<' => "&lt;"
    case '>' => "&gt;"
    case '"' => "&quot;"
    case '\'' => "&#039;"
    case _ => [ch]
  }

  /**
   * `escapeHtml(s)`: every `&`, `<`, `>`, `"` and `'` replaced by its entity,
   * all other characters kept in order.
   */
  function EscapeHtml(s: string): (r: string)
    ensures HtmlSafe(r)
    ensures |s| <= |r|
    ensures Plain(s) ==> r == s
  {
    if s == [] then []
    else
      var e, rest := EscapeChar(s[0]), EscapeHtml(s[1..]);
      assert Plain(s) ==> Plain(s[1..]) by {
        if Plain(s) {
          forall i | 0 <= i < |s[1..]| ensures !IsSpecial(s[1..][i]) {
            assert s[1..][i] == s[i + 1];
          }
        }
      }
      assert HtmlSafe(e + rest) by {
        forall i | 0 <= i < |e + rest|
          ensures (e + rest)[i] != '<' && (e + rest)[i] != '>' && (e + rest)[i] != '"' && (e + rest)[i] != '\''
        {
          if i < |e| {
            assert (e + rest)[i] == e[i];
          } else {
            assert (e + rest)[i] == rest[i - |e|];
          }
        }
      }
      assert Plain(s) ==> s == [s[0]] + s[1..];
      e + rest
  }

  /** Whether `s` begins with `prefix`. */
  predicate StartsWith(s: string, prefix: string) {
    |prefix| <= |s| && s[..|prefix|] == prefix
  }

  /**
   * The character an entity at the front of `s` stands for, with the
   * entity's length; `None` when `s` does not begin with one of the five
   * entities `EscapeHtml` produces.
   */
  function LeadingEntity(s: string): (r: Option<(char, nat)>)
    ensures r.Some? ==> 1 <= r.value.1 <= |s|
  {
    if StartsWith(s, "&amp;") then Some(('&', 5))
    else if StartsWith(s, "&lt;") then Some(('<', 4))
    else if StartsWith(s, "&gt;") then Some(('>', 4))
    else if StartsWith(s, "&quot;") then Some(('"', 6))
    else if StartsWith(s, "&#039;") then Some(('\'', 6))
    else None
  }

  /**
   * The inverse of `EscapeHtml`: the five entities it produces are read back
   * as the characters they stand for; every other character is kept.
   */
  function UnescapeHtml(s: string): string
    decreases |s|
  {
    if s == [] then []
    else
      match LeadingEntity(s)
      case Some((ch, len)) => [ch] + UnescapeHtml(s[len..])
      case None => [s[0]] + UnescapeHtml(s[1..])
  }

  /** A string that differs from `prefix` at some position does not begin with it. */
  lemma DiffersAt(s: string, prefix: string, i: nat)
    requires i < |prefix| && i < |s| && s[i] != prefix[i]
    ensures !StartsWith(s, prefix)
  {
  }

  // Each entity, followed by anything, is read back as the character it stands
  // for; a string that does not begin with `&` begins with no entity.
  lemma LeadingApos(rest: string)
    ensures LeadingEntity("&#039;" + rest) == Some(('\'', 6))
  {
    var s := "&#039;" + rest;
    assert s[..6] == "&#039;";
    DiffersAt(s, "&amp;", 1);
    DiffersAt(s, "&lt;", 1);
    DiffersAt(s, "&gt;", 1);
    DiffersAt(s, "&quot;", 1);
  }

  lemma LeadingQuot(rest: string)
    ensures LeadingEntity("&quot;" + rest) == Some(('"', 6))
  {
    var s := "&quot;" + rest;
    assert s[..6] == "&quot;";
    DiffersAt(s, "&amp;", 1);
    DiffersAt(s, "&lt;", 1);
    DiffersAt(s, "&gt;", 1);
  }

  lemma LeadingGt(rest: string)
    ensures LeadingEntity("&gt;" + rest) == Some(('>', 4))
  {
    var s := "&gt;" + rest;
    assert s[..4] == "&gt;";
    DiffersAt(s, "&amp;", 1);
    DiffersAt(s, "&lt;", 1);
  }

  lemma LeadingLt(rest: string)
    ensures LeadingEntity("&lt;" + rest) == Some(('<', 4))
  {
    var s := "&lt;" + rest;
    assert s[..4] == "&lt;";
    DiffersAt(s, "&amp;", 1);
  }

  lemma LeadingAmp(rest: string)
    ensures LeadingEntity("&amp;" + rest) == Some(('&', 5))
  {
    var s := "&amp;" + rest;
    assert s[..5] == "&amp;";
  }

  lemma LeadingPlain(ch: char, rest: string)
    requires ch != '&'
    ensures LeadingEntity([ch] + rest) == None
  {
    var s := [ch] + rest;
    DiffersAt(s, "&amp;", 0);
    DiffersAt(s, "&lt;", 0);
    DiffersAt(s, "&gt;", 0);
    DiffersAt(s, "&quot;", 0);
    DiffersAt(s, "&#039;", 0);
  }

  /** The entity an escaped character begins with is read back as that character. */
  lemma LeadingEntityOfEscaped(ch: char, rest: string)
    ensures LeadingEntity(EscapeChar(ch) + rest)
         == if IsSpecial(ch) then Some((ch, |EscapeChar(ch)|)) else None
  {
    match ch
    case '&' => LeadingAmp(rest);
    case '<' => LeadingLt(rest);
    case '>' => LeadingGt(rest);
    case '"' => LeadingQuot(rest);
    case '\'' => LeadingApos(rest);
    case _ => LeadingPlain(ch, rest);
  }

  /** Unescaping reads one escaped character back off the front of a string. */
  lemma UnescapeEscapedChar(ch: char, rest: string)
    ensures UnescapeHtml(EscapeChar(ch) + rest) == [ch] + UnescapeHtml(rest)
  {
    var s := EscapeChar(ch) + rest;
    LeadingEntityOfEscaped(ch, rest);
    assert s[|EscapeChar(ch)|..] == rest;
    if !IsSpecial(ch) {
      assert s[0] == ch;
    }
  }

  /** Escaping loses nothing: unescaping the result gives the original text back. */
  lemma {:induction false} EscapeRoundTrip(s: string)
    ensures UnescapeHtml(EscapeHtml(s)) == s
  {
    if s != [] {
      UnescapeEscapedChar(s[0], EscapeHtml(s[1..]));
      EscapeRoundTrip(s[1..]);
      assert s == [s[0]] + s[1..];
    }
  }
}
