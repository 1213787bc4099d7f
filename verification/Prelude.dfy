/** The small types and the facts about characters that every module shares. */
module Prelude {

  datatype Option<+T> = None | Some(value: T) {
    function GetOr(default: T): T {
      match this
      case None => default
      case Some(v) => v
    }
  }

  datatype Result<+T, +E> = Ok(value: T) | Err(error: E)

  // White space as Unicode defines it.
  predicate IsSpace(c: char) {
    || '\t' <= c <= '\r' || c == ' ' || c == '\U{85}' || c == '\U{A0}' || c == '\U{1680}' || '\U{2000}' <= c <= '\U{200A}'
    || c == '\U{2028}' || c == '\U{2029}' || c == '\U{202F}' || c == '\U{205F}' || c == '\U{3000}'
  }

  predicate AllSpace(s: string) {
    forall i | 0 <= i < |s| :: IsSpace(s[i])
  }

  predicate IsBlank(text: string) {
    forall c | c in text :: IsSpace(c)
  }

  // The text without the white space at its ends.
  function TrimSpace(text: string): (trimmed: string)
    ensures |trimmed| <= |text|
    ensures trimmed != "" ==> !IsSpace(trimmed[0]) && !IsSpace(trimmed[|trimmed| - 1])
    decreases |text|
  {
    if text == "" then ""
    else if IsSpace(text[0]) then TrimSpace(text[1..])
    else if IsSpace(text[|text| - 1]) then TrimSpace(text[..|text| - 1])
    else text
  }

  predicate IsHex(c: char) {
    '0' <= c <= '9' || 'a' <= c <= 'f' || 'A' <= c <= 'F'
  }

  // The number of bytes of a text in UTF-8.
  function Utf8Length(s: string): (n: nat)
    ensures |s| <= n <= 4 * |s|
  {
    if s == "" then 0
    else Utf8Length(s[1..]) + if s[0] < '\U{80}' then 1 else if s[0] < '\U{800}' then 2 else if s[0] < '\U{10000}' then 3 else 4
  }

  // The order of texts by their characters.
  predicate TextBefore(a: string, b: string) {
    if a == "" || b == "" then a == "" && b != ""
    else a[0] < b[0] || (a[0] == b[0] && TextBefore(a[1..], b[1..]))
  }

  lemma TextBeforeIsStrict(a: string)
    ensures !TextBefore(a, a)
  {
  }

  lemma {:induction false} TextOrder(a: string, b: string, c: string)
    ensures a == b || TextBefore(a, b) || TextBefore(b, a)
    ensures TextBefore(a, b) && TextBefore(b, c) ==> TextBefore(a, c)
  {
    if a != "" && b != "" && c != "" {
      TextOrder(a[1..], b[1..], c[1..]);
    } else if a != "" && b != "" {
      TextOrder(a[1..], b[1..], "");
    }
    if a != "" && b != "" && a[0] == b[0] { assert a == [a[0]] + a[1..] && b == [b[0]] + b[1..]; }
  }

  lemma SubsetIsSmaller<T>(a: set<T>, b: set<T>)
    requires a <= b
    ensures |a| <= |b|
  {
    assert b == a + (b - a);
    assert |b| == |a| + |b - a|;
  }
}
