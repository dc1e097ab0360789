/** The JavaScript string semantics the catalog code relies on: truthiness, `||` chains, trim and prefix tests. */
module JsStrings {
  import opened Wrappers

  /** A string value is truthy when it is present and non-empty (null, undefined and "" are falsy). */
  predicate Truthy(o: Option<string>) {
    o.Some? && o.value != ""
  }

  /** `a || b || ... || null` over optional strings: the first truthy alternative, or None. */
  function FirstTruthy(alts: seq<Option<string>>): (r: Option<string>)
    ensures r.Some? ==> Truthy(r) && r in alts
    ensures r.None? <==> forall j :: 0 <= j < |alts| ==> !Truthy(alts[j])
  {
    if alts == [] then None
    else if Truthy(alts[0]) then alts[0]
    else FirstTruthy(alts[1..])
  }

  /** The alternative FirstTruthy picks is the earliest truthy one. */
  lemma {:induction false} FirstTruthyIsEarliest(alts: seq<Option<string>>, k: nat)
    requires k < |alts| && Truthy(alts[k])
    requires forall j :: 0 <= j < k ==> !Truthy(alts[j])
    ensures FirstTruthy(alts) == alts[k]
  {
    if k > 0 {
      FirstTruthyIsEarliest(alts[1..], k - 1);
    }
  }

  /** `o || fallback` for an optional string. */
  function OrElse(o: Option<string>, fallback: string): (r: string)
    ensures Truthy(o) ==> r == o.value
    ensures !Truthy(o) ==> r == fallback
  {
    if Truthy(o) then o.value else fallback
  }

  /** ECMA-262 WhiteSpace and LineTerminator code points: what String.prototype.trim removes. */
  predicate IsJsSpace(c: char) {
    c == '\t' || c == '\n' || c == '\U{0B}' || c == '\U{0C}' || c == '\r' || c == ' '
    || c == '\U{A0}' || c == '\U{1680}' || ('\U{2000}' <= c <= '\U{200A}')
    || c == '\U{2028}' || c == '\U{2029}' || c == '\U{202F}' || c == '\U{205F}'
    || c == '\U{3000}' || c == '\U{FEFF}'
  }

  function LeadingSpaces(s: string): (n: nat)
    ensures n <= |s|
    ensures forall i :: 0 <= i < n ==> IsJsSpace(s[i])
    ensures n < |s| ==> !IsJsSpace(s[n])
  {
    if s == [] || !IsJsSpace(s[0]) then 0 else 1 + LeadingSpaces(s[1..])
  }

  function TrailingSpaces(s: string): (n: nat)
    ensures n <= |s|
    ensures forall i :: |s| - n <= i < |s| ==> IsJsSpace(s[i])
    ensures n < |s| ==> !IsJsSpace(s[|s| - n - 1])
  {
    if s == [] || !IsJsSpace(s[|s| - 1]) then 0 else 1 + TrailingSpaces(s[..|s| - 1])
  }

  /** String.prototype.trim: `s` without its leading and trailing white space. */
  function Trim(s: string): (r: string)
    ensures r == [] || (!IsJsSpace(r[0]) && !IsJsSpace(r[|r| - 1]))
    ensures LeadingSpaces(s) + |r| <= |s| && r == s[LeadingSpaces(s)..LeadingSpaces(s) + |r|]
    ensures forall i :: LeadingSpaces(s) + |r| <= i < |s| ==> IsJsSpace(s[i])
  {
    var t := s[LeadingSpaces(s)..];
    t[..|t| - TrailingSpaces(t)]
  }

  /** Trim removes only white space: a string with none at its ends is unchanged. */
  lemma TrimUnchanged(s: string)
    requires s == [] || (!IsJsSpace(s[0]) && !IsJsSpace(s[|s| - 1]))
    ensures Trim(s) == s
  {
  }

  /** Trimming twice is trimming once. */
  lemma TrimIdempotent(s: string)
    ensures Trim(Trim(s)) == Trim(s)
  {
    TrimUnchanged(Trim(s));
  }

  /** `s.startsWith(p)`. */
  predicate StartsWith(s: string, p: string) {
    |p| <= |s| && s[..|p|] == p
  }

  function AsciiLower(c: char): char {
    if 'A' <= c <= 'Z' then (c as int + 32) as char else c
  }

  /** `s` begins with the lower-case pattern `p`, ASCII letters compared without regard to case. */
  predicate StartsWithIgnoreCase(s: string, p: string) {
    |p| <= |s| && forall i :: 0 <= i < |p| ==> AsciiLower(s[i]) == p[i]
  }

  /**
   * The regular expression /^https?:\/\//i. Without the u flag, case-insensitive matching never
   * maps a non-ASCII character to an ASCII one, so ASCII case folding is exact here.
   */
  predicate LooksLikeHttpUrl(s: string) {
    StartsWithIgnoreCase(s, "http://") || StartsWithIgnoreCase(s, "https://")
  }

  /**
   * The pattern is anchored and ignores case: any casing of "http://" or "https://" matches,
   * while another scheme, a protocol-relative URL or a leading space does not.
   */
  lemma HttpUrlPattern(rest: string)
    ensures LooksLikeHttpUrl("http://" + rest) && LooksLikeHttpUrl("HTTPS://" + rest)
    ensures !LooksLikeHttpUrl("ftp://" + rest) && !LooksLikeHttpUrl("//" + rest)
    ensures !LooksLikeHttpUrl(" https://" + rest)
  {
    assert ("ftp://" + rest)[0] == 'f';
    assert ("//" + rest)[0] == '/';
    assert (" https://" + rest)[0] == ' ';
  }

  /** A URL-looking string is at least "http://" long, and so never empty. */
  lemma UrlNotEmpty(s: string)
    requires LooksLikeHttpUrl(s)
    ensures |s| >= 7 && s[0] in "hH"
  {
  }

  /** A string holding the separator '/' first is not a URL for the pattern above. */
  lemma SlashIsNotUrl(s: string)
    requires s != [] && s[0] == '/'
    ensures !LooksLikeHttpUrl(s)
  {
  }
}
