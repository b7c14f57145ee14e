/**
 * The handful of JavaScript built-ins the migration engine leans on, stated over
 * Dafny strings: the `||` fallback on possibly-absent text, `String.prototype.trim`,
 * `String.prototype.toLowerCase` and `Array.prototype.join`.
 */
module Js {

  /** An absent JavaScript value (`null` or `undefined`) is `None`. */
  datatype Option<+T> = None | Some(value: T)

  /** A string is truthy in JavaScript exactly when it is not empty. */
  predicate Truthy(v: Option<string>)
  {
    v.Some? && v.value != ""
  }

  /** `v || fallback` where `v` is text that may be absent. */
  function Or(v: Option<string>, fallback: string): (r: string)
    ensures Truthy(v) ==> r == v.value
    ensures !Truthy(v) ==> r == fallback
  {
    if Truthy(v) then v.value else fallback
  }

  /**
   * The characters `String.prototype.trim` removes: the ECMAScript WhiteSpace
   * set (tab, vertical tab, form feed, space, no-break space, byte order mark and
   * every other Unicode space separator) and the LineTerminator set.
   */
  predicate IsWhiteSpace(c: char)
  {
    || c == '\t' || c == '\n' || c == '\U{000B}' || c == '\U{000C}' || c == '\r' || c == ' '
    || c == '\U{00A0}' || c == '\U{1680}' || ('\U{2000}' <= c <= '\U{200A}')
    || c == '\U{2028}' || c == '\U{2029}' || c == '\U{202F}' || c == '\U{205F}'
    || c == '\U{3000}' || c == '\U{FEFF}'
  }

  predicate AllWhiteSpace(s: string)
  {
    forall i :: 0 <= i < |s| ==> IsWhiteSpace(s[i])
  }

  /** The length of the run of white space at the start of `s`. */
  function Leading(s: string): (n: nat)
    ensures n <= |s|
    ensures forall i :: 0 <= i < n ==> IsWhiteSpace(s[i])
    ensures n == |s| || !IsWhiteSpace(s[n])
  {
    if s != [] && IsWhiteSpace(s[0]) then 1 + Leading(s[1..]) else 0
  }

  /** The length of the run of white space at the end of `s`. */
  function Trailing(s: string): (n: nat)
    ensures n <= |s|
    ensures forall i :: |s| - n <= i < |s| ==> IsWhiteSpace(s[i])
    ensures n == |s| || !IsWhiteSpace(s[|s| - n - 1])
  {
    if s != [] && IsWhiteSpace(s[|s| - 1]) then 1 + Trailing(s[..|s| - 1]) else 0
  }

  /** Any run of white space that ends at text or at the end of `s` is the leading run. */
  lemma LeadingIs(s: string, n: nat)
    requires n <= |s|
    requires forall i :: 0 <= i < n ==> IsWhiteSpace(s[i])
    requires n == |s| || !IsWhiteSpace(s[n])
    ensures Leading(s) == n
  {
  }

  /** Any run of white space that starts after text or at the start of `s` is the trailing run. */
  lemma TrailingIs(s: string, n: nat)
    requires n <= |s|
    requires forall i :: |s| - n <= i < |s| ==> IsWhiteSpace(s[i])
    requires n == |s| || !IsWhiteSpace(s[|s| - n - 1])
    ensures Trailing(s) == n
  {
  }

  /** Drops the leading white space. */
  function TrimStart(s: string): (r: string)
  {
    s[Leading(s)..]
  }

  /** Drops the trailing white space. */
  function TrimEnd(s: string): (r: string)
  {
    s[..|s| - Trailing(s)]
  }

  /**
   * `String.prototype.trim`: the text between the leading and the trailing
   * white space, which is empty exactly when `s` is all white space.
   */
  function Trim(s: string): (r: string)
    ensures Leading(s) + |r| <= |s| && r == s[Leading(s)..Leading(s) + |r|]
    ensures r == [] <==> AllWhiteSpace(s)
    ensures r == [] || (!IsWhiteSpace(r[0]) && !IsWhiteSpace(r[|r| - 1]))
    ensures AllWhiteSpace(s[Leading(s) + |r|..])
  {
    var a, t := Leading(s), TrimStart(s);
    var r := TrimEnd(t);
    assert t != [] ==> t[0] == s[a];
    assert s[a + |r|..] == t[|r|..];
    r
  }

  /** `s` is its trimmed text with white space on either side. */
  lemma TrimSplits(s: string)
    ensures var a, r := Leading(s), Trim(s);
      && s == s[..a] + r + s[a + |r|..]
      && AllWhiteSpace(s[..a]) && AllWhiteSpace(s[a + |r|..])
  {
    var a, r := Leading(s), Trim(s);
    assert s == s[..a] + s[a..a + |r|] + s[a + |r|..];
  }

  /** Text that neither starts nor ends with white space is left as it is. */
  lemma TrimOfTrimmed(s: string)
    requires s == [] || (!IsWhiteSpace(s[0]) && !IsWhiteSpace(s[|s| - 1]))
    ensures Trim(s) == s
  {
    LeadingIs(s, 0);
    TrailingIs(s, 0);
  }

  /** Trimming twice is trimming once. */
  lemma TrimIdempotent(s: string)
    ensures Trim(Trim(s)) == Trim(s)
  {
    TrimOfTrimmed(Trim(s));
  }

  /** Joining two runs of white space gives a run of white space. */
  lemma WhiteSpaceConcat(a: string, b: string)
    requires AllWhiteSpace(a) && AllWhiteSpace(b)
    ensures AllWhiteSpace(a + b)
  {
    forall i | 0 <= i < |a + b| ensures IsWhiteSpace((a + b)[i]) {
      if i >= |a| {
        assert (a + b)[i] == b[i - |a|];
      }
    }
  }

  /** Concatenation regrouped around its middle part. */
  lemma Regroup(x: string, a: string, b: string, c: string, y: string)
    ensures x + (a + b + c) + y == (x + a) + b + (c + y)
  {
  }

  /** Trimming ignores any white space padding around the text. */
  lemma TrimIgnoresPadding(ws: string, s: string, ws': string)
    requires AllWhiteSpace(ws) && AllWhiteSpace(ws')
    ensures Trim(ws + s + ws') == Trim(s)
  {
    if AllWhiteSpace(s) {
      WhiteSpaceConcat(ws, s);
      WhiteSpaceConcat(ws + s, ws');
    } else {
      var a, r := Leading(s), Trim(s);
      var lead, tail := s[..a], s[a + |r|..];
      TrimSplits(s);
      WhiteSpaceConcat(ws, lead);
      WhiteSpaceConcat(tail, ws');
      Regroup(ws, lead, r, tail, ws');
      TrimAround(ws + lead, r, tail + ws');
    }
  }

  /** Trimming text padded with white space gives the text back, when it starts and ends with a non-space. */
  lemma TrimAround(pre: string, r: string, post: string)
    requires AllWhiteSpace(pre) && AllWhiteSpace(post)
    requires r != [] && !IsWhiteSpace(r[0]) && !IsWhiteSpace(r[|r| - 1])
    ensures Trim(pre + r + post) == r
  {
    var u := pre + r + post;
    assert u[|pre|] == r[0];
    LeadingIs(u, |pre|);
    var t := TrimStart(u);
    assert t == r + post;
    assert t[|r| - 1] == r[|r| - 1];
    TrailingIs(t, |post|);
  }

  /**
   * `String.prototype.toLowerCase` on one character, for every character whose
   * lower-case form lies in ASCII: the letters A-Z and the Kelvin sign, which
   * lower-cases to `k`. Other characters are kept as they are.
   */
  function LowerChar(c: char): (d: char)
    ensures 'A' <= c <= 'Z' ==> d as int == c as int + 32
    ensures c == '\U{212A}' ==> d == 'k'
    ensures ('a' <= d <= 'z') ==> ('a' <= c <= 'z' || 'A' <= c <= 'Z' || (d == 'k' && c == '\U{212A}'))
    ensures !('A' <= c <= 'Z') && c != '\U{212A}' ==> d == c
  {
    if 'A' <= c <= 'Z' then (c as int + 32) as char
    else if c == '\U{212A}' then 'k'
    else c
  }

  /** `String.prototype.toLowerCase`, character by character. */
  function ToLower(s: string): (r: string)
    ensures |r| == |s|
    ensures forall i :: 0 <= i < |s| ==> r[i] == LowerChar(s[i])
  {
    if s == [] then [] else [LowerChar(s[0])] + ToLower(s[1..])
  }

  /** Lower-casing twice is lower-casing once. */
  lemma ToLowerIdempotent(s: string)
    ensures ToLower(ToLower(s)) == ToLower(s)
  {
    var once := ToLower(s);
    var twice := ToLower(once);
    assert forall i :: 0 <= i < |s| ==> twice[i] == once[i];
  }

  /** `Array.prototype.join(sep)` over strings. */
  function Join(parts: seq<string>, sep: string): (r: string)
    ensures parts == [] ==> r == ""
    ensures |parts| == 1 ==> r == parts[0]
    ensures |parts| >= 1 ==> |r| == |Join(parts[..|parts| - 1], sep)| + |sep| * (if |parts| == 1 then 0 else 1) + |parts[|parts| - 1]|
  {
    if parts == [] then ""
    else if |parts| == 1 then parts[0]
    else Join(parts[..|parts| - 1], sep) + sep + parts[|parts| - 1]
  }

  /** `s.startsWith(p)`. */
  predicate StartsWith(s: string, p: string)
  {
    |p| <= |s| && s[..|p|] == p
  }
}
