/** The JavaScript semantics the controllers lean on: truthiness of request-body
    fields and `String.prototype.trim`, which the review schema applies to comments. */
module Js {
  import opened Results

  /** `!field` is false: the string is present and not empty. */
  predicate TruthyText(v: Option<string>) {
    v.Some? && v.value != ""
  }

  /** `!field` is false: the number is present and not zero. */
  predicate TruthyNumber(v: Option<real>) {
    v.Some? && v.value != 0.0
  }

  /** The characters ECMAScript's `trim` removes: WhiteSpace and LineTerminator
      code points (tab, vertical tab, form feed, space, no-break space, the
      byte-order mark, the Unicode space separators, LF, CR, LS and PS). */
  predicate IsWhitespace(c: char) {
    || c == '\t' || c == '\n' || c == '\U{0B}' || c == '\U{0C}' || c == '\r'
    || c == ' ' || c == '\U{A0}' || c == '\U{1680}'
    || ('\U{2000}' <= c <= '\U{200A}')
    || c == '\U{2028}' || c == '\U{2029}' || c == '\U{202F}' || c == '\U{205F}'
    || c == '\U{3000}' || c == '\U{FEFF}'
  }

  ghost predicate AllWhitespace(s: string) {
    forall i :: 0 <= i < |s| ==> IsWhitespace(s[i])
  }

  /** `s` with its longest whitespace prefix removed. */
  function TrimStart(s: string): (r: string)
    ensures |r| <= |s| && r == s[|s| - |r|..]
    ensures AllWhitespace(s[..|s| - |r|])
    ensures |r| > 0 ==> !IsWhitespace(r[0])
    decreases |s|
  {
    if |s| > 0 && IsWhitespace(s[0]) then TrimStart(s[1..]) else s
  }

  /** `s` with its longest whitespace suffix removed. */
  function TrimEnd(s: string): (r: string)
    ensures |r| <= |s| && r == s[..|r|]
    ensures AllWhitespace(s[|r|..])
    ensures |r| > 0 ==> !IsWhitespace(r[|r| - 1])
    decreases |s|
  {
    if |s| > 0 && IsWhitespace(s[|s| - 1]) then TrimEnd(s[..|s| - 1]) else s
  }

  /** `String.prototype.trim`: whitespace stripped from both ends. */
  function Trim(s: string): (r: string)
    ensures |r| <= |s|
    ensures |r| > 0 ==> !IsWhitespace(r[0]) && !IsWhitespace(r[|r| - 1])
  {
    TrimEnd(TrimStart(s))
  }

  /** What `Trim` removes is whitespace on either side of a contiguous infix of `s`. */
  lemma TrimIsInfix(s: string)
    ensures exists lo :: 0 <= lo <= |s| - |Trim(s)| && Trim(s) == s[lo..lo + |Trim(s)|]
                         && AllWhitespace(s[..lo]) && AllWhitespace(s[lo + |Trim(s)|..])
  {
    var a := TrimStart(s);
    var r := TrimEnd(a);
    var lo := |s| - |a|;
    assert a == s[lo..];
    assert r == a[..|r|] == s[lo..lo + |r|];
    assert AllWhitespace(s[..lo]);
    assert s[lo + |r|..] == a[|r|..];
    assert AllWhitespace(s[lo + |r|..]);
  }

  /** Trimming twice is trimming once. */
  lemma TrimIdempotent(s: string)
    ensures Trim(Trim(s)) == Trim(s)
  {
    TrimKeeps(Trim(s));
  }

  lemma TrimStartKeeps(s: string)
    requires |s| > 0 ==> !IsWhitespace(s[0])
    ensures TrimStart(s) == s
  {
  }

  lemma TrimEndKeeps(s: string)
    requires |s| > 0 ==> !IsWhitespace(s[|s| - 1])
    ensures TrimEnd(s) == s
  {
  }

  /** A string with no whitespace at either end is its own trim. */
  lemma TrimKeeps(s: string)
    requires |s| > 0 ==> !IsWhitespace(s[0]) && !IsWhitespace(s[|s| - 1])
    ensures Trim(s) == s
  {
    TrimStartKeeps(s);
    TrimEndKeeps(s);
  }

  /** A string trims to the empty string exactly when it is all whitespace;
      so a whitespace-only comment is truthy but trims to nothing. */
  lemma TrimEmptyIff(s: string)
    ensures Trim(s) == "" <==> AllWhitespace(s)
  {
    var a := TrimStart(s);
    if Trim(s) == "" {
      assert AllWhitespace(a[0..]);
      assert a == "";
      assert s[..|s|] == s;
    }
  }
}
