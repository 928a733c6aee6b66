/** Strings as the application sees them, and JavaScript's string helpers
    that the components rely on. */
module Text {

  /** A JavaScript string. Each element stands for one UTF-16 code unit, so
      `|s|` is JavaScript's `s.length` and `<` on elements is code-unit order.
      A Dafny `char` cannot be a lone surrogate, so only text made of
      Basic Multilingual Plane characters is represented. */
  type Str = seq<char>

  /** The WhiteSpace and LineTerminator code points of ECMAScript, the ones
      `String.prototype.trim` strips from both ends. */
  predicate IsSpace(c: char)
  {
    var n := c as int;
    || n == 0x09 || n == 0x0A || n == 0x0B || n == 0x0C || n == 0x0D
    || n == 0x20 || n == 0xA0 || n == 0x1680 || (0x2000 <= n <= 0x200A)
    || n == 0x2028 || n == 0x2029 || n == 0x202F || n == 0x205F
    || n == 0x3000 || n == 0xFEFF
  }

  predicate AllSpace(s: Str)
  {
    forall i :: 0 <= i < |s| ==> IsSpace(s[i])
  }

  /** How many spaces `s` starts with: every code unit before that count is
      a space, and the one at it (if any) is not. */
  function LeadingSpaces(s: Str): (n: nat)
    ensures n <= |s|
    ensures forall k :: 0 <= k < n ==> IsSpace(s[k])
    ensures n < |s| ==> !IsSpace(s[n])
  {
    if s != [] && IsSpace(s[0]) then 1 + LeadingSpaces(s[1..]) else 0
  }

  /** How many spaces `s` ends with. */
  function TrailingSpaces(s: Str): (n: nat)
    ensures n <= |s|
    ensures forall k :: |s| - n <= k < |s| ==> IsSpace(s[k])
    ensures n < |s| ==> !IsSpace(s[|s| - n - 1])
  {
    if s != [] && IsSpace(s[|s| - 1]) then 1 + TrailingSpaces(s[..|s| - 1]) else 0
  }

  /** `s.trim()`: the text between the leading and the trailing spaces. The
      result is the slice of `s` that starts after the leading spaces and is
      followed only by spaces; it is empty exactly when `s` is blank, it
      never starts or ends with a space, and `s` without surrounding spaces
      is returned as is. */
  function Trim(s: Str): (r: Str)
    ensures var i := LeadingSpaces(s);
      && i + |r| <= |s| && r == s[i..i + |r|]
      && AllSpace(s[..i]) && AllSpace(s[i + |r|..])
    ensures r == [] <==> AllSpace(s)
    ensures r != [] ==> !IsSpace(r[0]) && !IsSpace(r[|r| - 1])
    ensures (s == [] || (!IsSpace(s[0]) && !IsSpace(s[|s| - 1]))) ==> r == s
  {
    var i := LeadingSpaces(s);
    if i == |s| then
      assert s[..i] == s;
      []
    else
      var n := TrailingSpaces(s);
      assert i < |s| - n;
      var r := s[i..|s| - n];
      assert !IsSpace(s[i]) && !IsSpace(s[|s| - n - 1]);
      var tail := s[i + |r|..];
      assert AllSpace(tail) by {
        forall k | 0 <= k < |tail| ensures IsSpace(tail[k]) {
          assert tail[k] == s[|s| - n + k];
        }
      }
      r
  }

  /** `trim` is determined by what it keeps: whenever `s` is a blank prefix,
      a middle that is empty or neither starts nor ends with a space, and a
      blank suffix, `Trim(s)` is that middle. */
  lemma TrimUnique(a: Str, m: Str, b: Str)
    requires AllSpace(a) && AllSpace(b)
    requires m == [] || (!IsSpace(m[0]) && !IsSpace(m[|m| - 1]))
    ensures Trim(a + m + b) == m
  {
    var s := a + m + b;
    if m == [] {
      assert AllSpace(s) by {
        forall k | 0 <= k < |s| ensures IsSpace(s[k]) {
          if k < |a| { assert s[k] == a[k]; } else { assert s[k] == b[k - |a|]; }
        }
      }
    } else {
      var i := LeadingSpaces(s);
      var n := TrailingSpaces(s);
      assert s[|a|] == m[0];
      assert s[|a| + |m| - 1] == m[|m| - 1];
      assert forall k :: 0 <= k < |a| ==> s[k] == a[k];
      assert forall k :: 0 <= k < |b| ==> s[|a| + |m| + k] == b[k];
      assert i == |a|;
      assert n == |b|;
      assert s[|a|..|a| + |m|] == m;
    }
  }

  /** `s.startsWith(p)`. */
  predicate StartsWith(s: Str, p: Str)
  {
    |p| <= |s| && s[..|p|] == p
  }
}
