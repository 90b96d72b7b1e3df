/**
 * The parts of Go's `strings` and `fmt` packages the core relies on.
 *
 * A Go string is a sequence of bytes; it is modelled as a `string` whose characters
 * each stand for one byte, so `len(s)` is `|s|` and `string(payload)` keeps every byte.
 * Case folding and white-space trimming are modelled on ASCII.
 */
module Strs {
  import opened Wrappers

  // ---------------------------------------------------------------------------
  // Case folding (strings.ToLower on ASCII)

  predicate IsUpper(c: char) { 'A' <= c <= 'Z' }

  function LowerChar(c: char): char
  {
    if IsUpper(c) then (c as int + 32) as char else c
  }

  function ToLower(s: string): (r: string)
    ensures |r| == |s|
    ensures forall i :: 0 <= i < |s| ==> r[i] == LowerChar(s[i])
  {
    seq(|s|, i requires 0 <= i < |s| => LowerChar(s[i]))
  }

  /** A string without upper-case letters is its own lower-case form. */
  lemma ToLowerOfLower(s: string)
    requires forall i :: 0 <= i < |s| ==> !IsUpper(s[i])
    ensures ToLower(s) == s
  {
  }

  /** Lower-casing distributes over concatenation. */
  lemma ToLowerConcat(a: string, b: string)
    ensures ToLower(a + b) == ToLower(a) + ToLower(b)
  {
  }

  // ---------------------------------------------------------------------------
  // Substrings (strings.Contains, strings.Index, strings.HasPrefix, strings.Replace n=1)

  predicate OccursAt(s: string, sub: string, i: int)
  {
    0 <= i && i + |sub| <= |s| && s[i..i + |sub|] == sub
  }

  predicate Contains(s: string, sub: string)
  {
    exists i | 0 <= i <= |s| - |sub| :: OccursAt(s, sub, i)
  }

  predicate HasPrefix(s: string, p: string)
  {
    |p| <= |s| && s[..|p|] == p
  }

  /** The first occurrence of `sub` in `s` at or after `k`. */
  function IndexFrom(s: string, sub: string, k: nat): (r: Option<nat>)
    ensures r.Some? ==> k <= r.value && OccursAt(s, sub, r.value)
    ensures r.Some? ==> forall j :: k <= j < r.value ==> !OccursAt(s, sub, j)
    ensures r.None? ==> forall j :: k <= j ==> !OccursAt(s, sub, j)
    decreases |s| - k
  {
    if k + |sub| > |s| then None
    else if OccursAt(s, sub, k) then Some(k)
    else IndexFrom(s, sub, k + 1)
  }

  /** strings.Index: the first occurrence, if any. */
  function IndexOf(s: string, sub: string): (r: Option<nat>)
    ensures r.Some? <==> Contains(s, sub)
    ensures r.Some? ==> OccursAt(s, sub, r.value) && forall j :: 0 <= j < r.value ==> !OccursAt(s, sub, j)
  {
    IndexFrom(s, sub, 0)
  }

  /** strings.Replace(s, pat, rep, 1): the first occurrence of `pat` becomes `rep`. */
  function ReplaceFirst(s: string, pat: string, rep: string): (r: string)
    ensures !Contains(s, pat) ==> r == s
    ensures Contains(s, pat) ==> |r| == |s| - |pat| + |rep|
    ensures Contains(s, pat) ==>
      exists i :: OccursAt(s, pat, i) && (forall j :: 0 <= j < i ==> !OccursAt(s, pat, j))
        && r == s[..i] + rep + s[i + |pat|..]
  {
    match IndexOf(s, pat)
    case None => s
    case Some(i) => s[..i] + rep + s[i + |pat|..]
  }

  /** A string contains every substring of its parts. */
  lemma ContainsInMiddle(a: string, b: string, c: string, sub: string)
    requires Contains(b, sub)
    ensures Contains(a + b + c, sub)
  {
    var i :| 0 <= i <= |b| - |sub| && OccursAt(b, sub, i);
    assert (a + b + c)[|a| + i..|a| + i + |sub|] == b[i..i + |sub|];
    assert OccursAt(a + b + c, sub, |a| + i);
  }

  /** After replacing an occurrence of `pat`, the result contains `rep`. */
  lemma ReplaceFirstContainsNew(s: string, pat: string, rep: string)
    requires Contains(s, pat)
    ensures Contains(ReplaceFirst(s, pat, rep), rep)
  {
    var i := IndexOf(s, pat).value;
    assert ReplaceFirst(s, pat, rep) == s[..i] + rep + s[i + |pat|..];
    assert Contains(rep, rep) by { assert OccursAt(rep, rep, 0); }
    ContainsInMiddle(s[..i], rep, s[i + |pat|..], rep);
  }

  /** After replacing an occurrence of `pat`, the result contains every substring of `rep`. */
  lemma ReplaceFirstContainsPart(s: string, pat: string, rep: string, sub: string)
    requires Contains(s, pat) && Contains(rep, sub)
    ensures Contains(ReplaceFirst(s, pat, rep), sub)
  {
    var i := IndexOf(s, pat).value;
    ContainsInMiddle(s[..i], rep, s[i + |pat|..], sub);
  }

  /** A string lacking one of the characters of `sub` does not contain `sub`. */
  lemma MissingChar(s: string, sub: string, j: nat)
    requires j < |sub| && forall k :: 0 <= k < |s| ==> s[k] != sub[j]
    ensures !Contains(s, sub)
  {
    forall i | 0 <= i <= |s| - |sub| ensures !OccursAt(s, sub, i) {
      assert s[i..i + |sub|][j] == s[i + j];
    }
  }

  /** An occurrence in `a + [c] + b` that covers position `|a|` contains `c`. */
  lemma SeparatorInside(a: string, c: char, b: string, sub: string, i: int)
    requires OccursAt(a + [c] + b, sub, i) && i <= |a| < i + |sub|
    ensures sub[|a| - i] == c
  {
    assert (a + [c] + b)[i..i + |sub|][|a| - i] == (a + [c] + b)[|a|];
  }

  /** An occurrence of `sub` in `a + [c] + b` lies in `a` or in `b` when `c` is not in `sub`. */
  lemma ContainsAcross(a: string, c: char, b: string, sub: string)
    requires Contains(a + [c] + b, sub)
    requires forall k :: 0 <= k < |sub| ==> sub[k] != c
    ensures Contains(a, sub) || Contains(b, sub)
  {
    var s := a + [c] + b;
    var i :| 0 <= i <= |s| - |sub| && OccursAt(s, sub, i);
    if i + |sub| <= |a| {
      assert a[i..i + |sub|] == s[i..i + |sub|];
      assert OccursAt(a, sub, i);
    } else if i <= |a| {
      SeparatorInside(a, c, b, sub, i);
      assert false;
    } else {
      assert b[i - |a| - 1..i - |a| - 1 + |sub|] == s[i..i + |sub|];
      assert OccursAt(b, sub, i - |a| - 1);
    }
  }

  /** The contrapositive of ContainsAcross: a separator outside `sub` joins no new occurrence. */
  lemma AbsentAcross(a: string, c: char, b: string, sub: string)
    requires !Contains(a, sub) && !Contains(b, sub)
    requires forall k :: 0 <= k < |sub| ==> sub[k] != c
    ensures !Contains(a + [c] + b, sub)
  {
    if Contains(a + [c] + b, sub) {
      ContainsAcross(a, c, b, sub);
      assert false;
    }
  }

  /** A prefix keeps all its substrings. */
  lemma ContainsPrefix(a: string, b: string, sub: string)
    requires Contains(a, sub)
    ensures Contains(a + b, sub)
  {
    ContainsInMiddle([], a, b, sub);
    assert [] + a + b == a + b;
  }

  /** A suffix keeps all its substrings. */
  lemma ContainsSuffix(a: string, b: string, sub: string)
    requires Contains(b, sub)
    ensures Contains(a + b, sub)
  {
    ContainsInMiddle(a, b, [], sub);
    assert a + b + [] == a + b;
  }

  /** An occurrence across the seam of `a + b` contains the first character of `b`. */
  lemma StraddleChar(a: string, b: string, sub: string, i: int)
    requires OccursAt(a + b, sub, i) && i < |a| < i + |sub|
    ensures sub[|a| - i] == b[0]
  {
    assert (a + b)[i..i + |sub|][|a| - i] == (a + b)[|a|];
  }

  /**
   * An occurrence in `a + b` either lies in `a` or in `b` when the first character of `b`
   * does not occur in `sub`: an occurrence straddling the seam would contain it.
   */
  lemma ContainsConcatSplit(a: string, b: string, sub: string)
    requires Contains(a + b, sub)
    requires |b| > 0 && forall k :: 0 <= k < |sub| ==> sub[k] != b[0]
    ensures Contains(a, sub) || Contains(b, sub)
  {
    var s := a + b;
    var i :| 0 <= i <= |s| - |sub| && OccursAt(s, sub, i);
    if i + |sub| <= |a| {
      assert a[i..i + |sub|] == s[i..i + |sub|];
      assert OccursAt(a, sub, i);
    } else {
      if i < |a| {
        StraddleChar(a, b, sub, i);
        assert false;
      }
      assert b[i - |a|..i - |a| + |sub|] == s[i..i + |sub|];
      assert OccursAt(b, sub, i - |a|);
    }
  }

  // ---------------------------------------------------------------------------
  // White space (strings.TrimSpace on ASCII)

  predicate IsSpace(c: char)
  {
    c == ' ' || c == '\t' || c == '\n' || c == '\r' || c == '\U{000B}' || c == '\U{000C}'
  }

  function TrimLeft(s: string): (r: string)
    ensures |r| <= |s| && r == s[|s| - |r|..]
    ensures r == [] || !IsSpace(r[0])
    ensures forall k :: 0 <= k < |s| - |r| ==> IsSpace(s[k])
  {
    if s != [] && IsSpace(s[0]) then TrimLeft(s[1..]) else s
  }

  function TrimRight(s: string): (r: string)
    ensures |r| <= |s| && r == s[..|r|]
    ensures r == [] || !IsSpace(r[|r| - 1])
    ensures forall k :: |r| <= k < |s| ==> IsSpace(s[k])
  {
    if s != [] && IsSpace(s[|s| - 1]) then TrimRight(s[..|s| - 1]) else s
  }

  /** strings.TrimSpace: `s` without its leading and trailing white space. */
  function TrimSpace(s: string): (r: string)
    ensures r == [] || (!IsSpace(r[0]) && !IsSpace(r[|r| - 1]))
  {
    TrimRight(TrimLeft(s))
  }

  /** `s[i..j]` is what is left of `s` when only white space is cut from its two ends. */
  ghost predicate CutOnlySpace(s: string, i: int, j: int)
  {
    && 0 <= i <= j <= |s|
    && (forall k :: 0 <= k < i ==> IsSpace(s[k]))
    && (forall k :: j <= k < |s| ==> IsSpace(s[k]))
  }

  /** The trimmed string is a slice of the input, and only white space was cut. */
  lemma TrimSpaceSlice(s: string)
    ensures exists i, j :: CutOnlySpace(s, i, j) && TrimSpace(s) == s[i..j]
  {
    var l := TrimLeft(s);
    var r := TrimRight(l);
    var i := |s| - |l|;
    var j := i + |r|;
    assert r == TrimSpace(s);
    assert l == s[i..];
    assert r == l[..|r|];
    SliceOfSuffix(s, i, |r|);
    assert forall k :: 0 <= k < i ==> IsSpace(s[k]);
    forall k | j <= k < |s| ensures IsSpace(s[k]) {
      assert s[k] == l[k - i];
    }
    assert CutOnlySpace(s, i, j);
  }

  lemma SliceOfSuffix(s: string, i: nat, n: nat)
    requires i + n <= |s|
    ensures s[i..][..n] == s[i..i + n]
  {
  }

  // ---------------------------------------------------------------------------
  // Splitting and joining on one separator character (strings.Split with a one-byte separator)

  function Join(parts: seq<string>, sep: char): string
  {
    if |parts| == 0 then []
    else if |parts| == 1 then parts[0]
    else parts[0] + [sep] + Join(parts[1..], sep)
  }

  /** strings.Split(s, sep): the pieces between separators; always at least one piece. */
  function Split(s: string, sep: char): (r: seq<string>)
    ensures |r| >= 1
    ensures forall k, m :: 0 <= k < |r| && 0 <= m < |r[k]| ==> r[k][m] != sep
    decreases |s|
  {
    match IndexOf(s, [sep])
    case None =>
      assert forall m :: 0 <= m < |s| ==> s[m] != sep by {
        forall m | 0 <= m < |s| ensures s[m] != sep { assert !OccursAt(s, [sep], m); }
      }
      [s]
    case Some(i) =>
      assert forall m :: 0 <= m < i ==> s[m] != sep by {
        forall m | 0 <= m < i ensures s[m] != sep { assert !OccursAt(s, [sep], m); }
      }
      [s[..i]] + Split(s[i + 1..], sep)
  }

  /** Joining the pieces back with the separator gives the original string. */
  lemma {:induction false} JoinSplit(s: string, sep: char)
    ensures Join(Split(s, sep), sep) == s
    decreases |s|
  {
    match IndexOf(s, [sep])
    case None =>
    case Some(i) =>
      JoinSplit(s[i + 1..], sep);
      assert s[i] == sep by { assert OccursAt(s, [sep], i); }
      assert s == s[..i] + [sep] + s[i + 1..];
  }

  // ---------------------------------------------------------------------------
  // Decimal formatting (fmt's %d) and its inverse

  function DigitChar(d: nat): char
    requires d < 10
  {
    ('0' as int + d) as char
  }

  predicate IsDigit(c: char) { '0' <= c <= '9' }

  function NatToString(n: nat): (r: string)
    ensures |r| >= 1
    ensures forall k :: 0 <= k < |r| ==> IsDigit(r[k])
    ensures |r| > 1 ==> r[0] != '0'
  {
    if n < 10 then [DigitChar(n)] else NatToString(n / 10) + [DigitChar(n % 10)]
  }

  /** fmt's %d for a signed integer. */
  function IntToString(n: int): (r: string)
    ensures |r| >= 1
    ensures n < 0 <==> r[0] == '-'
  {
    if n < 0 then "-" + NatToString(-n) else NatToString(n)
  }

  /** The value of a string of decimal digits. */
  function DecimalValue(s: string): nat
    requires forall k :: 0 <= k < |s| ==> IsDigit(s[k])
  {
    if s == [] then 0
    else
      assert IsDigit(s[|s| - 1]);
      10 * DecimalValue(s[..|s| - 1]) + (s[|s| - 1] as int - '0' as int)
  }

  /** %d formatting is undone by reading the digits back. */
  lemma {:induction false} DecimalRoundTrip(n: nat)
    ensures DecimalValue(NatToString(n)) == n
  {
    if n >= 10 {
      DecimalRoundTrip(n / 10);
      var s := NatToString(n);
      assert s[..|s| - 1] == NatToString(n / 10);
    }
  }

  /** Different numbers print differently. */
  lemma NatToStringInjective(m: nat, n: nat)
    requires NatToString(m) == NatToString(n)
    ensures m == n
  {
    DecimalRoundTrip(m);
    DecimalRoundTrip(n);
  }

  /** strings.Repeat for one character. */
  function Repeat(c: char, n: nat): (r: string)
    ensures |r| == n && forall k :: 0 <= k < n ==> r[k] == c
  {
    seq(n, _ => c)
  }
}
