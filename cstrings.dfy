/** The Option type used for C's "pointer or NULL" results. */
module Wrappers {
  datatype Option<+T> = None | Some(value: T)
}

/** The C library string operations the program relies on (strstr, strchr, "%d", atoi,
    the NUL-terminated view of a buffer), stated over Dafny strings. */
module CStrings {
  import opened Wrappers

  /** Does `p` occur in `s` starting at index `k`? */
  predicate OccursAt(s: string, p: string, k: nat)
  {
    k + |p| <= |s| && s[k..k + |p|] == p
  }

  predicate StartsWith(s: string, p: string)
  {
    |p| <= |s| && s[..|p|] == p
  }

  /** strstr: the index of the first occurrence of `p` in `s`. */
  function IndexOf(s: string, p: string): (r: Option<nat>)
    ensures r.Some? ==> OccursAt(s, p, r.value)
    ensures r.Some? ==> forall k: nat :: k < r.value ==> !OccursAt(s, p, k)
    ensures r.None? ==> forall k: nat :: !OccursAt(s, p, k)
    decreases |s|
  {
    if |s| < |p| then None
    else if s[..|p|] == p then Some(0)
    else
      var r := IndexOf(s[1..], p);
      OccursInTail(s, p);
      Shift(r, 1)
  }

  /** Without a match at its start, the occurrences in `s` are those in `s[1..]`, moved by one. */
  lemma OccursInTail(s: string, p: string)
    requires |p| <= |s| && s[..|p|] != p
    ensures forall k: nat :: OccursAt(s, p, k) <==> k > 0 && OccursAt(s[1..], p, k - 1)
  {
    forall k: nat ensures OccursAt(s, p, k) <==> k > 0 && OccursAt(s[1..], p, k - 1) {
      if k > 0 {
        assert k + |p| <= |s| ==> s[1..][k - 1..k - 1 + |p|] == s[k..k + |p|];
      }
    }
  }

  predicate Contains(s: string, p: string)
  {
    IndexOf(s, p).Some?
  }

  /** Moves an index found in a suffix back into the whole string. */
  function Shift(r: Option<nat>, n: nat): Option<nat>
  {
    match r
    case None => None
    case Some(k) => Some(k + n)
  }

  /** strchr: the index of the first `c` in `s`. */
  function FindChar(s: string, c: char): (r: Option<nat>)
    ensures r.Some? ==> r.value < |s| && s[r.value] == c && c !in s[..r.value]
    ensures r.None? <==> c !in s
  {
    if s == [] then None
    else if s[0] == c then Some(0)
    else
      var r := FindChar(s[1..], c);
      assert r.Some? ==> s[..r.value + 1] == [s[0]] + s[1..][..r.value];
      assert s == [s[0]] + s[1..];
      Shift(r, 1)
  }

  /** `s` up to (not including) the first `c`, or all of `s`. */
  function CutAt(s: string, c: char): (r: string)
    ensures c !in r
    ensures StartsWith(s, r)
    ensures |r| < |s| ==> s[|r|] == c
    ensures c !in s ==> r == s
  {
    match FindChar(s, c)
    case None => s
    case Some(i) => s[..i]
  }

  /** What the C string functions see of a buffer: the text before the first NUL. */
  function CString(s: string): string
  {
    CutAt(s, '\0')
  }

  /** A NUL at `n` ends the C string there, whatever follows. */
  lemma CStringStops(s: string, n: nat)
    requires n < |s| && s[n] == '\0'
    ensures CString(s) == CString(s[..n])
  {
    var r := CString(s);
    var q := CString(s[..n]);
    assert r == s[..|r|] && q == s[..|q|];
    assert forall i :: 0 <= i < |r| ==> s[i] != '\0';
    assert forall i :: 0 <= i < |q| ==> s[i] != '\0';
    assert |r| <= n;
    assert |q| <= |r|;
    assert |r| <= |q|;
  }

  /** The first `n` characters, or all of them: what snprintf keeps of its output. */
  function Trunc(s: string, n: nat): (r: string)
    ensures |r| <= n && StartsWith(s, r)
    ensures |s| <= n ==> r == s
  {
    if |s| <= n then s else s[..n]
  }

  // ---------------------------------------------------------------------------
  // Facts about strstr

  lemma PrefixFound(s: string, p: string)
    requires StartsWith(s, p)
    ensures IndexOf(s, p) == Some(0)
  {
    assert OccursAt(s, p, 0);
  }

  lemma OccursInConcat(a: string, b: string, p: string, k: nat)
    ensures OccursAt(a + b, p, |a| + k) <==> OccursAt(b, p, k)
  {
    if |a| + k + |p| <= |a + b| {
      assert (a + b)[|a| + k..|a| + k + |p|] == b[k..k + |p|];
    }
  }

  /** If no occurrence of `p` starts inside `a`, the first one in `a + b` is the first one in `b`. */
  lemma IndexOfAfter(a: string, b: string, p: string)
    requires forall k: nat :: k < |a| ==> !OccursAt(a + b, p, k)
    ensures IndexOf(a + b, p) == Shift(IndexOf(b, p), |a|)
  {
    var q := IndexOf(b, p);
    if q.Some? {
      FoundAfter(a, b, p, q.value);
    } else {
      NoneAfter(a, b, p);
    }
  }

  lemma FoundAfter(a: string, b: string, p: string, q: nat)
    requires forall k: nat :: k < |a| ==> !OccursAt(a + b, p, k)
    requires IndexOf(b, p) == Some(q)
    ensures IndexOf(a + b, p) == Some(|a| + q)
  {
    assert OccursAt(b, p, q);
    NoneBefore(a, b, p, q);
    OccursInConcat(a, b, p, q);
    FirstOccurrence(a + b, p, |a| + q);
  }

  lemma NoneBefore(a: string, b: string, p: string, q: nat)
    requires forall k: nat :: k < |a| ==> !OccursAt(a + b, p, k)
    requires forall k: nat :: k < q ==> !OccursAt(b, p, k)
    ensures forall j: nat :: j < |a| + q ==> !OccursAt(a + b, p, j)
  {
    forall j: nat | j < |a| + q ensures !OccursAt(a + b, p, j) {
      if j >= |a| {
        OccursInConcat(a, b, p, j - |a|);
      }
    }
  }

  lemma NoneAfter(a: string, b: string, p: string)
    requires forall k: nat :: k < |a| ==> !OccursAt(a + b, p, k)
    requires IndexOf(b, p).None?
    ensures IndexOf(a + b, p).None?
  {
    forall j: nat ensures !OccursAt(a + b, p, j) {
      if j >= |a| {
        OccursInConcat(a, b, p, j - |a|);
      }
    }
    NoOccurrence(a + b, p);
  }

  /** Without any occurrence, strstr finds nothing. */
  lemma NoOccurrence(s: string, p: string)
    requires forall j: nat :: !OccursAt(s, p, j)
    ensures IndexOf(s, p).None?
  {
  }

  /** An occurrence with none before it is the one strstr finds. */
  lemma FirstOccurrence(s: string, p: string, k: nat)
    requires OccursAt(s, p, k) && forall j: nat :: j < k ==> !OccursAt(s, p, j)
    ensures IndexOf(s, p) == Some(k)
  {
  }

  /** Searching in `[c] + b`: either `p` starts at `c`, or it occurs in `b`. */
  lemma ContainsCons(c: char, b: string, p: string)
    ensures Contains([c] + b, p) <==> OccursAt([c] + b, p, 0) || Contains(b, p)
  {
    var t := [c] + b;
    if Contains(b, p) {
      OccursInConcat([c], b, p, IndexOf(b, p).value);
    }
    if Contains(t, p) && IndexOf(t, p).value > 0 {
      OccursInConcat([c], b, p, IndexOf(t, p).value - 1);
    }
  }

  /** An occurrence of `p` must start at a character equal to `p[0]`. */
  lemma IndexOfSkip(a: string, b: string, p: string)
    requires |p| > 0 && p[0] !in a
    ensures IndexOf(a + b, p) == Shift(IndexOf(b, p), |a|)
  {
    forall k: nat | k < |a| ensures !OccursAt(a + b, p, k) {
      assert (a + b)[k] == a[k];
    }
    IndexOfAfter(a, b, p);
  }

  /** A string lacking one of the characters of `p` cannot contain `p`. */
  lemma MissingChar(s: string, p: string, i: nat)
    requires i < |p| && p[i] !in s
    ensures !Contains(s, p)
  {
  }

  /** The characters an occurrence covers are those of the pattern. */
  lemma OccurrenceCovers(s: string, p: string, k: nat, i: nat)
    ensures OccursAt(s, p, k) && k <= i < k + |p| ==> s[i] == p[i - k]
  {
    if OccursAt(s, p, k) && k <= i < k + |p| {
      assert s[k..k + |p|][i - k] == s[i];
    }
  }

  /** An occurrence that ends inside `a` is one of `a` itself. */
  lemma OccursInPrefix(a: string, b: string, p: string, k: nat)
    ensures k + |p| <= |a| ==> (OccursAt(a + b, p, k) <==> OccursAt(a, p, k))
  {
    if k + |p| <= |a| {
      assert (a + b)[k..k + |p|] == a[k..k + |p|];
    }
  }

  /** A character that `p` does not contain splits the search in two. */
  lemma ContainsAcross(a: string, x: char, b: string, p: string)
    requires x !in p
    ensures Contains(a + [x] + b, p) <==> Contains(a, p) || Contains(b, p)
  {
    var s := a + [x] + b;
    var t := [x] + b;
    assert s == a + t;
    if Contains(s, p) {
      var k := IndexOf(s, p).value;
      OccurrenceCovers(s, p, k, |a|);
      assert s[|a|] == x;
      if k + |p| <= |a| {
        OccursInPrefix(a, t, p, k);
      } else if k > |a| {
        OccursInConcat(a + [x], b, p, k - |a| - 1);
      }
    }
    if Contains(a, p) {
      OccursInPrefix(a, t, p, IndexOf(a, p).value);
    }
    if Contains(b, p) {
      OccursInConcat(a + [x], b, p, IndexOf(b, p).value);
    }
  }

  /** Every occurrence of `p` is also an occurrence of its prefix `q`. */
  lemma PrefixOfPattern(s: string, p: string, q: string)
    requires StartsWith(p, q)
    requires Contains(s, p)
    ensures Contains(s, q)
  {
    var k := IndexOf(s, p).value;
    assert OccursAt(s, p, k);
    assert s[k..k + |p|] == p && |q| <= |p|;
    assert s[k..k + |q|] == p[..|q|] == q;
    assert OccursAt(s, q, k);
  }

  /** An occurrence of `[c] + q` holds one of `q` just after it. */
  lemma DropFirst(s: string, c: char, q: string)
    requires Contains(s, [c] + q)
    ensures Contains(s, q)
  {
    var k := IndexOf(s, [c] + q).value;
    assert s[k + 1..k + 1 + |q|] == s[k..k + 1 + |q|][1..];
    assert OccursAt(s, q, k + 1);
  }

  // ---------------------------------------------------------------------------
  // Quoted words: the shape of the state file's keys

  function Quoted(w: string): string
  {
    "\"" + w + "\""
  }

  /** A quote-free word followed by a quote starts with another such word plus quote
      exactly when the two words are equal. */
  lemma WordBeforeQuote(v: string, rest: string, w: string)
    requires '"' !in v && '"' !in w
    ensures StartsWith(v + "\"" + rest, w + "\"") <==> v == w
  {
    var s := v + "\"" + rest;
    var p := w + "\"";
    if |p| <= |s| {
      if |v| < |w| {
        assert s[..|p|][|v|] == '"' != p[|v|];
      } else if |v| > |w| {
        assert s[..|p|][|w|] != '"' == p[|w|];
      } else {
        assert s[..|p|] == v + "\"";
        assert (v + "\"")[..|v|] == v && (w + "\"")[..|w|] == w;
      }
    }
  }

  lemma NoQuoteNoStart(s: string, w: string)
    requires '"' !in s
    ensures !StartsWith(s, w + "\"")
  {
    if |w| + 1 <= |s| {
      assert s[..|w| + 1][|w|] != (w + "\"")[|w|];
    }
  }

  lemma NoQuoteNoWord(s: string, w: string)
    requires '"' !in s
    ensures !Contains(s, Quoted(w))
  {
    MissingChar(s, Quoted(w), 0);
  }

  /** Searching for a quoted word at a quote: either the word starts right after it, or
      the search goes on past it. */
  lemma QuotedStep(a: string, b: string, w: string)
    requires '"' !in a
    ensures Contains(a + "\"" + b, Quoted(w)) <==> StartsWith(b, w + "\"") || Contains(b, Quoted(w))
  {
    var p := Quoted(w);
    var t := "\"" + b;
    assert a + "\"" + b == a + t;
    IndexOfSkip(a, t, p);
    ContainsCons('"', b, p);
    if |p| <= |t| {
      var u := b[..|w| + 1];
      assert t[..|p|] == "\"" + u;
      assert p == "\"" + (w + "\"");
      assert ("\"" + u)[1..] == u && ("\"" + (w + "\""))[1..] == w + "\"";
    }
  }

  // ---------------------------------------------------------------------------
  // "%d" and atoi

  predicate IsDigit(c: char)
  {
    '0' <= c <= '9'
  }

  function DigitChar(d: nat): (c: char)
    requires d < 10
    ensures IsDigit(c) && (c as int) - ('0' as int) == d
  {
    (('0' as int) + d) as char
  }

  /** The decimal digits of `n`, most significant first, without leading zeros. */
  function NatToString(n: nat): (r: string)
    ensures |r| >= 1
    ensures forall i :: 0 <= i < |r| ==> IsDigit(r[i])
    decreases n
  {
    if n < 10 then [DigitChar(n)] else NatToString(n / 10) + [DigitChar(n % 10)]
  }

  /** printf's "%d". */
  function Itoa(n: int): (r: string)
    ensures |r| >= 1
    ensures forall i :: 0 <= i < |r| ==> IsDigit(r[i]) || (i == 0 && r[i] == '-')
  {
    if n < 0 then "-" + NatToString(-n) else NatToString(n)
  }

  /** The value of a string of decimal digits. */
  function DigitValue(c: char): nat
    requires IsDigit(c)
  {
    (c as int) - ('0' as int)
  }

  function DigitsValue(s: string): nat
    requires forall i :: 0 <= i < |s| ==> IsDigit(s[i])
  {
    if s == [] then 0 else 10 * DigitsValue(s[..|s| - 1]) + DigitValue(s[|s| - 1])
  }

  /** The longest run of digits at the start of `s`. */
  function LeadingDigits(s: string): (r: string)
    ensures StartsWith(s, r)
    ensures forall i :: 0 <= i < |r| ==> IsDigit(r[i])
    ensures |r| < |s| ==> !IsDigit(s[|r|])
  {
    if s == [] || !IsDigit(s[0]) then [] else [s[0]] + LeadingDigits(s[1..])
  }

  predicate IsSpace(c: char)
  {
    c == ' ' || c == '\t' || c == '\n' || c == '\U{B}' || c == '\U{C}' || c == '\r'
  }

  function SkipSpace(s: string): (r: string)
    ensures |r| <= |s|
    ensures r == s[|s| - |r|..]
    ensures r != [] ==> !IsSpace(r[0])
  {
    if s != [] && IsSpace(s[0]) then SkipSpace(s[1..]) else s
  }

  /** atoi: leading white space, an optional sign, then as many digits as follow. */
  function Atoi(s: string): int
  {
    var t := SkipSpace(s);
    if t != [] && t[0] == '-' then 0 - DigitsValue(LeadingDigits(t[1..]))
    else if t != [] && t[0] == '+' then DigitsValue(LeadingDigits(t[1..]))
    else DigitsValue(LeadingDigits(t))
  }

  lemma {:induction false} DigitsOfNat(n: nat)
    ensures DigitsValue(NatToString(n)) == n
    decreases n
  {
    var s := NatToString(n);
    if n >= 10 {
      DigitsOfNat(n / 10);
      assert s[..|s| - 1] == NatToString(n / 10);
    }
  }

  lemma AllDigitsLead(s: string)
    requires forall i :: 0 <= i < |s| ==> IsDigit(s[i])
    ensures LeadingDigits(s) == s
  {
    var r := LeadingDigits(s);
    assert s[..|r|] == r;
  }

  lemma SkipNoSpace(s: string)
    requires s != [] && !IsSpace(s[0])
    ensures SkipSpace(s) == s
  {
  }

  lemma AtoiDigits(s: string)
    requires s != [] && forall i :: 0 <= i < |s| ==> IsDigit(s[i])
    ensures Atoi(s) == DigitsValue(s)
  {
    SkipNoSpace(s);
    AllDigitsLead(s);
  }

  lemma AtoiMinus(d: string)
    requires forall i :: 0 <= i < |d| ==> IsDigit(d[i])
    ensures Atoi("-" + d) == 0 - DigitsValue(d)
  {
    var s := "-" + d;
    SkipNoSpace(s);
    assert s[1..] == d;
    AllDigitsLead(d);
  }

  /** atoi reads back what "%d" prints. */
  lemma AtoiItoa(n: int)
    ensures Atoi(Itoa(n)) == n
  {
    if n < 0 {
      AtoiMinus(NatToString(-n));
      DigitsOfNat(-n);
    } else {
      AtoiDigits(NatToString(n));
      DigitsOfNat(n);
    }
  }

  /** Distinct numbers print differently. */
  lemma ItoaInjective(a: int, b: int)
    requires Itoa(a) == Itoa(b)
    ensures a == b
  {
    AtoiItoa(a);
    AtoiItoa(b);
  }

  lemma {:induction false} NatToStringLength(n: nat, k: nat)
    requires n < Pow10(k) && k >= 1
    ensures |NatToString(n)| <= k
    decreases k
  {
    if n >= 10 {
      NatToStringLength(n / 10, k - 1);
    }
  }

  function Pow10(k: nat): nat
  {
    if k == 0 then 1 else 10 * Pow10(k - 1)
  }

  /** A 32-bit int prints in at most 11 characters. */
  lemma ItoaLength32(n: int)
    requires -0x8000_0000 <= n < 0x8000_0000
    ensures |Itoa(n)| <= 11
  {
    assert Pow10(10) == 10000000000;
    if n < 0 {
      NatToStringLength(-n, 10);
    } else {
      NatToStringLength(n, 10);
    }
  }

  /** Characters that "%d" never prints. */
  lemma ItoaChars(n: int, c: char)
    requires !IsDigit(c) && c != '-'
    ensures c !in Itoa(n)
  {
  }
}
