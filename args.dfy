/** parse_argument of src/utils.c: the `key=value` lookup over the space-separated words
    of a command's argument string. */
module Args {
  import opened Wrappers
  import opened CStrings

  /** The size of the key_pattern buffer that snprintf fills with `key=`. */
  const PatternSize := 64

  /** The pattern tested at the start of every token: `key=`, cut to 63 characters, so a
      key of 63 characters or more loses its `=`. */
  function Pattern(key: string): (p: string)
    ensures |p| < PatternSize && '\0' !in p
    ensures |CString(key)| < PatternSize - 1 ==> p == CString(key) + "="
  {
    Trunc(CString(key) + "=", PatternSize - 1)
  }

  // ---------------------------------------------------------------------------
  // strtok(…, " ") as a value
  // ---------------------------------------------------------------------------

  /** Where the word starting at `i` ends: the next space, or the end of the text. */
  function WordEnd(s: string, i: nat): (e: nat)
    requires i <= |s|
    ensures i <= e <= |s|
    ensures forall k :: i <= k < e ==> s[k] != ' '
    ensures e == |s| || s[e] == ' '
    decreases |s| - i
  {
    if i == |s| || s[i] == ' ' then i else WordEnd(s, i + 1)
  }

  /** The tokens strtok returns from index `i` on: the maximal runs of non-spaces. */
  function TokensFrom(s: string, i: nat): seq<string>
    requires i <= |s|
    decreases |s| - i
  {
    if i == |s| then []
    else if s[i] == ' ' then TokensFrom(s, i + 1)
    else [s[i..WordEnd(s, i)]] + TokensFrom(s, WordEnd(s, i))
  }

  function Tokens(s: string): seq<string>
  {
    TokensFrom(s, 0)
  }

  /** The text after `p` in the first token that begins with `p`. */
  function Lookup(tokens: seq<string>, p: string): Option<string>
  {
    if tokens == [] then None
    else if StartsWith(tokens[0], p) then Some(tokens[0][|p|..])
    else Lookup(tokens[1..], p)
  }

  /** parse_argument as a value: NULL for a NULL argument or key, otherwise the lookup of
      `key=` among the tokens of the argument string. */
  function Argument(args: Option<string>, key: Option<string>): Option<string>
  {
    if args.None? || key.None? then None
    else Lookup(Tokens(CString(args.value)), Pattern(key.value))
  }

  // ---------------------------------------------------------------------------
  // The strtok loop
  // ---------------------------------------------------------------------------

  /** The end of a word is the first space at or after its start. */
  lemma {:induction false} WordEndIs(s: string, i: nat, e: nat)
    requires i <= e <= |s|
    requires forall k :: i <= k < e ==> s[k] != ' '
    requires e == |s| || s[e] == ' '
    ensures WordEnd(s, i) == e
    decreases e - i
  {
    if i < e {
      WordEndIs(s, i + 1, e);
    }
  }

  /** strtok's skipping of the separators before a token. */
  method SkipSpaces(copy: array<char>, pos: nat, ghost s: string) returns (i: nat)
    requires copy.Length == |s| + 1 && pos <= |s| && '\0' !in s
    requires copy[pos..|s|] == s[pos..] && copy[|s|] == '\0'
    ensures pos <= i <= |s| && (i < |s| ==> s[i] != ' ')
    ensures TokensFrom(s, i) == TokensFrom(s, pos)
    ensures copy[i] == '\0' <==> i == |s|
    ensures copy[i..|s|] == s[i..]
  {
    assert forall k :: pos <= k < |s| ==> copy[k] == s[k] by {
      forall k | pos <= k < |s| ensures copy[k] == s[k] {
        assert copy[pos..|s|][k - pos] == s[pos..][k - pos];
      }
    }
    i := pos;
    while copy[i] == ' '
      invariant pos <= i <= |s|
      invariant TokensFrom(s, i) == TokensFrom(s, pos)
      decreases |s| - i
    {
      i := i + 1;
    }
    assert copy[i..|s|] == copy[pos..|s|][i - pos..];
  }

  /** strtok's scan to the end of the token that starts at `i`. */
  method WordSpan(copy: array<char>, i: nat, ghost s: string) returns (e: nat)
    requires copy.Length == |s| + 1 && i < |s| && '\0' !in s && s[i] != ' '
    requires copy[i..|s|] == s[i..] && copy[|s|] == '\0'
    ensures e == WordEnd(s, i) && i < e
    ensures copy[i..e] == s[i..e] && copy[e..|s|] == s[e..]
  {
    assert forall k :: i <= k < |s| ==> copy[k] == s[k] by {
      forall k | i <= k < |s| ensures copy[k] == s[k] {
        assert copy[i..|s|][k - i] == s[i..][k - i];
      }
    }
    e := i;
    while copy[e] != ' ' && copy[e] != '\0'
      invariant i <= e <= |s|
      invariant forall k :: i <= k < e ==> s[k] != ' '
      decreases |s| - e
    {
      e := e + 1;
    }
    WordEndIs(s, i, e);
    assert copy[i..e] == copy[i..|s|][..e - i];
    assert copy[e..|s|] == copy[i..|s|][e - i..];
  }

  /** One call of strtok on the copy, from the position it saved: skip the spaces, take
      the token up to the next space or the end, and overwrite that space with a NUL. */
  method NextToken(copy: array<char>, pos: nat, ghost s: string)
    returns (found: bool, start: nat, end: nat, next: nat)
    requires copy.Length == |s| + 1 && pos <= |s| && '\0' !in s
    requires copy[pos..|s|] == s[pos..] && copy[|s|] == '\0'
    modifies copy
    ensures found <==> TokensFrom(s, pos) != []
    ensures found ==> pos <= start < end <= next <= |s|
    ensures found ==> TokensFrom(s, pos) == [s[start..end]] + TokensFrom(s, next)
    ensures found ==> copy[start..end] == s[start..end]
    ensures !found ==> next == |s|
    ensures pos <= next <= |s| && copy[next..|s|] == s[next..] && copy[|s|] == '\0'
  {
    var i := SkipSpaces(copy, pos, s);
    if copy[i] == '\0' {
      return false, i, i, i;
    }
    var e := WordSpan(copy, i, s);
    start, end := i, e;
    if copy[e] == ' ' {
      copy[e] := '\0';
      next := e + 1;
    } else {
      next := e;
    }
    found := true;
  }

  /** parse_argument: strdup the string, strtok it on spaces, and return a copy of what
      follows `key=` in the first token that begins with it. The argument buffer is only
      read; the tokenizer writes its NULs into the copy. */
  method ParseArgument(args: Option<array<char>>, key: Option<string>) returns (r: Option<string>)
    ensures r == Argument(if args.None? then None else Some(args.value[..]), key)
  {
    if args.None? || key.None? {
      return None;
    }
    var s := CString(args.value[..]);
    var copy := new char[|s| + 1];
    for k := 0 to |s|
      invariant copy[..k] == s[..k]
    {
      copy[k] := args.value[k];
    }
    copy[|s|] := '\0';
    var p := Pattern(key.value);
    r := None;
    var found, start, end, next := NextToken(copy, 0, s);
    while found
      invariant copy.Length == |s| + 1 && next <= |s|
      invariant copy[next..|s|] == s[next..] && copy[|s|] == '\0'
      invariant found ==> start < end <= next && copy[start..end] == s[start..end]
      invariant Lookup(Tokens(s), p)
             == if found then Lookup([s[start..end]] + TokensFrom(s, next), p) else None
      invariant r.None?
      decreases if found then |s| + 1 - start else 0
    {
      if StartsWith(copy[start..end], p) {
        r := Some(copy[start + |p|..end]);
        break;
      }
      found, start, end, next := NextToken(copy, next, s);
    }
  }

  // ---------------------------------------------------------------------------
  // Properties
  // ---------------------------------------------------------------------------

  /** Index `i` holds the first token that begins with `p`. */
  predicate FirstMatch(tokens: seq<string>, p: string, i: int)
  {
    0 <= i < |tokens| && StartsWith(tokens[i], p)
    && forall j :: 0 <= j < i ==> !StartsWith(tokens[j], p)
  }

  /** The lookup finds the suffix of the first matching token, and nothing when no token
      begins with the pattern. */
  lemma {:induction false} LookupFirst(tokens: seq<string>, p: string)
    ensures Lookup(tokens, p).None? <==> forall i :: 0 <= i < |tokens| ==> !StartsWith(tokens[i], p)
    ensures forall i :: FirstMatch(tokens, p, i) ==> Lookup(tokens, p) == Some(tokens[i][|p|..])
  {
    if tokens != [] {
      LookupFirst(tokens[1..], p);
      if !StartsWith(tokens[0], p) {
        forall i | FirstMatch(tokens, p, i)
          ensures Lookup(tokens, p) == Some(tokens[i][|p|..])
        {
          assert i > 0;
          assert FirstMatch(tokens[1..], p, i - 1);
        }
        assert (forall i :: 0 <= i < |tokens| ==> !StartsWith(tokens[i], p))
           <==> (forall i :: 0 <= i < |tokens[1..]| ==> !StartsWith(tokens[1..][i], p)) by {
          if forall i :: 0 <= i < |tokens[1..]| ==> !StartsWith(tokens[1..][i], p) {
            forall i | 0 <= i < |tokens| ensures !StartsWith(tokens[i], p) {
              if i > 0 {
                assert tokens[i] == tokens[1..][i - 1];
              }
            }
          }
        }
      }
    }
  }

  /** Once a match is found, the tokens after it do not matter. */
  lemma {:induction false} LookupAppend(t1: seq<string>, t2: seq<string>, p: string)
    ensures Lookup(t1 + t2, p) == if Lookup(t1, p).Some? then Lookup(t1, p) else Lookup(t2, p)
  {
    if t1 == [] {
      assert t1 + t2 == t2;
    } else {
      assert (t1 + t2)[0] == t1[0];
      assert (t1 + t2)[1..] == t1[1..] + t2;
      LookupAppend(t1[1..], t2, p);
    }
  }

  /** Every token is a non-empty run of characters of the text, none of them a space. */
  lemma {:induction false} TokensAreWords(s: string, i: nat)
    requires i <= |s|
    ensures forall t :: t in TokensFrom(s, i) ==> t != [] && ' ' !in t && forall c :: c in t ==> c in s
    decreases |s| - i
  {
    if i < |s| {
      if s[i] == ' ' {
        TokensAreWords(s, i + 1);
      } else {
        var e := WordEnd(s, i);
        TokensAreWords(s, e);
        var w := s[i..e];
        assert forall c :: c in w ==> c in s by {
          forall c | c in w ensures c in s {
            var k :| 0 <= k < |w| && w[k] == c;
            assert s[i + k] == c;
          }
        }
      }
    }
  }

  /** A found value is one word: it holds no space and no NUL. */
  lemma ArgumentIsWord(args: Option<string>, key: Option<string>)
    requires Argument(args, key).Some?
    ensures ' ' !in Argument(args, key).value && '\0' !in Argument(args, key).value
  {
    var s := CString(args.value);
    var tokens := Tokens(s);
    var p := Pattern(key.value);
    LookupFirst(tokens, p);
    TokensAreWords(s, 0);
    var i :| 0 <= i < |tokens| && StartsWith(tokens[i], p);
    while i > 0 && !FirstMatch(tokens, p, i)
      invariant 0 <= i < |tokens| && StartsWith(tokens[i], p)
      decreases i
    {
      var j :| 0 <= j < i && StartsWith(tokens[j], p);
      i := j;
    }
    assert FirstMatch(tokens, p, i);
    var t := tokens[i];
    assert t in tokens;
    assert forall c :: c in t[|p|..] ==> c in t;
  }

  /** The tokens after a position shift with the text they come from. */
  lemma {:induction false} TokensShift(a: string, b: string, j: nat)
    requires j <= |b|
    ensures TokensFrom(a + b, |a| + j) == TokensFrom(b, j)
    decreases |b| - j
  {
    var s := a + b;
    if j == |b| {
      assert |a| + j == |s|;
    } else {
      assert s[|a| + j] == b[j];
      if b[j] == ' ' {
        TokensShift(a, b, j + 1);
        assert TokensFrom(s, |a| + j) == TokensFrom(s, |a| + j + 1);
      } else {
        var e := WordEndShift(a, b, j);
        TokensShift(a, b, e);
        assert TokensFrom(s, |a| + j) == [s[|a| + j..|a| + e]] + TokensFrom(s, |a| + e);
        assert TokensFrom(b, j) == [b[j..e]] + TokensFrom(b, e);
      }
    }
  }

  /** The word at `j` in `b` is the word at `|a| + j` in `a + b`. */
  lemma WordEndShift(a: string, b: string, j: nat) returns (e: nat)
    requires j < |b| && b[j] != ' '
    ensures e == WordEnd(b, j) && j < e
    ensures WordEnd(a + b, |a| + j) == |a| + e
    ensures (a + b)[|a| + j..|a| + e] == b[j..e]
  {
    e := WordEnd(b, j);
    var s := a + b;
    forall k | |a| + j <= k < |a| + e ensures s[k] != ' ' {
      assert s[k] == b[k - |a|];
    }
    assert |a| + e == |s| || s[|a| + e] == ' ' by {
      if e < |b| {
        assert s[|a| + e] == b[e];
      }
    }
    WordEndIs(s, |a| + j, |a| + e);
    assert s[|a| + j..|a| + e] == b[j..e];
  }

  /** A space ends every word before it, so the tokens of `a + " " + b` from inside `a` are
      those of `a` followed by those of `b`. */
  lemma {:induction false} TokensSplit(a: string, b: string, i: nat)
    requires i <= |a|
    ensures TokensFrom(a + " " + b, i) == TokensFrom(a, i) + Tokens(b)
    decreases |a| - i
  {
    var s := a + " " + b;
    if i == |a| {
      assert s == (a + " ") + b;
      TokensShift(a + " ", b, 0);
    } else if a[i] == ' ' {
      TokensSplit(a, b, i + 1);
    } else {
      var e := WordEnd(a, i);
      WordEndIs(s, i, e);
      assert s[i..e] == a[i..e];
      TokensSplit(a, b, e);
    }
  }

  /** Later tokens are ignored: in `a + " " + b` a match in `a` wins, and `b` is searched
      only when `a` has none. */
  lemma FirstArgumentWins(a: string, b: string, key: string)
    requires '\0' !in a && '\0' !in b
    ensures Argument(Some(a + " " + b), Some(key))
         == if Argument(Some(a), Some(key)).Some? then Argument(Some(a), Some(key))
            else Argument(Some(b), Some(key))
  {
    assert '\0' !in a + " " + b;
    TokensSplit(a, b, 0);
    LookupAppend(Tokens(a), Tokens(b), Pattern(key));
  }

  /** A word with no space is the one token of its text. */
  lemma OneToken(w: string)
    requires w != [] && ' ' !in w
    ensures Tokens(w) == [w]
  {
    WordEndIs(w, 0, |w|);
    assert w[0] in w;
    assert w[0..|w|] == w;
    assert TokensFrom(w, |w|) == [];
  }

  /** `key=v` alone is found as `v` when the key is short enough for its `=` to survive. */
  lemma KeyValueFound(key: string, v: string)
    requires ' ' !in key + v && '\0' !in key + v && |key| < PatternSize - 1
    ensures Argument(Some(key + "=" + v), Some(key)) == Some(v)
  {
    var w := key + "=" + v;
    assert ' ' !in w && '\0' !in w;
    OneToken(w);
    assert w[..|key + "="|] == key + "=";
    assert w[|key + "="|..] == v;
  }

  /** The token `key=` exactly gives the empty value. */
  lemma ExactKeyGivesEmpty(key: string)
    requires ' ' !in key && '\0' !in key && |key| < PatternSize - 1
    ensures Argument(Some(key + "="), Some(key)) == Some("")
  {
    assert key + "=" == key + "=" + "";
    KeyValueFound(key, "");
  }

  /** Matching is at the start of a token only: a word that does not begin with `key=`
      gives nothing, even when `key=` occurs inside it. */
  lemma WordWithoutKey(w: string, key: string)
    requires w != [] && ' ' !in w && '\0' !in w && '\0' !in key && |key| < PatternSize - 1
    requires !StartsWith(w, key + "=")
    ensures Argument(Some(w), Some(key)).None?
  {
    OneToken(w);
    assert CString(w) == w && CString(key) == key;
    assert Pattern(key) == key + "=";
    assert [w][1..] == [];
    assert Lookup([w], key + "=") == Lookup([], key + "=");
    assert Argument(Some(w), Some(key)) == Lookup([w], key + "=");
  }

  /** `xcurve=P-256` is not a value for the key `curve`. */
  lemma NoMidWordMatch()
    ensures Argument(Some("xcurve=P-256"), Some("curve")).None?
  {
    var w := "xcurve=P-256";
    assert w[0] != ("curve" + "=")[0];
    WordWithoutKey(w, "curve");
  }
}
