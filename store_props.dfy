/** Properties of the association store: what a load finds in files written by saves. */
module StoreProps {
  import opened Wrappers
  import opened CStrings
  import opened Store

  /** One complete fgets line: it ends at its only newline and fits the 4096-byte buffer. */
  predicate IsLine(l: string)
  {
    0 < |l| <= LineLimit && l[|l| - 1] == '\n' && '\n' !in l[..|l| - 1]
  }

  predicate AllLines(ls: seq<string>)
  {
    forall i :: 0 <= i < |ls| ==> IsLine(ls[i])
  }

  /** A value the store writes out and reads back unchanged: no quote, newline or NUL, and
      short enough that its value line (16 characters around it for `"curve"`) is one fgets
      line. */
  predicate Storable(v: string)
  {
    '"' !in v && '\n' !in v && '\0' !in v && |v| <= LineLimit - 16
  }

  /** A storable value short enough that two or three records stay inside the 4095 bytes
      that the next save reads back with fread. */
  predicate Compact(v: string)
  {
    Storable(v) && |v| <= 1000
  }

  /** A compact value that also cannot be mistaken for a record key: a save's strstr for the
      other kind's `"bootstrap_` or `"configurator_` would otherwise match inside it. */
  predicate Plain(v: string)
  {
    Compact(v) && !Contains(v, KindPrefix(Bootstrap)) && !Contains(v, KindPrefix(Configurator))
  }

  // ---------------------------------------------------------------------------
  // Lines

  lemma {:induction false} TakeLineOf(l: string, rest: string, n: nat)
    requires 0 < |l| <= n && l[|l| - 1] == '\n' && '\n' !in l[..|l| - 1]
    ensures TakeLine(l + rest, n) == l
  {
    var s := l + rest;
    if |l| > 1 {
      assert l[0] == l[..|l| - 1][0];
      assert s[1..] == l[1..] + rest;
      assert l[1..][..|l[1..]| - 1] == l[..|l| - 1][1..];
      TakeLineOf(l[1..], rest, n - 1);
    }
  }

  lemma {:induction false} ConcatAppend(xs: seq<string>, ys: seq<string>)
    ensures Concat(xs + ys) == Concat(xs) + Concat(ys)
  {
    if xs == [] {
      assert xs + ys == ys;
    } else {
      assert (xs + ys)[1..] == xs[1..] + ys;
      ConcatAppend(xs[1..], ys);
    }
  }

  /** Reading back text made of complete lines yields exactly those lines. */
  lemma {:induction false} LinesOfConcat(ls: seq<string>)
    requires AllLines(ls)
    ensures Lines(Concat(ls)) == ls
  {
    if ls != [] {
      assert AllLines(ls[1..]);
      LinesOfConcat(ls[1..]);
      LinesOfConcatStep(ls[0], ls[1..], ls);
    }
  }

  lemma LinesOfConcatStep(l: string, rest: seq<string>, ls: seq<string>)
    requires ls == [l] + rest && IsLine(l) && Lines(Concat(rest)) == rest
    ensures Lines(Concat(ls)) == ls
  {
    var t := Concat(rest);
    assert Concat(ls) == l + t;
    TakeLineOf(l, t, LineLimit);
    assert (l + t)[|l|..] == t;
  }

  // ---------------------------------------------------------------------------
  // Quoted words on the lines a save writes

  lemma OneWord(a: string, u: string, c: string, w: string)
    requires '"' !in a && '"' !in u && '"' !in c && '"' !in w
    ensures Contains(a + Quoted(u) + c, Quoted(w)) <==> w == u
  {
    assert a + Quoted(u) + c == a + "\"" + (u + "\"" + c);
    QuotedStep(a, u + "\"" + c, w);
    WordBeforeQuote(u, c, w);
    QuotedStep(u, c, w);
    NoQuoteNoStart(c, w);
    NoQuoteNoWord(c, w);
  }

  lemma TwoWords(a: string, u1: string, b: string, u2: string, c: string, w: string)
    requires '"' !in a && '"' !in u1 && '"' !in b && '"' !in u2 && '"' !in c && '"' !in w
    ensures Contains(a + Quoted(u1) + (b + Quoted(u2) + c), Quoted(w)) <==> w == u1 || w == b || w == u2
  {
    var rest := b + Quoted(u2) + c;
    assert a + Quoted(u1) + rest == a + "\"" + (u1 + "\"" + rest);
    QuotedStep(a, u1 + "\"" + rest, w);
    WordBeforeQuote(u1, rest, w);
    QuotedStep(u1, rest, w);
    assert rest == b + "\"" + (u2 + "\"" + c);
    WordBeforeQuote(b, u2 + "\"" + c, w);
    OneWord(b, u2, c, w);
  }

  /** The quoted words of a line `a"u"b`. */
  lemma LineWords(a: string, u: string, b: string, w: string)
    requires '"' !in a && '"' !in u && '"' !in b && '"' !in w
    ensures Contains(Line(a + Quoted(u) + b), Quoted(w)) <==> w == u
  {
    assert Line(a + Quoted(u) + b) == a + Quoted(u) + (b + "\n");
    OneWord(a, u, b + "\n", w);
  }

  lemma KeyNameChars(k: Kind)
    ensures '"' !in KindPrefix(k) && '\0' !in KindPrefix(k) && '\n' !in KindPrefix(k)
  {
    match k
    case Bootstrap =>
    case Configurator =>
  }

  lemma KeyWordQuoteFree(k: Kind, id: int)
    ensures '"' !in KeyWord(k, id) && '\0' !in KeyWord(k, id) && '\n' !in KeyWord(k, id)
  {
    KeyNameChars(k);
    ItoaChars(id, '"');
    ItoaChars(id, '\0');
    ItoaChars(id, '\n');
  }

  /** Two record keys are the same text only for the same kind and id. */
  lemma KeyWordInjective(k1: Kind, a: int, k2: Kind, b: int)
    ensures KeyWord(k1, a) == KeyWord(k2, b) <==> k1 == k2 && a == b
  {
    var x := KeyWord(k1, a);
    var y := KeyWord(k2, b);
    if x == y {
      assert x[0] == y[0];
      assert k1 == k2;
      assert x[|KindPrefix(k1)|..] == Itoa(a);
      assert y[|KindPrefix(k2)|..] == Itoa(b);
      ItoaInjective(a, b);
    }
  }

  lemma KeyTextWords(k: Kind, id: int, w: string)
    requires '"' !in w
    ensures Contains(KeyText(k, id), Quoted(w)) <==> w == KeyWord(k, id)
  {
    KeyWordQuoteFree(k, id);
    assert KeyBody(k, id) == "" + Quoted(KeyWord(k, id)) + ": {";
    LineWords("", KeyWord(k, id), ": {", w);
  }

  lemma KeyLineWords(k: Kind, id: int, w: string)
    requires '"' !in w
    ensures Contains(KeyLine(k, id), Quoted(w)) <==> w == KeyWord(k, id)
  {
    KeyWordQuoteFree(k, id);
    assert "  " + KeyBody(k, id) == "  " + Quoted(KeyWord(k, id)) + ": {";
    LineWords("  ", KeyWord(k, id), ": {", w);
  }

  lemma IdLineWords(id: int, w: string)
    requires '"' !in w
    ensures Contains(IdLine(id), Quoted(w)) <==> w == "id"
  {
    ItoaChars(id, '"');
    var b := ": " + Itoa(id) + ",";
    assert "    " + Quoted("id") + ": " + Itoa(id) + "," == "    " + Quoted("id") + b;
    LineWords("    ", "id", b, w);
  }

  lemma ValueLineWords(k: Kind, v: string, w: string)
    requires '"' !in v && '"' !in w
    ensures Contains(ValueLine(k, v), Quoted(w)) <==> w == FieldName(k) || w == ": " || w == v
  {
    var a := "    " + Quoted(FieldName(k));
    assert Line(a + ": " + Quoted(v)) == "    " + Quoted(FieldName(k)) + (": " + Quoted(v) + "\n");
    TwoWords("    ", FieldName(k), ": ", v, "\n", w);
  }

  // ---------------------------------------------------------------------------
  // Extracting the value

  lemma FindFirst(a: string, c: char, rest: string)
    requires c !in a
    ensures FindChar(a + [c] + rest, c) == Some(|a|)
  {
    var s := a + [c] + rest;
    assert s[|a|] == c;
    var i := FindChar(s, c).value;
    assert s[..i + 1][|a|] == c || i < |a|;
  }

  lemma AfterQuote(a: string, rest: string)
    requires '"' !in a
    ensures AfterChar(a + "\"" + rest, '"') == Some(rest)
  {
    FindFirst(a, '"', rest);
    assert (a + "\"" + rest)[|a| + 1..] == rest;
  }

  lemma AfterQuotesStep(a: string, rest: string, n: nat)
    requires '"' !in a && n > 0
    ensures AfterQuotes(a + "\"" + rest, n) == AfterQuotes(rest, n - 1)
  {
    AfterQuote(a, rest);
  }

  /** A load takes the text between the third and the fourth double quote of a line,
      cut at its first newline. */
  lemma ExtractBetweenQuotes(a: string, u1: string, b: string, u2: string, c: string)
    requires '"' !in a && '"' !in u1 && '"' !in b && '"' !in u2
    ensures ExtractValue(a + "\"" + u1 + "\"" + b + "\"" + u2 + "\"" + c) == Some(CutAt(u2, '\n'))
  {
    var r3 := u2 + "\"" + c;
    var r2 := b + "\"" + r3;
    var r1 := u1 + "\"" + r2;
    Reassociate(a, u1, b, u2, c);
    AfterQuotesStep(a, r1, 3);
    AfterQuotesStep(u1, r2, 2);
    AfterQuotesStep(b, r3, 1);
    FindFirst(u2, '"', c);
    assert r3[..|u2|] == u2;
  }

  lemma Reassociate(a: string, u1: string, b: string, u2: string, c: string)
    ensures a + "\"" + u1 + "\"" + b + "\"" + u2 + "\"" + c
         == a + "\"" + (u1 + "\"" + (b + "\"" + (u2 + "\"" + c)))
  {
  }

  lemma ExtractFromValueLine(k: Kind, v: string)
    requires '"' !in v && '\n' !in v
    ensures ExtractValue(ValueLine(k, v)) == Some(v)
  {
    var a := "    " + Quoted(FieldName(k));
    assert Line(a + ": " + Quoted(v)) == "    " + "\"" + FieldName(k) + "\"" + ": " + "\"" + v + "\"" + "\n";
    ExtractBetweenQuotes("    ", FieldName(k), ": ", v, "\n");
  }

  // ---------------------------------------------------------------------------
  // The lines a save writes are complete lines without NUL

  /** A body without newline or NUL, short enough for one fgets call, makes one line. */
  lemma LineOf(body: string)
    requires '\n' !in body && '\0' !in body && |body| < LineLimit
    ensures IsLine(Line(body)) && CString(Line(body)) == Line(body)
  {
    assert Line(body)[..|body|] == body;
    assert '\0' !in Line(body);
  }

  lemma KeyBodyChars(k: Kind, id: int)
    requires Int32(id)
    ensures '\n' !in KeyBody(k, id) && '\0' !in KeyBody(k, id) && |KeyBody(k, id)| < 30
  {
    KeyWordQuoteFree(k, id);
    ItoaLength32(id);
  }

  lemma KeyTextIsLine(k: Kind, id: int)
    requires Int32(id)
    ensures IsLine(KeyText(k, id)) && CString(KeyText(k, id)) == KeyText(k, id)
  {
    KeyBodyChars(k, id);
    LineOf(KeyBody(k, id));
  }

  lemma KeyLineIsLine(k: Kind, id: int)
    requires Int32(id)
    ensures IsLine(KeyLine(k, id)) && CString(KeyLine(k, id)) == KeyLine(k, id)
  {
    KeyBodyChars(k, id);
    LineOf("  " + KeyBody(k, id));
  }

  lemma IdBodyChars(id: int)
    requires Int32(id)
    ensures var body := "    " + Quoted("id") + ": " + Itoa(id) + ",";
      '\n' !in body && '\0' !in body && |body| < 30
  {
    ItoaLength32(id);
    ItoaChars(id, '\n');
    ItoaChars(id, '\0');
  }

  lemma IdLineIsLine(id: int)
    requires Int32(id)
    ensures IsLine(IdLine(id)) && CString(IdLine(id)) == IdLine(id)
  {
    IdBodyChars(id);
    LineOf("    " + Quoted("id") + ": " + Itoa(id) + ",");
  }

  lemma ValueLineIsLine(k: Kind, v: string)
    requires Storable(v)
    ensures IsLine(ValueLine(k, v)) && CString(ValueLine(k, v)) == ValueLine(k, v)
  {
    LineOf("    " + Quoted(FieldName(k)) + ": " + Quoted(v));
  }

  lemma FixedLinesAreLines()
    ensures IsLine(CloseLine) && IsLine("{\n") && IsLine("}\n") && IsLine("  },\n")
    ensures CString(CloseLine) == CloseLine && CString("{\n") == "{\n"
    ensures CString("}\n") == "}\n" && CString("  },\n") == "  },\n"
  {
    LineOf("  }");
    LineOf("{");
    LineOf("}");
    LineOf("  },");
  }

  lemma BlockLinesAreLines(k: Kind, id: int, v: string)
    requires Storable(v) && Int32(id)
    ensures IsLine(KeyText(k, id)) && IsLine(KeyLine(k, id)) && IsLine(IdLine(id))
    ensures IsLine(ValueLine(k, v)) && IsLine(CloseLine)
    ensures IsLine("{\n") && IsLine("}\n") && IsLine("  },\n")
    ensures CString(KeyText(k, id)) == KeyText(k, id) && CString(KeyLine(k, id)) == KeyLine(k, id)
    ensures CString(IdLine(id)) == IdLine(id) && CString(ValueLine(k, v)) == ValueLine(k, v)
    ensures CString(CloseLine) == CloseLine && CString("{\n") == "{\n"
    ensures CString("}\n") == "}\n" && CString("  },\n") == "  },\n"
  {
    KeyTextIsLine(k, id);
    KeyLineIsLine(k, id);
    IdLineIsLine(id);
    ValueLineIsLine(k, v);
    FixedLinesAreLines();
  }

  /** A line without quotes holds no quoted word. */
  lemma PlainLineWords(l: string, w: string)
    requires '"' !in l && '\0' !in l
    ensures !Contains(CString(l), Quoted(w))
  {
    NoQuoteNoWord(l, w);
  }

  // ---------------------------------------------------------------------------
  // The two scanning loops of a load

  /** A line from which the inner loop of a load takes a value. */
  predicate Yields(l: string, field: string)
  {
    FieldValue(l, field).Some?
  }

  /** No line of `ls` holds the marker. */
  predicate MarkerFree(ls: seq<string>, marker: string)
  {
    ls == [] || (!Contains(CString(ls[0]), marker) && MarkerFree(ls[1..], marker))
  }

  /** No line of `ls` gives the inner loop a value. */
  predicate YieldFree(ls: seq<string>, field: string)
  {
    ls == [] || (!Yields(ls[0], field) && YieldFree(ls[1..], field))
  }

  /** Only the first line holding the marker counts: the field is read from the lines
      after it, whatever later lines hold. */
  lemma {:induction false} FirstMarkerAt(ls: seq<string>, j: nat, marker: string, field: string)
    requires j < |ls| && Contains(CString(ls[j]), marker)
    requires MarkerFree(ls[..j], marker)
    ensures ScanMarker(ls, marker, field) == ScanField(ls[j + 1..], field)
  {
    if j > 0 {
      assert ls[..j][0] == ls[0];
      assert ls[..j][1..] == ls[1..][..j - 1];
      FirstMarkerAt(ls[1..], j - 1, marker, field);
      assert ls[1..][j..] == ls[j + 1..];
    }
  }

  /** The inner loop returns the value of the first line that yields one. */
  lemma {:induction false} FirstYieldAt(ls: seq<string>, j: nat, field: string)
    requires j < |ls| && Yields(ls[j], field)
    requires YieldFree(ls[..j], field)
    ensures ScanField(ls, field) == FieldValue(ls[j], field)
  {
    if j > 0 {
      assert ls[..j][0] == ls[0];
      assert ls[..j][1..] == ls[1..][..j - 1];
      FirstYieldAt(ls[1..], j - 1, field);
    }
  }

  /** A line without the field marker gives the inner loop nothing. */
  lemma NoFieldNoYield(l: string, field: string, rest: seq<string>)
    requires !Contains(CString(l), field) && YieldFree(rest, field)
    ensures YieldFree([l] + rest, field)
  {
    assert ([l] + rest)[1..] == rest;
  }

  lemma {:induction false} NothingYields(ls: seq<string>, field: string)
    requires YieldFree(ls, field)
    ensures ScanField(ls, field) == None
  {
    if ls != [] {
      NothingYields(ls[1..], field);
    }
  }

  lemma {:induction false} NoMarker(ls: seq<string>, marker: string, field: string)
    requires MarkerFree(ls, marker)
    ensures ScanMarker(ls, marker, field) == None
  {
    if ls != [] {
      NoMarker(ls[1..], marker, field);
    }
  }

  /** The field marker of a load never matches a key line or an id line. */
  lemma FieldNotOnKeyLines(k: Kind, id: int, k2: Kind)
    ensures !Contains(KeyLine(k, id), Quoted(FieldName(k2)))
    ensures !Contains(KeyText(k, id), Quoted(FieldName(k2)))
    ensures !Contains(IdLine(id), Quoted(FieldName(k2)))
  {
    KeyLineWords(k, id, FieldName(k2));
    KeyTextWords(k, id, FieldName(k2));
    IdLineWords(id, FieldName(k2));
  }

  /** A record marker is found on a value line only when the value is that very key. */
  lemma MarkerOnValueLine(k: Kind, v: string, k2: Kind, b: int)
    requires '"' !in v
    ensures Contains(ValueLine(k, v), Marker(k2, b)) <==> v == KeyWord(k2, b)
    ensures !Contains(IdLine(b), Marker(k2, b))
  {
    KeyWordQuoteFree(k2, b);
    ValueLineWords(k, v, KeyWord(k2, b));
    IdLineWords(b, KeyWord(k2, b));
  }

  lemma FieldOnValueLine(k: Kind, v: string, k2: Kind)
    requires Storable(v)
    ensures k == k2 ==> FieldValue(ValueLine(k, v), Quoted(FieldName(k2))) == Some(v)
    ensures Yields(ValueLine(k, v), Quoted(FieldName(k2))) ==> FieldValue(ValueLine(k, v), Quoted(FieldName(k2))) == Some(v)
  {
    var l := ValueLine(k, v);
    ValueLineWords(k, v, FieldName(k2));
    ExtractFromValueLine(k, v);
    ValueLineIsLine(k, v);
    ValueOfLine(l, Quoted(FieldName(k2)), v);
  }

  lemma ValueOfLine(l: string, f: string, v: string)
    requires CString(l) == l && ExtractValue(l) == Some(v)
    ensures FieldValue(l, f) == if Contains(l, f) then Some(v) else None
  {
  }

  // ---------------------------------------------------------------------------
  // Loads from a file holding one record

  lemma FreshLinesRead(k: Kind, id: int, v: string)
    requires Storable(v) && Int32(id)
    ensures Lines(FreshFile(k, id, v)) == FreshLines(k, id, v)
  {
    BlockLinesAreLines(k, id, v);
    SixLines("{\n", KeyLine(k, id), IdLine(id), ValueLine(k, v), CloseLine, "}\n");
    LinesOfConcat(FreshLines(k, id, v));
  }

  lemma SixLines(a: string, b: string, c: string, d: string, e: string, f: string)
    requires IsLine(a) && IsLine(b) && IsLine(c) && IsLine(d) && IsLine(e) && IsLine(f)
    ensures AllLines([a, b, c, d, e, f])
  {
  }

  lemma FreshOwnMarker(k: Kind, id: int, v: string)
    requires Int32(id)
    ensures MarkerFree(FreshLines(k, id, v)[..1], Marker(k, id))
    ensures Contains(CString(FreshLines(k, id, v)[1]), Marker(k, id))
  {
    var ls := FreshLines(k, id, v);
    KeyLineIsLine(k, id);
    KeyWordQuoteFree(k, id);
    PlainLineWords("{\n", KeyWord(k, id));
    KeyLineWords(k, id, KeyWord(k, id));
    assert ls[..1] == ["{\n"];
  }

  lemma FreshOwnField(k: Kind, id: int, v: string)
    requires Storable(v) && Int32(id)
    ensures YieldFree([IdLine(id)], Quoted(FieldName(k)))
    ensures FieldValue(ValueLine(k, v), Quoted(FieldName(k))) == Some(v)
  {
    IdLineIsLine(id);
    FieldNotOnKeyLines(k, id, k);
    NoFieldNoYield(IdLine(id), Quoted(FieldName(k)), []);
    assert [IdLine(id)] + [] == [IdLine(id)];
    FieldOnValueLine(k, v, k);
  }

  lemma FreshOwnKey(k: Kind, id: int, v: string)
    requires Storable(v) && Int32(id)
    ensures ScanMarker(FreshLines(k, id, v), Marker(k, id), Quoted(FieldName(k))) == Some(v)
  {
    var ls := FreshLines(k, id, v);
    FreshOwnMarker(k, id, v);
    FreshOwnField(k, id, v);
    assert ls[2..][..1] == [IdLine(id)];
    assert ls[2..][1] == ValueLine(k, v);
    FirstMarkerAt(ls, 1, Marker(k, id), Quoted(FieldName(k)));
    FirstYieldAt(ls[2..], 1, Quoted(FieldName(k)));
  }

  /** Neither the opening brace, the key line nor the id line of a record holds the
      marker of another key. */
  lemma FreshOtherHead(k: Kind, id: int, k2: Kind, b: int)
    requires Int32(id) && (k2 != k || b != id)
    ensures MarkerFree(["{\n", KeyLine(k, id), IdLine(id)], Marker(k2, b))
  {
    KeyLineIsLine(k, id);
    IdLineIsLine(id);
    FixedLinesAreLines();
    KeyWordQuoteFree(k2, b);
    PlainLineWords("{\n", KeyWord(k2, b));
    KeyLineWords(k, id, KeyWord(k2, b));
    KeyWordInjective(k, id, k2, b);
    IdLineWords(id, KeyWord(k2, b));
    ThreeFree("{\n", KeyLine(k, id), IdLine(id), Marker(k2, b));
  }

  lemma ThreeFree(a: string, b: string, c: string, m: string)
    requires !Contains(CString(a), m) && !Contains(CString(b), m) && !Contains(CString(c), m)
    ensures MarkerFree([a, b, c], m)
  {
    assert [c][1..] == [];
    assert MarkerFree([c], m);
    assert [b, c][1..] == [c];
    assert MarkerFree([b, c], m);
    assert [a, b, c][1..] == [b, c];
  }

  /** The closing lines of a file hold no quote at all. */
  lemma FreshTail(m: string, f: string)
    ensures MarkerFree([CloseLine, "}\n"], Quoted(m))
    ensures YieldFree([CloseLine, "}\n"], Quoted(f))
  {
    FixedLinesAreLines();
    PlainLineWords(CloseLine, m);
    PlainLineWords("}\n", m);
    PlainLineWords(CloseLine, f);
    PlainLineWords("}\n", f);
    assert [CloseLine, "}\n"][1..] == ["}\n"];
    assert ["}\n"][1..] == [];
  }

  lemma {:induction false} MarkerFreeJoin(xs: seq<string>, ys: seq<string>, m: string)
    requires MarkerFree(xs, m) && MarkerFree(ys, m)
    ensures MarkerFree(xs + ys, m)
  {
    if xs == [] {
      assert xs + ys == ys;
    } else {
      assert (xs + ys)[1..] == xs[1..] + ys;
      MarkerFreeJoin(xs[1..], ys, m);
    }
  }

  lemma FreshSplit(k: Kind, id: int, v: string)
    ensures FreshLines(k, id, v)[..3] == ["{\n", KeyLine(k, id), IdLine(id)]
    ensures FreshLines(k, id, v)[4..] == [CloseLine, "}\n"]
    ensures FreshLines(k, id, v)
         == ["{\n", KeyLine(k, id), IdLine(id)] + ([ValueLine(k, v)] + [CloseLine, "}\n"])
  {
  }

  lemma FreshOtherKey(k: Kind, id: int, v: string, k2: Kind, b: int)
    requires Storable(v) && Int32(id)
    requires k2 != k || b != id
    ensures ScanMarker(FreshLines(k, id, v), Marker(k2, b), Quoted(FieldName(k2))) == None
  {
    var ls := FreshLines(k, id, v);
    var m := Marker(k2, b);
    var f := Quoted(FieldName(k2));
    FreshSplit(k, id, v);
    FreshOtherHead(k, id, k2, b);
    FreshTail(KeyWord(k2, b), FieldName(k2));
    ValueLineIsLine(k, v);
    MarkerOnValueLine(k, v, k2, b);
    if v == KeyWord(k2, b) {
      FirstMarkerAt(ls, 3, m, f);
      NothingYields(ls[4..], f);
    } else {
      assert MarkerFree([ValueLine(k, v)] + [CloseLine, "}\n"], m);
      MarkerFreeJoin(ls[..3], [ValueLine(k, v)] + [CloseLine, "}\n"], m);
      NoMarker(ls, m, f);
    }
  }

  /** A file holding one record gives back its value for its own key and nothing for any
      other key, of either kind. */
  lemma FreshFileLoad(k: Kind, id: int, v: string, k2: Kind, b: int)
    requires Storable(v) && Int32(id)
    ensures Load(Some(FreshFile(k, id, v)), k2, b) == if k2 == k && b == id then Some(v) else None
  {
    FreshLinesRead(k, id, v);
    if k2 == k && b == id {
      FreshOwnKey(k, id, v);
    } else {
      FreshOtherKey(k, id, v, k2, b);
    }
  }

  // ---------------------------------------------------------------------------
  // What a save writes over an absent file, and what it carries forward

  lemma FreshFileText(k: Kind, id: int, v: string)
    ensures FreshFile(k, id, v) == "{\n" + Block(k, id, v) + "}\n"
  {
    var ls := FreshLines(k, id, v);
    assert ls == ["{\n"] + BlockLines(k, id, v) + ["}\n"];
    ConcatAppend(["{\n"] + BlockLines(k, id, v), ["}\n"]);
    ConcatAppend(["{\n"], BlockLines(k, id, v));
    assert Concat(["{\n"]) == "{\n";
    assert Concat(["}\n"]) == "}\n";
  }

  /** With the state file absent, a save writes `{`, the one new record block and `}`. */
  lemma SaveOnAbsentFile(k: Kind, id: int, v: string)
    ensures Saved(None, k, id, v) == FreshFile(k, id, v)
  {
    FreshFileText(k, id, v);
    assert !Contains("{}", KindPrefix(Other(k)));
    assert "{\n" + "" == "{\n";
  }

  /** Round trip: saving a record on an absent file and loading it gives the value back. */
  lemma RoundTripOnAbsentFile(k: Kind, id: int, v: string)
    requires Storable(v) && Int32(id)
    ensures Load(Some(Saved(None, k, id, v)), k, id) == Some(v)
  {
    SaveOnAbsentFile(k, id, v);
    FreshFileLoad(k, id, v, k, id);
  }

  lemma ConsPrefix(c: char, r: string, q: string)
    ensures OccursAt([c] + r, [c] + q, 0) <==> StartsWith(r, q)
  {
    if |q| <= |r| {
      assert ([c] + r)[0..|q| + 1] == [c] + r[..|q|];
      assert ([c] + r[..|q|])[1..] == r[..|q|];
      assert ([c] + q)[1..] == q;
    }
  }

  lemma NewlineOnlyAtEnd(l: string, j: nat)
    ensures IsLine(l) && j < |l| - 1 ==> l[j] != '\n'
  {
    if IsLine(l) && j < |l| - 1 {
      assert l[..|l| - 1][j] == l[j];
    }
  }

  /** Text that starts with a line starts with `  }\n` only if that line is `  }\n`. */
  lemma LineStartsClose(l: string, rest: string)
    requires IsLine(l)
    ensures StartsWith(l + rest, CloseLine) ==> l == CloseLine
  {
    var s := l + rest;
    if StartsWith(s, CloseLine) {
      assert s[..4][3] == s[3];
      NewlineOnlyAtEnd(l, 3);
      if |l| <= 4 {
        assert s[..4][|l| - 1] == l[|l| - 1];
        assert |l| == 4;
        assert l == s[..4];
      }
    }
  }

  lemma SplitLast(l: string, rest: string)
    requires |l| > 0
    ensures l + rest == l[..|l| - 1] + ([l[|l| - 1]] + rest)
  {
    assert l == l[..|l| - 1] + [l[|l| - 1]];
  }

  lemma BlockEndStarts(rest: string)
    ensures IndexOf("\n" + (CloseLine + rest), BlockEnd) == Some(0)
  {
    var x := "\n" + (CloseLine + rest);
    assert x[..5] == BlockEnd;
    PrefixFound(x, BlockEnd);
  }

  /** The block end found right after a line: the line's own newline starts it. */
  lemma BlockEndHere(l0: string, rest: string)
    requires IsLine(l0)
    ensures IndexOf(l0 + (CloseLine + rest), BlockEnd) == Some(|l0| - 1)
  {
    var t := CloseLine + rest;
    var h := l0[..|l0| - 1];
    SplitLast(l0, t);
    assert [l0[|l0| - 1]] + t == "\n" + t;
    BlockEndStarts(rest);
    IndexOfSkip(h, "\n" + t, BlockEnd);
  }

  /** After a newline not followed by `  }\n`, the search for the block end moves on. */
  lemma NewlineThen(r: string)
    requires !StartsWith(r, CloseLine)
    ensures IndexOf("\n" + r, BlockEnd) == Shift(IndexOf(r, BlockEnd), 1)
  {
    var t := "\n" + r;
    ConsPrefix('\n', r, CloseLine);
    assert t == ['\n'] + r;
    assert BlockEnd == ['\n'] + CloseLine;
    IndexOfAfter("\n", r, BlockEnd);
  }

  /** A line that is not `  }\n` cannot hold or start the block end past its newline. */
  lemma BlockEndStep(l0: string, r: string)
    requires IsLine(l0) && !StartsWith(r, CloseLine)
    ensures IndexOf(l0 + r, BlockEnd) == Shift(IndexOf(r, BlockEnd), |l0|)
  {
    var h := l0[..|l0| - 1];
    SplitLast(l0, r);
    assert [l0[|l0| - 1]] + r == "\n" + r;
    NewlineThen(r);
    IndexOfSkip(h, "\n" + r, BlockEnd);
    ShiftTwice(IndexOf(r, BlockEnd), 1, |h|);
  }

  lemma ShiftTwice(x: Option<nat>, a: nat, b: nat)
    ensures Shift(Shift(x, a), b) == Shift(x, a + b)
  {
  }

  /** No line of `ls` is a closing `  }` line. */
  predicate CloseFree(ls: seq<string>)
  {
    ls == [] || (ls[0] != CloseLine && CloseFree(ls[1..]))
  }

  lemma BlockEndFirst(ls: seq<string>)
    requires |ls| > 1 && IsLine(ls[0]) && ls[1] == CloseLine
    ensures IndexOf(Concat(ls), BlockEnd) == Some(|Concat(ls[..1])| - 1)
  {
    assert Concat(ls[..1]) == ls[0] + Concat(ls[..1][1..]);
    assert ls[..1][1..] == [];
    assert Concat(ls[1..]) == CloseLine + Concat(ls[2..]);
    BlockEndHere(ls[0], Concat(ls[2..]));
  }

  lemma ConcatCons(ls: seq<string>)
    requires |ls| > 0
    ensures Concat(ls) == ls[0] + Concat(ls[1..])
  {
  }

  lemma PrefixLength(ls: seq<string>, i: nat)
    requires i < |ls|
    ensures |Concat(ls[..i + 1])| == |ls[0]| + |Concat(ls[1..][..i])|
  {
    assert Concat(ls[..i + 1]) == ls[..i + 1][0] + Concat(ls[..i + 1][1..]);
    assert ls[1..][..i] == ls[..i + 1][1..];
  }

  lemma BlockEndLater(l0: string, l1: string, rest: string, n: nat)
    requires IsLine(l0) && IsLine(l1) && l1 != CloseLine
    requires IndexOf(l1 + rest, BlockEnd) == Some(n)
    ensures IndexOf(l0 + (l1 + rest), BlockEnd) == Some(n + |l0|)
  {
    LineStartsClose(l1, rest);
    BlockEndStep(l0, l1 + rest);
  }

  /** In text made of lines, the first `\n  }\n` is the newline that ends the line just
      before the first `  }` line. */
  lemma {:induction false} BlockEndAt(ls: seq<string>, i: nat)
    requires AllLines(ls) && i + 1 < |ls| && ls[i + 1] == CloseLine
    requires CloseFree(ls[1..i + 1])
    ensures IndexOf(Concat(ls), BlockEnd) == Some(|Concat(ls[..i + 1])| - 1)
  {
    if i == 0 {
      BlockEndFirst(ls);
    } else {
      assert ls[1..][1..i] == ls[1..i + 1][1..];
      BlockEndAt(ls[1..], i - 1);
      BlockEndAtStep(ls, i);
    }
  }

  lemma BlockEndAtStep(ls: seq<string>, i: nat)
    requires AllLines(ls) && 0 < i && i + 1 < |ls| && ls[i + 1] == CloseLine
    requires CloseFree(ls[1..i + 1])
    requires IndexOf(Concat(ls[1..]), BlockEnd) == Some(|Concat(ls[1..][..i])| - 1)
    ensures IndexOf(Concat(ls), BlockEnd) == Some(|Concat(ls[..i + 1])| - 1)
  {
    BlockStepParts(ls, i);
    BlockEndShift(Concat(ls), Concat(ls[1..]), ls[0], ls[1], Concat(ls[2..]),
                  |Concat(ls[1..][..i])| - 1, |Concat(ls[..i + 1])| - 1);
  }

  lemma BlockEndShift(whole: string, tail: string, l0: string, l1: string, rest: string, n: nat, m: int)
    requires whole == l0 + tail && tail == l1 + rest && m == n + |l0|
    requires IsLine(l0) && IsLine(l1) && l1 != CloseLine
    requires IndexOf(tail, BlockEnd) == Some(n)
    ensures IndexOf(whole, BlockEnd) == Some(m)
  {
    BlockEndLater(l0, l1, rest, n);
  }

  /** The facts about the lines of `ls` that one step of BlockEndAt needs. */
  lemma BlockStepParts(ls: seq<string>, i: nat)
    requires AllLines(ls) && 0 < i && i + 1 < |ls|
    requires CloseFree(ls[1..i + 1])
    ensures IsLine(ls[0]) && IsLine(ls[1]) && ls[1] != CloseLine
    ensures Concat(ls[1..]) == ls[1] + Concat(ls[2..])
    ensures Concat(ls) == ls[0] + (ls[1] + Concat(ls[2..]))
    ensures |Concat(ls[..i + 1])| == |ls[0]| + |Concat(ls[1..][..i])|
  {
    assert ls[1..i + 1][0] == ls[1];
    ConcatTwo(ls);
    PrefixLength(ls, i);
  }

  lemma ConcatTwo(ls: seq<string>)
    requires |ls| > 1
    ensures Concat(ls[1..]) == ls[1] + Concat(ls[2..])
    ensures Concat(ls) == ls[0] + (ls[1] + Concat(ls[2..]))
  {
    ConcatCons(ls);
    ConcatCons(ls[1..]);
    assert ls[1..][1..] == ls[2..];
  }
}
