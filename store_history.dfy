/** What loads find after a sequence of saves: the copy-forward range of a save, the
    record that a second save of the same kind replaces, records of both kinds side by
    side, and the stale duplicate that a third save leaves in front of the new record. */
module StoreHistory {
  import opened Wrappers
  import opened CStrings
  import opened Store
  import opened StoreProps

  // ---------------------------------------------------------------------------
  // Lists of lines

  /** The four lines of one record: its key line, id line, value line and closing line. */
  function Record(key: string, k: Kind, id: int, v: string, close: string): seq<string>
  {
    [key, IdLine(id), ValueLine(k, v), close]
  }

  /** A record as a later save copies it forward: key without indentation, `  },`. */
  function KeptRecord(k: Kind, id: int, v: string): seq<string>
  {
    Record(KeyText(k, id), k, id, v, "  },\n")
  }

  /** A record that was copied forward twice: its key line keeps the indentation. */
  function ReKeptRecord(k: Kind, id: int, v: string): seq<string>
  {
    Record(KeyLine(k, id), k, id, v, "  },\n")
  }

  function FileLines(body: seq<string>): seq<string>
  {
    ["{\n"] + (body + ["}\n"])
  }

  lemma ConcatFour(a: string, b: string, c: string, d: string)
    ensures Concat([a, b, c, d]) == a + b + c + d
  {
    FourLines("", a, b, c, d);
    assert "" + a == a;
  }

  lemma {:induction false} AllLinesJoin(xs: seq<string>, ys: seq<string>)
    requires AllLines(xs) && AllLines(ys)
    ensures AllLines(xs + ys)
  {
    forall i | 0 <= i < |xs + ys|
      ensures IsLine((xs + ys)[i])
    {
      if i < |xs| {
        assert (xs + ys)[i] == xs[i];
      } else {
        assert (xs + ys)[i] == ys[i - |xs|];
      }
    }
  }

  /** The text of a file is `{`, its body lines and `}`. */
  lemma FileText(c: seq<string>, b: seq<string>)
    ensures "{\n" + Concat(c) + Concat(b) + "}\n" == Concat(FileLines(c + b))
  {
    ConcatAppend(["{\n"], (c + b) + ["}\n"]);
    ConcatAppend(c + b, ["}\n"]);
    ConcatAppend(c, b);
    assert Concat(["{\n"]) == "{\n";
    assert Concat(["}\n"]) == "}\n";
    Assoc4("{\n", Concat(c), Concat(b), "}\n");
  }

  lemma Assoc4(a: string, b: string, c: string, d: string)
    ensures a + b + c + d == a + ((b + c) + d)
  {
  }

  /** A save writes `{`, what it carries forward, its own record and `}`. */
  lemma SavedLines(data: Option<string>, k: Kind, id: int, v: string, carried: seq<string>)
    requires Carried(ReadBuffer(data), Other(k)) == Concat(carried)
    ensures Saved(data, k, id, v) == Concat(FileLines(carried + BlockLines(k, id, v)))
  {
    FileText(carried, BlockLines(k, id, v));
  }

  // ---------------------------------------------------------------------------
  // Records are well-formed lines of bounded size

  lemma RecordShape(key: string, k: Kind, id: int, v: string, close: string)
    requires IsLine(key) && CString(key) == key && |key| < 40
    requires close == CloseLine || close == "  },\n"
    requires Compact(v) && Int32(id)
    ensures AllLines(Record(key, k, id, v, close))
    ensures |Concat(Record(key, k, id, v, close))| < 1200
    ensures '\0' !in Concat(Record(key, k, id, v, close))
  {
    IdLineIsLine(id);
    IdBodyChars(id);
    ValueLineIsLine(k, v);
    FixedLinesAreLines();
    ConcatFour(key, IdLine(id), ValueLine(k, v), close);
  }

  lemma KeyLinesShape(k: Kind, id: int)
    requires Int32(id)
    ensures IsLine(KeyText(k, id)) && CString(KeyText(k, id)) == KeyText(k, id) && |KeyText(k, id)| < 40
    ensures IsLine(KeyLine(k, id)) && CString(KeyLine(k, id)) == KeyLine(k, id) && |KeyLine(k, id)| < 40
  {
    KeyTextIsLine(k, id);
    KeyLineIsLine(k, id);
    KeyBodyChars(k, id);
  }

  /** A file of at most 4095 bytes without NUL is read back whole. */
  lemma WholeBuffer(s: string)
    requires |s| <= ReadLimit && '\0' !in s
    ensures ReadBuffer(Some(s)) == s
  {
  }

  lemma FourAllLines(a: string, b: string, c: string, d: string)
    requires IsLine(a) && IsLine(b) && IsLine(c) && IsLine(d)
    ensures AllLines([a, b, c, d])
  {
  }

  // ---------------------------------------------------------------------------
  // The range a save carries forward

  /** The quoted kind prefix after a quote-free prefix: found where the lines begin. */
  lemma CarriedStart(pre: string, ls: seq<string>, p: string)
    requires '"' !in pre && |ls| > 0 && StartsWith(ls[0], "\"" + p)
    ensures IndexOf(pre + Concat(ls), "\"" + p) == Some(|pre|)
    ensures Contains(pre + Concat(ls), p)
  {
    var q := "\"" + p;
    var t := Concat(ls);
    ConcatCons(ls);
    assert t[..|q|] == ls[0][..|q|];
    PrefixFound(t, q);
    IndexOfSkip(pre, t, q);
    DropFirst(pre + t, '"', p);
  }

  lemma SplitAtClose(ls: seq<string>, i: nat)
    requires i + 1 < |ls| && ls[i + 1] == CloseLine
    ensures Concat(ls) == Concat(ls[..i + 1]) + (CloseLine + Concat(ls[i + 2..]))
  {
    assert ls == ls[..i + 1] + ls[i + 1..];
    ConcatAppend(ls[..i + 1], ls[i + 1..]);
    ConcatCons(ls[i + 1..]);
    assert ls[i + 1..][1..] == ls[i + 2..];
  }

  lemma KeptText(p: string, r: string)
    ensures (p + (CloseLine + r))[..|p| + 3] + ",\n" == p + "  },\n"
  {
    assert (p + (CloseLine + r))[..|p| + 3] == p + "  }";
  }

  lemma KeptFromText(pre: string, t: string, p: string, r: string)
    requires t == p + (CloseLine + r)
    requires |p| > 0 && IndexOf(t, BlockEnd) == Some(|p| - 1)
    ensures KeptFrom(pre + t, Some(|pre|)) == p + "  },\n"
  {
    var buf, s, e := pre + t, |pre|, |p| - 1;
    assert buf[s..] == t;
    KeptFromFound(buf, s, e);
    assert buf[s..s + e + 4] == t[..|p| + 3];
    KeptText(p, r);
  }

  /** From the start of a block, the kept range runs through the `\n  }` before the first
      `  }` line, followed by `,\n`. */
  lemma KeptAt(pre: string, ls: seq<string>, i: nat)
    requires AllLines(ls) && i + 1 < |ls| && ls[i + 1] == CloseLine
    requires CloseFree(ls[1..i + 1])
    ensures KeptFrom(pre + Concat(ls), Some(|pre|)) == Concat(ls[..i + 1] + ["  },\n"])
  {
    KeptAtParts(ls, i);
    KeptFromText(pre, Concat(ls), Concat(ls[..i + 1]), Concat(ls[i + 2..]));
  }

  lemma KeptAtParts(ls: seq<string>, i: nat)
    requires AllLines(ls) && i + 1 < |ls| && ls[i + 1] == CloseLine
    requires CloseFree(ls[1..i + 1])
    ensures |Concat(ls[..i + 1])| > 0
    ensures IndexOf(Concat(ls), BlockEnd) == Some(|Concat(ls[..i + 1])| - 1)
    ensures Concat(ls) == Concat(ls[..i + 1]) + (CloseLine + Concat(ls[i + 2..]))
    ensures Concat(ls[..i + 1] + ["  },\n"]) == Concat(ls[..i + 1]) + "  },\n"
  {
    BlockEndAt(ls, i);
    SplitAtClose(ls, i);
    ConcatAppend(ls[..i + 1], ["  },\n"]);
    assert Concat(["  },\n"]) == "  },\n";
  }

  /** A save carries forward the lines from the key line of the other kind through the
      line before the first `  }` line, then `  },`. */
  lemma CarriedBlock(pre: string, ls: seq<string>, i: nat, k: Kind)
    requires '"' !in pre && AllLines(ls) && i + 1 < |ls| && ls[i + 1] == CloseLine
    requires CloseFree(ls[1..i + 1])
    requires StartsWith(ls[0], "\"" + KindPrefix(k))
    ensures Carried(pre + Concat(ls), k) == Concat(ls[..i + 1] + ["  },\n"])
  {
    CarriedStart(pre, ls, KindPrefix(k));
    KeptAt(pre, ls, i);
  }

  lemma QuotedStarts(p: string, r: string, c: string)
    ensures StartsWith(Line(Quoted(p + r) + c), "\"" + p)
  {
    var q := "\"" + p;
    assert Line(Quoted(p + r) + c) == q + (r + "\"" + c + "\n");
  }

  lemma KeyTextStarts(k: Kind, id: int)
    ensures StartsWith(KeyText(k, id), "\"" + KindPrefix(k))
  {
    QuotedStarts(KindPrefix(k), Itoa(id), ": {");
  }

  lemma CloseFreeThree(a: string, b: string, c: string)
    requires |a| != 4 && |b| != 4 && |c| != 4
    ensures CloseFree([a, b, c]) && CloseFree([b, c])
  {
    assert [c][1..] == [];
    assert CloseFree([c]);
    assert [b, c][1..] == [c];
    assert [a, b, c][1..] == [b, c];
  }

  lemma LinesLong(k: Kind, id: int, v: string)
    ensures |IdLine(id)| > 4 && |ValueLine(k, v)| > 4 && |KeyLine(k, id)| > 4
  {
  }

  lemma LineIndent(b: string)
    ensures Line("  " + b) == "  " + Line(b)
  {
  }

  lemma IndentSecond(h: string, t: string, b: string, c: string, d: string, e: string)
    ensures Concat([h, "  " + t, b, c, d, e]) == h + "  " + Concat([t, b, c, d, e])
  {
    var ls := [h, "  " + t, b, c, d, e];
    var rs := [t, b, c, d, e];
    ConcatCons(ls);
    assert ls[1..][1..] == rs[1..];
    ConcatCons(ls[1..]);
    ConcatCons(rs);
  }

  /** The range carried forward from a five-line text whose fourth line closes the block. */
  lemma CarriedFive(pre: string, a: string, b: string, c: string, d: string, e: string, k: Kind)
    requires '"' !in pre && IsLine(a) && IsLine(b) && IsLine(c) && IsLine(e) && d == CloseLine
    requires |a| != 4 && |b| != 4 && |c| != 4
    requires StartsWith(a, "\"" + KindPrefix(k))
    ensures Carried(pre + Concat([a, b, c, d, e]), k) == Concat([a, b, c, "  },\n"])
  {
    FiveParts(a, b, c, d, e);
    CarriedBlock(pre, [a, b, c, d, e], 2, k);
  }

  lemma FiveParts(a: string, b: string, c: string, d: string, e: string)
    requires IsLine(a) && IsLine(b) && IsLine(c) && IsLine(e) && d == CloseLine
    requires |a| != 4 && |b| != 4 && |c| != 4
    ensures var ls := [a, b, c, d, e];
      AllLines(ls) && ls[0] == a && ls[3] == CloseLine && CloseFree(ls[1..3])
      && ls[..3] + ["  },\n"] == [a, b, c, "  },\n"]
  {
    var ls := [a, b, c, d, e];
    FixedLinesAreLines();
    assert AllLines(ls);
    CloseFreeThree(a, b, c);
    assert ls[1..3] == [b, c];
    assert ls[..3] + ["  },\n"] == [a, b, c, "  },\n"];
  }

  /** A file holding one record is the indentation of its key line, then the record's
      lines from its key text on. */
  lemma FreshAsKept(k: Kind, id: int, v: string)
    ensures FreshFile(k, id, v) == "{\n  " + Concat([KeyText(k, id), IdLine(id), ValueLine(k, v), CloseLine, "}\n"])
  {
    LineIndent(KeyBody(k, id));
    IndentSecond("{\n", KeyText(k, id), IdLine(id), ValueLine(k, v), CloseLine, "}\n");
    assert "{\n" + "  " == "{\n  ";
  }

  lemma FreshBuffer(k: Kind, id: int, v: string)
    requires Compact(v) && Int32(id)
    ensures ReadBuffer(Some(FreshFile(k, id, v))) == FreshFile(k, id, v)
  {
    KeyLinesShape(k, id);
    RecordShape(KeyLine(k, id), k, id, v, CloseLine);
    FreshFileText(k, id, v);
    WholeBuffer(FreshFile(k, id, v));
  }

  /** Saving a record of the other kind over a file holding one record carries that
      record forward without the indentation of its key line. */
  lemma CrossCarried(k: Kind, id: int, v: string)
    requires Compact(v) && Int32(id)
    ensures Carried(FreshFile(k, id, v), k) == Concat(KeptRecord(k, id, v))
  {
    FreshAsKept(k, id, v);
    BlockLinesAreLines(k, id, v);
    LinesLong(k, id, v);
    KeyLinesShape(k, id);
    KeyTextStarts(k, id);
    CarriedFive("{\n  ", KeyText(k, id), IdLine(id), ValueLine(k, v), CloseLine, "}\n", k);
  }

  lemma OtherOther(k: Kind)
    ensures Other(Other(k)) == k && Other(k) != k
  {
  }

  /** The file after a record of one kind and then a record of the other kind. */
  lemma CrossKindFile(k: Kind, i: int, x: string, j: int, y: string)
    requires Compact(x) && Int32(i)
    ensures Saved(Some(FreshFile(k, i, x)), Other(k), j, y)
         == Concat(FileLines(KeptRecord(k, i, x) + BlockLines(Other(k), j, y)))
  {
    FreshBuffer(k, i, x);
    CrossCarried(k, i, x);
    OtherOther(k);
    SavedLines(Some(FreshFile(k, i, x)), Other(k), j, y, KeptRecord(k, i, x));
  }

  // ---------------------------------------------------------------------------
  // Loads over lists of records

  lemma {:induction false} ScanMarkerSkip(xs: seq<string>, ys: seq<string>, m: string, f: string)
    requires MarkerFree(xs, m)
    ensures ScanMarker(xs + ys, m, f) == ScanMarker(ys, m, f)
  {
    if xs == [] {
      assert xs + ys == ys;
    } else {
      assert (xs + ys)[0] == xs[0];
      assert (xs + ys)[1..] == xs[1..] + ys;
      ScanMarkerSkip(xs[1..], ys, m, f);
    }
  }

  /** The first line holds the marker, the second gives nothing, the third a value. */
  lemma HitFour(key: string, a: string, b: string, c: string, rest: seq<string>, m: string, f: string)
    requires Contains(CString(key), m) && YieldFree([a], f) && Yields(b, f)
    ensures ScanMarker([key, a, b, c] + rest, m, f) == FieldValue(b, f)
  {
    var ls := [key, a, b, c] + rest;
    assert ls[0] == key;
    assert ls[1..][..1] == [a];
    assert ls[1..][1] == b;
    FirstYieldAt(ls[1..], 1, f);
  }

  lemma FourFree(a: string, b: string, c: string, d: string, m: string)
    requires !Contains(CString(a), m) && !Contains(CString(b), m)
    requires !Contains(CString(c), m) && !Contains(CString(d), m)
    ensures MarkerFree([a, b, c, d], m)
  {
    ThreeFree(b, c, d, m);
    assert [a, b, c, d][1..] == [b, c, d];
  }

  /** A record whose key line holds the marker gives a load its value. */
  lemma RecordHit(key: string, k: Kind, id: int, v: string, close: string, rest: seq<string>)
    requires Contains(CString(key), Marker(k, id)) && Compact(v) && Int32(id)
    ensures ScanMarker(Record(key, k, id, v, close) + rest, Marker(k, id), Quoted(FieldName(k))) == Some(v)
  {
    FreshOwnField(k, id, v);
    HitFour(key, IdLine(id), ValueLine(k, v), close, rest, Marker(k, id), Quoted(FieldName(k)));
  }

  lemma IdLineNoMarker(id: int, k2: Kind, b: int)
    requires Int32(id)
    ensures !Contains(CString(IdLine(id)), Marker(k2, b))
  {
    KeyWordQuoteFree(k2, b);
    IdLineWords(id, KeyWord(k2, b));
    IdLineIsLine(id);
  }

  /** A record whose key line and value do not hold the marker holds it nowhere. */
  lemma RecordMiss(key: string, k: Kind, id: int, v: string, close: string, k2: Kind, b: int)
    requires !Contains(CString(key), Marker(k2, b)) && Compact(v) && Int32(id)
    requires v != KeyWord(k2, b) && '"' !in close && '\0' !in close
    ensures MarkerFree(Record(key, k, id, v, close), Marker(k2, b))
  {
    IdLineNoMarker(id, k2, b);
    MarkerOnValueLine(k, v, k2, b);
    ValueLineIsLine(k, v);
    PlainLineWords(close, KeyWord(k2, b));
    FourFree(key, IdLine(id), ValueLine(k, v), close, Marker(k2, b));
  }

  lemma KeyHasPrefix(k: Kind, id: int)
    ensures Contains(KeyWord(k, id), KindPrefix(k))
  {
    var p := KindPrefix(k);
    assert KeyWord(k, id)[..|p|] == p;
    PrefixFound(KeyWord(k, id), p);
  }

  /** A value that holds no record-kind prefix is no record key. */
  lemma PlainNotKey(v: string, k: Kind, id: int)
    requires Plain(v)
    ensures v != KeyWord(k, id)
  {
    KeyHasPrefix(k, id);
    match k
    case Bootstrap =>
    case Configurator =>
  }

  /** Key lines hold their own marker and no other. */
  lemma KeyTextMarkers(k: Kind, id: int, k2: Kind, b: int)
    requires Int32(id)
    ensures Contains(CString(KeyText(k, id)), Marker(k2, b)) <==> k == k2 && id == b
  {
    KeyWordQuoteFree(k2, b);
    KeyTextWords(k, id, KeyWord(k2, b));
    KeyWordInjective(k, id, k2, b);
    KeyTextIsLine(k, id);
  }

  lemma KeyLineMarkers(k: Kind, id: int, k2: Kind, b: int)
    requires Int32(id)
    ensures Contains(CString(KeyLine(k, id)), Marker(k2, b)) <==> k == k2 && id == b
  {
    KeyWordQuoteFree(k2, b);
    KeyLineWords(k, id, KeyWord(k2, b));
    KeyWordInjective(k, id, k2, b);
    KeyLineIsLine(k, id);
  }

  /** A load from a file of body lines scans the body and the closing brace. */
  lemma FileLoad(body: seq<string>, k: Kind, id: int)
    requires AllLines(body)
    ensures Load(Some(Concat(FileLines(body))), k, id)
         == ScanMarker(body + ["}\n"], Marker(k, id), Quoted(FieldName(k)))
  {
    var ls := FileLines(body);
    FixedLinesAreLines();
    assert AllLines(["{\n"]) && AllLines(["}\n"]);
    AllLinesJoin(body, ["}\n"]);
    AllLinesJoin(["{\n"], body + ["}\n"]);
    LinesOfConcat(ls);
    KeyWordQuoteFree(k, id);
    PlainLineWords("{\n", KeyWord(k, id));
    assert ls[0] == "{\n";
    assert ls[1..] == body + ["}\n"];
  }

  // ---------------------------------------------------------------------------
  // A bootstrap record and a configurator record side by side

  lemma CrossBodyLines(k: Kind, i: int, x: string, j: int, y: string)
    requires Compact(x) && Compact(y) && Int32(i) && Int32(j)
    ensures AllLines(KeptRecord(k, i, x) + BlockLines(Other(k), j, y))
  {
    KeyLinesShape(k, i);
    KeyLinesShape(Other(k), j);
    RecordShape(KeyText(k, i), k, i, x, "  },\n");
    RecordShape(KeyLine(Other(k), j), Other(k), j, y, CloseLine);
    AllLinesJoin(KeptRecord(k, i, x), BlockLines(Other(k), j, y));
  }

  lemma CrossKindFirst(k: Kind, i: int, x: string, j: int, y: string)
    requires Compact(x) && Compact(y) && Int32(i) && Int32(j)
    ensures Load(Some(Saved(Some(FreshFile(k, i, x)), Other(k), j, y)), k, i) == Some(x)
  {
    var kr := KeptRecord(k, i, x);
    var bl := BlockLines(Other(k), j, y);
    CrossKindFile(k, i, x, j, y);
    CrossBodyLines(k, i, x, j, y);
    assert ScanMarker(kr + (bl + ["}\n"]), Marker(k, i), Quoted(FieldName(k))) == Some(x) by {
      KeyTextMarkers(k, i, k, i);
      RecordHit(KeyText(k, i), k, i, x, "  },\n", bl + ["}\n"]);
    }
    LoadVia(Saved(Some(FreshFile(k, i, x)), Other(k), j, y), kr, bl, k, i, Some(x));
  }

  /** A load from the file made of the lines `a + b` scans `a`, then `b`, then the closing brace. */
  lemma LoadVia(file: string, a: seq<string>, b: seq<string>, k: Kind, id: int, r: Option<string>)
    requires AllLines(a + b) && file == Concat(FileLines(a + b))
    requires ScanMarker(a + (b + ["}\n"]), Marker(k, id), Quoted(FieldName(k))) == r
    ensures Load(Some(file), k, id) == r
  {
    FileLoad(a + b, k, id);
    assert (a + b) + ["}\n"] == a + (b + ["}\n"]);
  }

  /** A carried record holds no marker but its own. */
  lemma KeptMiss(k: Kind, i: int, x: string, k2: Kind, b: int)
    requires Plain(x) && Int32(i) && (k2 != k || b != i)
    ensures MarkerFree(KeptRecord(k, i, x), Marker(k2, b))
  {
    KeyTextMarkers(k, i, k2, b);
    PlainNotKey(x, k2, b);
    RecordMiss(KeyText(k, i), k, i, x, "  },\n", k2, b);
  }

  /** A record just written gives a load its value. */
  lemma BlockHit(k: Kind, id: int, v: string, rest: seq<string>)
    requires Compact(v) && Int32(id)
    ensures ScanMarker(BlockLines(k, id, v) + rest, Marker(k, id), Quoted(FieldName(k))) == Some(v)
  {
    KeyLineMarkers(k, id, k, id);
    RecordHit(KeyLine(k, id), k, id, v, CloseLine, rest);
  }

  lemma CrossKindSecond(k: Kind, i: int, x: string, j: int, y: string)
    requires Plain(x) && Compact(y) && Int32(i) && Int32(j)
    ensures Load(Some(Saved(Some(FreshFile(k, i, x)), Other(k), j, y)), Other(k), j) == Some(y)
  {
    var o := Other(k);
    var kr := KeptRecord(k, i, x);
    var bl := BlockLines(o, j, y);
    CrossKindFile(k, i, x, j, y);
    CrossBodyLines(k, i, x, j, y);
    assert ScanMarker(kr + (bl + ["}\n"]), Marker(o, j), Quoted(FieldName(o))) == Some(y) by {
      OtherOther(k);
      KeptMiss(k, i, x, o, j);
      ScanMarkerSkip(kr, bl + ["}\n"], Marker(o, j), Quoted(FieldName(o)));
      BlockHit(o, j, y, ["}\n"]);
    }
    LoadVia(Saved(Some(FreshFile(k, i, x)), o, j, y), kr, bl, o, j, Some(y));
  }

  /** Saving a record of one kind on an absent file and then a record of the other kind
      keeps both: each load gives back its own value. */
  lemma CrossKind(k: Kind, i: int, x: string, j: int, y: string)
    requires Plain(x) && Compact(y) && Int32(i) && Int32(j)
    ensures var s2 := Saved(Some(Saved(None, k, i, x)), Other(k), j, y);
      Load(Some(s2), k, i) == Some(x) && Load(Some(s2), Other(k), j) == Some(y)
  {
    SaveOnAbsentFile(k, i, x);
    CrossKindFirst(k, i, x, j, y);
    CrossKindSecond(k, i, x, j, y);
  }

  // ---------------------------------------------------------------------------
  // The stale first match

  lemma CloseFreeSix(a: string, b: string, c: string, d: string, e: string, f: string)
    requires |a| != 4 && |b| != 4 && |c| != 4 && |d| != 4 && |e| != 4 && |f| != 4
    ensures CloseFree([a, b, c, d, e, f])
  {
    CloseFreeThree(d, e, f);
    assert [c, d, e, f][1..] == [d, e, f];
    assert CloseFree([c, d, e, f]);
    assert [b, c, d, e, f][1..] == [c, d, e, f];
    assert CloseFree([b, c, d, e, f]);
    assert [a, b, c, d, e, f][1..] == [b, c, d, e, f];
  }

  /** The range carried forward from text holding a carried record `r1` and then a
      record `r2` closed by `  }`: both records, the second now closed by `  },`. */
  lemma CarriedRecords(pre: string, r1: seq<string>, r2: seq<string>, k: Kind)
    requires '"' !in pre && |r1| == 4 && |r2| == 4 && AllLines(r1) && AllLines(r2)
    requires r2[3] == CloseLine
    requires |r1[1]| != 4 && |r1[2]| != 4 && |r1[3]| != 4
    requires |r2[0]| != 4 && |r2[1]| != 4 && |r2[2]| != 4
    requires StartsWith(r1[0], "\"" + KindPrefix(k))
    ensures Carried(pre + Concat((r1 + r2) + ["}\n"]), k) == Concat(r1 + (r2[..3] + ["  },\n"]))
  {
    var ls := (r1 + r2) + ["}\n"];
    FixedLinesAreLines();
    assert AllLines(["}\n"]);
    AllLinesJoin(r1, r2);
    AllLinesJoin(r1 + r2, ["}\n"]);
    CloseFreeSix(r1[1], r1[2], r1[3], r2[0], r2[1], r2[2]);
    TwoRecords(r1, r2, "}\n", "  },\n");
    CarriedBlock(pre, ls, 6, k);
  }

  /** Index facts about two four-line records followed by one more line. */
  lemma TwoRecords<T>(r1: seq<T>, r2: seq<T>, z: T, w: T)
    requires |r1| == 4 && |r2| == 4
    ensures ((r1 + r2) + [z])[1..7] == [r1[1], r1[2], r1[3], r2[0], r2[1], r2[2]]
    ensures |(r1 + r2) + [z]| == 9 && ((r1 + r2) + [z])[7] == r2[3] && ((r1 + r2) + [z])[0] == r1[0]
    ensures ((r1 + r2) + [z])[..7] + [w] == r1 + (r2[..3] + [w])
  {
  }

  /** The file after a record of the other kind and then a record of kind `k`. */
  lemma SecondFile(k: Kind, c: int, cv: string, i: int, a: string)
    requires Compact(cv) && Int32(c)
    ensures Saved(Some(Saved(None, Other(k), c, cv)), k, i, a)
         == "{\n" + Concat((KeptRecord(Other(k), c, cv) + BlockLines(k, i, a)) + ["}\n"])
  {
    SaveOnAbsentFile(Other(k), c, cv);
    OtherOther(k);
    CrossKindFile(Other(k), c, cv, i, a);
    ConcatCons(FileLines(KeptRecord(Other(k), c, cv) + BlockLines(k, i, a)));
  }

  lemma SecondBuffer(k: Kind, c: int, cv: string, i: int, a: string)
    requires Compact(cv) && Compact(a) && Int32(c) && Int32(i)
    ensures ReadBuffer(Some(Concat(FileLines(KeptRecord(Other(k), c, cv) + BlockLines(k, i, a)))))
         == Concat(FileLines(KeptRecord(Other(k), c, cv) + BlockLines(k, i, a)))
  {
    var kr := KeptRecord(Other(k), c, cv);
    var bl := BlockLines(k, i, a);
    FileText(kr, bl);
    KeyLinesShape(Other(k), c);
    KeyLinesShape(k, i);
    RecordShape(KeyText(Other(k), c), Other(k), c, cv, "  },\n");
    RecordShape(KeyLine(k, i), k, i, a, CloseLine);
    WholeBuffer(Concat(FileLines(kr + bl)));
  }

  lemma Reclose<T>(a: T, b: T, c: T, d: T, w: T)
    ensures [a, b, c, d][..3] + [w] == [a, b, c, w]
  {
  }

  /** A record with its closing line exchanged. */
  lemma Reclosed(key: string, k: Kind, id: int, v: string, c1: string, c2: string)
    ensures Record(key, k, id, v, c1)[..3] + [c2] == Record(key, k, id, v, c2)
  {
    Reclose(key, IdLine(id), ValueLine(k, v), c1, c2);
  }

  lemma RecordParts(key: string, k: Kind, id: int, v: string, close: string)
    requires close == CloseLine || close == "  },\n"
    ensures |Record(key, k, id, v, close)| == 4
    ensures Record(key, k, id, v, close)[0] == key && Record(key, k, id, v, close)[3] == close
    ensures |Record(key, k, id, v, close)[1]| != 4 && |Record(key, k, id, v, close)[2]| != 4
    ensures close != CloseLine ==> |Record(key, k, id, v, close)[3]| != 4
  {
    LinesLong(k, id, v);
  }

  /** What the carrying step needs of a carried record. */
  lemma KeptParts(k: Kind, id: int, v: string)
    requires Compact(v) && Int32(id)
    ensures |KeptRecord(k, id, v)| == 4 && AllLines(KeptRecord(k, id, v))
    ensures |KeptRecord(k, id, v)[1]| != 4 && |KeptRecord(k, id, v)[2]| != 4 && |KeptRecord(k, id, v)[3]| != 4
    ensures StartsWith(KeptRecord(k, id, v)[0], "\"" + KindPrefix(k))
  {
    KeyLinesShape(k, id);
    RecordShape(KeyText(k, id), k, id, v, "  },\n");
    RecordParts(KeyText(k, id), k, id, v, "  },\n");
    KeyTextStarts(k, id);
  }

  /** What the carrying step needs of a freshly written block. */
  lemma BlockParts(k: Kind, id: int, v: string)
    requires Compact(v) && Int32(id)
    ensures |BlockLines(k, id, v)| == 4 && AllLines(BlockLines(k, id, v))
    ensures |BlockLines(k, id, v)[0]| != 4 && |BlockLines(k, id, v)[1]| != 4 && |BlockLines(k, id, v)[2]| != 4
    ensures BlockLines(k, id, v)[3] == CloseLine
    ensures BlockLines(k, id, v)[..3] + ["  },\n"] == ReKeptRecord(k, id, v)
  {
    assert BlockLines(k, id, v) == Record(KeyLine(k, id), k, id, v, CloseLine);
    KeyLinesShape(k, id);
    RecordShape(KeyLine(k, id), k, id, v, CloseLine);
    RecordParts(KeyLine(k, id), k, id, v, CloseLine);
    LinesLong(k, id, v);
    Reclosed(KeyLine(k, id), k, id, v, CloseLine, "  },\n");
  }

  lemma SecondCarried(k: Kind, c: int, cv: string, i: int, a: string)
    requires Compact(cv) && Compact(a) && Int32(c) && Int32(i)
    ensures Carried("{\n" + Concat((KeptRecord(Other(k), c, cv) + BlockLines(k, i, a)) + ["}\n"]), Other(k))
         == Concat(KeptRecord(Other(k), c, cv) + ReKeptRecord(k, i, a))
  {
    KeptParts(Other(k), c, cv);
    BlockParts(k, i, a);
    CarriedRecords("{\n", KeptRecord(Other(k), c, cv), BlockLines(k, i, a), Other(k));
  }

  /** What the third save carries forward: the configurator-side record and the whole
      record of the second save, key line indentation included. */
  lemma ThirdCarried(k: Kind, c: int, cv: string, i: int, a: string)
    requires Compact(cv) && Compact(a) && Int32(c) && Int32(i)
    ensures Carried(ReadBuffer(Some(Saved(Some(Saved(None, Other(k), c, cv)), k, i, a))), Other(k))
         == Concat(KeptRecord(Other(k), c, cv) + ReKeptRecord(k, i, a))
  {
    SecondFile(k, c, cv, i, a);
    OtherOther(k);
    CrossKindFile(Other(k), c, cv, i, a);
    SaveOnAbsentFile(Other(k), c, cv);
    SecondBuffer(k, c, cv, i, a);
    SecondCarried(k, c, cv, i, a);
  }

  lemma Assoc3<T>(x: seq<T>, y: seq<T>, z: seq<T>, w: seq<T>)
    ensures ((x + y) + z) + w == x + (y + (z + w))
  {
  }

  /** The file after the third save: the carried records, then the new block. */
  lemma ThirdFile(k: Kind, c: int, cv: string, i: int, a: string, b: string)
    requires Compact(cv) && Compact(a) && Int32(c) && Int32(i)
    ensures Saved(Some(Saved(Some(Saved(None, Other(k), c, cv)), k, i, a)), k, i, b)
         == Concat(FileLines((KeptRecord(Other(k), c, cv) + ReKeptRecord(k, i, a)) + BlockLines(k, i, b)))
  {
    ThirdCarried(k, c, cv, i, a);
    SavedLines(Some(Saved(Some(Saved(None, Other(k), c, cv)), k, i, a)), k, i, b,
               KeptRecord(Other(k), c, cv) + ReKeptRecord(k, i, a));
  }

  lemma ThirdLines(k: Kind, c: int, cv: string, i: int, a: string, b: string)
    requires Compact(cv) && Compact(a) && Compact(b) && Int32(c) && Int32(i)
    ensures AllLines((KeptRecord(Other(k), c, cv) + ReKeptRecord(k, i, a)) + BlockLines(k, i, b))
  {
    KeptParts(Other(k), c, cv);
    KeyLinesShape(k, i);
    RecordShape(KeyLine(k, i), k, i, a, "  },\n");
    BlockParts(k, i, b);
    AllLinesJoin(KeptRecord(Other(k), c, cv), ReKeptRecord(k, i, a));
    AllLinesJoin(KeptRecord(Other(k), c, cv) + ReKeptRecord(k, i, a), BlockLines(k, i, b));
  }

  /** After the third save a load of kind `k` still meets the record of the second
      save first. */
  lemma StaleLoad(k: Kind, c: int, cv: string, i: int, a: string, b: string)
    requires Plain(cv) && Compact(a) && Compact(b) && Int32(c) && Int32(i)
    ensures Load(Some(Saved(Some(Saved(Some(Saved(None, Other(k), c, cv)), k, i, a)), k, i, b)), k, i)
         == Some(a)
  {
    var kr := KeptRecord(Other(k), c, cv);
    var rk := ReKeptRecord(k, i, a);
    var bl := BlockLines(k, i, b);
    ThirdFile(k, c, cv, i, a, b);
    ThirdLines(k, c, cv, i, a, b);
    FileLoad((kr + rk) + bl, k, i);
    Assoc3(kr, rk, bl, ["}\n"]);
    OtherOther(k);
    KeptMiss(Other(k), c, cv, k, i);
    ScanMarkerSkip(kr, rk + (bl + ["}\n"]), Marker(k, i), Quoted(FieldName(k)));
    KeyLinesShape(k, i);
    KeyLineMarkers(k, i, k, i);
    RecordHit(KeyLine(k, i), k, i, a, "  },\n", bl + ["}\n"]);
  }

  /** After the third save the record of the other kind still loads. */
  lemma StaleOther(k: Kind, c: int, cv: string, i: int, a: string, b: string)
    requires Compact(cv) && Compact(a) && Compact(b) && Int32(c) && Int32(i)
    ensures Load(Some(Saved(Some(Saved(Some(Saved(None, Other(k), c, cv)), k, i, a)), k, i, b)), Other(k), c)
         == Some(cv)
  {
    var kr := KeptRecord(Other(k), c, cv);
    var rk := ReKeptRecord(k, i, a);
    var bl := BlockLines(k, i, b);
    ThirdFile(k, c, cv, i, a, b);
    ThirdLines(k, c, cv, i, a, b);
    FileLoad((kr + rk) + bl, Other(k), c);
    Assoc3(kr, rk, bl, ["}\n"]);
    KeyLinesShape(Other(k), c);
    KeyTextMarkers(Other(k), c, Other(k), c);
    RecordHit(KeyText(Other(k), c), Other(k), c, cv, "  },\n", rk + (bl + ["}\n"]));
  }

  /** Saving a record of kind `k` over a file that already holds one, after a record of
      the other kind was saved, appends the new block behind the old one, so a later load
      for the same id finds the old value first; the other kind's record is kept. */
  lemma StaleFirstMatch(k: Kind, c: int, cv: string, i: int, a: string, b: string)
    requires Plain(cv) && Compact(a) && Compact(b) && Int32(c) && Int32(i)
    ensures var s3 := Saved(Some(Saved(Some(Saved(None, Other(k), c, cv)), k, i, a)), k, i, b);
      Load(Some(s3), k, i) == Some(a) && Load(Some(s3), Other(k), c) == Some(cv)
  {
    StaleLoad(k, c, cv, i, a, b);
    StaleOther(k, c, cv, i, a, b);
  }

  // ---------------------------------------------------------------------------
  // A save over a file without a record of the other kind

  /** Without a record of the other kind in what it reads, a save writes the same file
      as over an absent one: the old records of its own kind are dropped. */
  lemma SaveWithoutOther(data: Option<string>, k: Kind, id: int, v: string)
    requires !Contains(ReadBuffer(data), KindPrefix(Other(k)))
    ensures Saved(data, k, id, v) == FreshFile(k, id, v)
  {
    FreshFileText(k, id, v);
    assert "{\n" + "" == "{\n";
  }

  /** The start of a field line, up to the opening quote of the value. */
  function ValueHead(k: Kind): string
  {
    "    " + Quoted(FieldName(k)) + ": "
  }

  lemma AroundValue(a: string, b: string, head: string, v: string, d: string)
    ensures "{\n" + (a + b + (head + Quoted(v) + "\n") + d) + "}\n"
         == ("{\n" + a + b + head) + ['"'] + (v + ['"'] + ("\n" + d + "}\n"))
  {
  }

  lemma FreshAroundValue(k: Kind, id: int, v: string)
    ensures FreshFile(k, id, v)
         == ("{\n" + KeyLine(k, id) + IdLine(id) + ValueHead(k)) + ['"'] + (v + ['"'] + ("\n" + CloseLine + "}\n"))
  {
    FreshFileText(k, id, v);
    ConcatFour(KeyLine(k, id), IdLine(id), ValueLine(k, v), CloseLine);
    assert ValueLine(k, v) == ValueHead(k) + Quoted(v) + "\n";
    AroundValue(KeyLine(k, id), IdLine(id), ValueHead(k), v, CloseLine);
  }

  /** The first letter of the other kind's prefix: a `b` or a `c`, in neither the prefix
      nor the field name of this kind. */
  lemma OtherLetter(k: Kind)
    ensures KindPrefix(Other(k))[0] == 'b' || KindPrefix(Other(k))[0] == 'c'
    ensures KindPrefix(Other(k))[0] !in KindPrefix(k) && KindPrefix(Other(k))[0] !in FieldName(k)
    ensures '"' !in KindPrefix(Other(k))
  {
    match k
    case Bootstrap =>
    case Configurator =>
  }

  lemma LetterNotInQuoted(w: string, c: char)
    requires c !in w && (c == 'b' || c == 'c')
    ensures c !in Line("  " + Quoted(w) + ": {")
  {
  }

  lemma LetterNotInKeyLine(k: Kind, id: int, c: char)
    requires c !in KindPrefix(k) && (c == 'b' || c == 'c')
    ensures c !in KeyLine(k, id)
  {
    ItoaChars(id, c);
    LetterNotInQuoted(KindPrefix(k) + Itoa(id), c);
  }

  lemma LetterNotInIdLine(id: int, c: char)
    requires c == 'b' || c == 'c'
    ensures c !in IdLine(id)
  {
    ItoaChars(id, c);
  }

  lemma LetterNotInHead(k: Kind, id: int, c: char)
    requires c !in KindPrefix(k) && c !in FieldName(k) && (c == 'b' || c == 'c')
    ensures c !in "{\n" + KeyLine(k, id) + IdLine(id) + ValueHead(k)
    ensures c !in "\n" + CloseLine + "}\n"
  {
    LetterNotInKeyLine(k, id, c);
    LetterNotInIdLine(id, c);
  }

  /** A quote-free pattern whose first letter is missing from `head` and `tail` occurs in
      `head"v"tail` only if it occurs in `v`. */
  lemma OnlyInValue(head: string, v: string, tail: string, p: string)
    requires |p| > 0 && p[0] !in head && p[0] !in tail && '"' !in p && !Contains(v, p)
    ensures !Contains(head + ['"'] + (v + ['"'] + tail), p)
  {
    MissingChar(head, p, 0);
    MissingChar(tail, p, 0);
    ContainsAcross(v, '"', tail, p);
    ContainsAcross(head, '"', v + ['"'] + tail, p);
  }

  /** A file holding one record with a plain value holds no record of the other kind. */
  lemma FreshNoOther(k: Kind, id: int, v: string)
    requires Plain(v)
    ensures !Contains(FreshFile(k, id, v), KindPrefix(Other(k)))
  {
    var p := KindPrefix(Other(k));
    FreshAroundValue(k, id, v);
    OtherLetter(k);
    LetterNotInHead(k, id, p[0]);
    assert !Contains(v, p) by {
      match k
      case Bootstrap =>
      case Configurator =>
    }
    OnlyInValue("{\n" + KeyLine(k, id) + IdLine(id) + ValueHead(k), v, "\n" + CloseLine + "}\n", p);
  }

  /** A second save of the same kind over a file holding one record replaces that
      record: the file then holds the new record alone. */
  lemma SecondSaveReplaces(k: Kind, id: int, a: string, id2: int, b: string)
    requires Plain(a) && Int32(id)
    ensures Saved(Some(Saved(None, k, id, a)), k, id2, b) == FreshFile(k, id2, b)
  {
    SaveOnAbsentFile(k, id, a);
    FreshBuffer(k, id, a);
    FreshNoOther(k, id, a);
    SaveWithoutOther(Some(FreshFile(k, id, a)), k, id2, b);
  }

  /** After two saves of the same kind, a load finds the second value, and the first
      id, when it differs, is gone. */
  lemma SecondSaveLoads(k: Kind, id: int, a: string, id2: int, b: string, k3: Kind, id3: int)
    requires Plain(a) && Compact(b) && Int32(id) && Int32(id2)
    ensures Load(Some(Saved(Some(Saved(None, k, id, a)), k, id2, b)), k3, id3)
         == if k3 == k && id3 == id2 then Some(b) else None
  {
    SecondSaveReplaces(k, id, a, id2, b);
    FreshFileLoad(k, id2, b, k3, id3);
  }
}
