/** The flat-file association store of src/dpp_state_manager.c: two record kinds kept in
    one hand-written, JSON-shaped text file, rewritten on every save and scanned line by
    line on every load. */
module Store {
  import opened Wrappers
  import opened CStrings

  /** The two record kinds: a bootstrap id with its URI, a configurator id with its curve. */
  datatype Kind = Bootstrap | Configurator

  function KeyName(k: Kind): string
  {
    match k
    case Bootstrap => "bootstrap"
    case Configurator => "configurator"
  }

  function FieldName(k: Kind): string
  {
    match k
    case Bootstrap => "uri"
    case Configurator => "curve"
  }

  function Other(k: Kind): Kind
  {
    match k
    case Bootstrap => Configurator
    case Configurator => Bootstrap
  }

  /** fread(buffer, 1, sizeof(buffer) - 1, fp) with a 4096-byte buffer. */
  const ReadLimit: nat := 4095
  /** fgets(buffer, sizeof(buffer), fp) with a 4096-byte buffer. */
  const LineLimit: nat := 4095
  /** The text a save searches for to find the end of the block it keeps. */
  const BlockEnd: string := "\n  }\n"
  const CloseLine: string := "  }\n"

  predicate Int32(n: int)
  {
    -0x8000_0000 <= n < 0x8000_0000
  }

  // ---------------------------------------------------------------------------
  // What a save writes

  /** A line of text: its body and the newline that ends it. */
  function Line(body: string): string
  {
    body + "\n"
  }

  /** What a save looks for to find a record of kind `k`: `bootstrap_` or `configurator_`. */
  function KindPrefix(k: Kind): string
  {
    KeyName(k) + "_"
  }

  /** The key of a record: `bootstrap_7`. */
  function KeyWord(k: Kind, id: int): string
  {
    KindPrefix(k) + Itoa(id)
  }

  function KeyBody(k: Kind, id: int): string
  {
    Quoted(KeyWord(k, id)) + ": {"
  }

  /** The key line of a record without its indentation: `"bootstrap_7": {`. */
  function KeyText(k: Kind, id: int): string
  {
    Line(KeyBody(k, id))
  }

  function KeyLine(k: Kind, id: int): string
  {
    Line("  " + KeyBody(k, id))
  }

  function IdLine(id: int): string
  {
    Line("    " + Quoted("id") + ": " + Itoa(id) + ",")
  }

  function ValueLine(k: Kind, v: string): string
  {
    Line("    " + Quoted(FieldName(k)) + ": " + Quoted(v))
  }

  /** The four lines the fprintf calls emit for one record. */
  function BlockLines(k: Kind, id: int, v: string): seq<string>
  {
    [KeyLine(k, id), IdLine(id), ValueLine(k, v), CloseLine]
  }

  function Concat(ls: seq<string>): string
  {
    if ls == [] then "" else ls[0] + Concat(ls[1..])
  }

  function Block(k: Kind, id: int, v: string): string
  {
    Concat(BlockLines(k, id, v))
  }

  /** The lines of a file holding exactly one record. */
  function FreshLines(k: Kind, id: int, v: string): seq<string>
  {
    ["{\n", KeyLine(k, id), IdLine(id), ValueLine(k, v), CloseLine, "}\n"]
  }

  function FreshFile(k: Kind, id: int, v: string): string
  {
    Concat(FreshLines(k, id, v))
  }

  /** What a save sees of the old file: at most 4095 bytes up to the first NUL, or "{}"
      when the file cannot be opened for reading. */
  function ReadBuffer(data: Option<string>): string
  {
    match data
    case None => "{}"
    case Some(c) => CString(Trunc(c, ReadLimit))
  }

  /** The text a save copies forward from the old buffer for the record kind `k` it is not
      writing: from the first `"<kind>_` up to and including the `\n  }` of the first
      following `\n  }\n`, then `,\n`; nothing if either is missing. */
  function Carried(buf: string, k: Kind): (r: string)
    ensures r == "" || (|r| >= 6 && r[|r| - 2..] == ",\n" && Contains(buf, r[..|r| - 2]))
  {
    if !Contains(buf, KindPrefix(k)) then ""
    else KeptFrom(buf, IndexOf(buf, "\"" + KindPrefix(k)))
  }

  /** The block from offset `start` through the `\n  }` that closes it, then `,\n`. */
  function KeptFrom(buf: string, start: Option<nat>): (r: string)
    ensures r == "" || (|r| >= 6 && r[|r| - 2..] == ",\n" && Contains(buf, r[..|r| - 2]))
  {
    if start.None? || start.value > |buf| then ""
    else
      var s := start.value;
      match IndexOf(buf[s..], BlockEnd)
      case None => ""
      case Some(e) =>
        var kept := buf[s..s + e + 4];
        assert OccursAt(buf, kept, s);
        var r := kept + ",\n";
        assert r[..|r| - 2] == kept;
        r
  }

  /** KeptFrom once the search from `s` has found the block end at `e`. */
  lemma KeptFromFound(buf: string, s: nat, e: nat)
    requires s <= |buf| && IndexOf(buf[s..], BlockEnd) == Some(e)
    ensures KeptFrom(buf, Some(s)) == buf[s..s + e + 4] + ",\n"
  {
  }

  /** The whole new content of the state file after saving record (k, id, v) over `data`. */
  function Saved(data: Option<string>, k: Kind, id: int, v: string): string
  {
    "{\n" + Carried(ReadBuffer(data), Other(k)) + Block(k, id, v) + "}\n"
  }

  // ---------------------------------------------------------------------------
  // What a load reads

  /** The characters one fgets call returns: up to `n`, stopping after a newline. */
  function TakeLine(s: string, n: nat): (l: string)
    ensures |l| <= n && StartsWith(s, l)
    ensures s != [] && n > 0 ==> |l| > 0
  {
    if s == [] || n == 0 then []
    else if s[0] == '\n' then [s[0]]
    else [s[0]] + TakeLine(s[1..], n - 1)
  }

  /** The successive fgets results over the whole file. */
  function Lines(s: string): seq<string>
    decreases |s|
  {
    if s == [] then []
    else
      var l := TakeLine(s, LineLimit);
      [l] + Lines(s[|l|..])
  }

  /** strchr and step past: the text after the first `c`. */
  function AfterChar(s: string, c: char): Option<string>
  {
    match FindChar(s, c)
    case None => None
    case Some(i) => Some(s[i + 1..])
  }

  /** The text after the `n`-th double quote, if the text has that many. */
  function AfterQuotes(s: string, n: nat): Option<string>
  {
    if n == 0 then Some(s)
    else
      match AfterChar(s, '"')
      case None => None
      case Some(t) => AfterQuotes(t, n - 1)
  }

  /** The value a load takes from a field line: the text between the third and the
      fourth double quote, cut at a newline; nothing if the line has fewer quotes. */
  function ExtractValue(line: string): (r: Option<string>)
    ensures r.Some? ==> '"' !in r.value && '\n' !in r.value
  {
    match AfterQuotes(line, 3)
    case None => None
    case Some(s3) =>
      match FindChar(s3, '"')
      case None => None
      case Some(e) => Some(CutAt(s3[..e], '\n'))
  }

  /** What one line gives the inner loop of a load: a value only when the line holds the
      field marker and enough quotes. */
  function FieldValue(line: string, field: string): Option<string>
  {
    if Contains(CString(line), field) then ExtractValue(CString(line)) else None
  }

  /** The inner loop of a load: the value of the first later line that gives one. */
  function ScanField(ls: seq<string>, field: string): Option<string>
  {
    if ls == [] then None
    else if FieldValue(ls[0], field).Some? then FieldValue(ls[0], field)
    else ScanField(ls[1..], field)
  }

  /** The outer loop of a load: only the first line holding the record marker counts. */
  function ScanMarker(ls: seq<string>, marker: string, field: string): Option<string>
  {
    if ls == [] then None
    else if Contains(CString(ls[0]), marker) then ScanField(ls[1..], field)
    else ScanMarker(ls[1..], marker, field)
  }

  /** The marker a load looks for, closing quote included: `"bootstrap_7"`. */
  function Marker(k: Kind, id: int): string
  {
    Quoted(KeyWord(k, id))
  }

  /** load_bootstrap_uri (k = Bootstrap) and load_configurator_curve (k = Configurator). */
  function Load(data: Option<string>, k: Kind, id: int): Option<string>
  {
    match data
    case None => None
    case Some(c) => ScanMarker(Lines(c), Marker(k, id), Quoted(FieldName(k)))
  }

  /** The strstr steps of a save that find the block of kind `o` to copy forward. */
  method KeptBlock(buffer: string, o: Kind) returns (kept: string)
    ensures kept == Carried(buffer, o)
  {
    kept := "";
    if Contains(buffer, KindPrefix(o)) {
      var start := IndexOf(buffer, "\"" + KindPrefix(o));
      if start.Some? {
        var end := IndexOf(buffer[start.value..], BlockEnd);
        if end.Some? {
          kept := buffer[start.value..start.value + end.value + 4] + ",\n";
        }
      }
      assert kept == KeptFrom(buffer, start);
    }
  }

  // ---------------------------------------------------------------------------
  // The state file and the operations on it

  /** The file /tmp/dpp_configurator_state.json: its content (None when it cannot be
      opened for reading) and whether opening it for writing succeeds. */
  class StateFile {
    var data: Option<string>
    var writable: bool

    constructor (data: Option<string>, writable: bool)
      ensures this.data == data && this.writable == writable
    {
      this.data := data;
      this.writable := writable;
    }

    /** One fprintf/fwrite to the file opened for writing. */
    method Write(s: string)
      requires data.Some?
      modifies this`data
      ensures data == Some(old(data).value + s)
    {
      data := Some(data.value + s);
    }

    /** The body shared by save_bootstrap_info and save_configurator_info. */
    method SaveRecord(k: Kind, id: int, v: string) returns (r: int)
      modifies this`data
      ensures r == (if writable then 0 else -1)
      ensures data == if writable then Some(Saved(old(data), k, id, v)) else old(data)
    {
      var buffer := ReadBuffer(data);
      if !writable {
        return -1;
      }
      var kept := KeptBlock(buffer, Other(k));
      assert kept == Carried(ReadBuffer(old(data)), Other(k));
      data := Some("");
      Write("{\n");
      assert data.value == "{\n";
      Write(kept);
      WriteBlock(k, id, v);
      Write("}\n");
      return 0;
    }

    /** The four fprintf calls that write one record. */
    method WriteBlock(k: Kind, id: int, v: string)
      requires data.Some?
      modifies this`data
      ensures data == Some(old(data).value + Block(k, id, v))
    {
      ghost var head := data.value;
      Write(KeyLine(k, id));
      Write(IdLine(id));
      Write(ValueLine(k, v));
      Write(CloseLine);
      FourLines(head, KeyLine(k, id), IdLine(id), ValueLine(k, v), CloseLine);
    }

    /** save_bootstrap_info. The URI is a C string: `%s` writes it up to its first NUL. */
    method SaveBootstrapInfo(id: int, uri: string) returns (r: int)
      modifies this`data
      ensures r == (if writable then 0 else -1)
      ensures data == if writable then Some(Saved(old(data), Bootstrap, id, CString(uri))) else old(data)
    {
      r := SaveRecord(Bootstrap, id, CString(uri));
    }

    /** save_configurator_info. The curve is a C string: `%s` writes it up to its first NUL. */
    method SaveConfiguratorInfo(id: int, curve: string) returns (r: int)
      modifies this`data
      ensures r == (if writable then 0 else -1)
      ensures data == if writable then Some(Saved(old(data), Configurator, id, CString(curve))) else old(data)
    {
      r := SaveRecord(Configurator, id, CString(curve));
    }

    /** The nested fgets loops of load_bootstrap_uri / load_configurator_curve. */
    method LoadRecord(k: Kind, id: int) returns (r: Option<string>)
      ensures r == Load(data, k, id)
      ensures data.None? ==> r.None?
    {
      if data.None? {
        return None;
      }
      var marker := Marker(k, id);
      var field := Quoted(FieldName(k));
      var rest := data.value;
      while rest != []
        invariant ScanMarker(Lines(data.value), marker, field) == ScanMarker(Lines(rest), marker, field)
        decreases |rest|
      {
        var line := TakeLine(rest, LineLimit);
        rest := rest[|line|..];
        if Contains(CString(line), marker) {
          while rest != []
            invariant ScanMarker(Lines(data.value), marker, field) == ScanField(Lines(rest), field)
            decreases |rest|
          {
            var next := TakeLine(rest, LineLimit);
            rest := rest[|next|..];
            if Contains(CString(next), field) {
              var v := ExtractValue(CString(next));
              if v.Some? {
                assert v == FieldValue(next, field);
                return v;
              }
            }
          }
          return None;
        }
      }
      return None;
    }

    method LoadBootstrapUri(id: int) returns (r: Option<string>)
      ensures r == Load(data, Bootstrap, id)
      ensures data.None? ==> r.None?
    {
      r := LoadRecord(Bootstrap, id);
    }

    method LoadConfiguratorCurve(id: int) returns (r: Option<string>)
      ensures r == Load(data, Configurator, id)
      ensures data.None? ==> r.None?
    {
      r := LoadRecord(Configurator, id);
    }
  }

  lemma FourLines(h: string, a: string, b: string, c: string, d: string)
    ensures h + a + b + c + d == h + Concat([a, b, c, d])
  {
    assert [a, b, c, d][1..] == [b, c, d];
    assert [b, c, d][1..] == [c, d];
    assert [c, d][1..] == [d];
    assert [d][1..] == [];
    assert Concat([d]) == d;
    assert Concat([c, d]) == c + d;
    assert Concat([b, c, d]) == b + (c + d);
  }
}
