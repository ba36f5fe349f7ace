/** The command-line front end of src/main.c: the `-v` option, the joining of the remaining
    arguments into one string, and the dispatch through the `commands[]` table. The command
    handlers themselves are a parameter (`run`): what they return is their business. */
module Cli {
  import opened Wrappers
  import opened CStrings
  import Args

  /** The handlers the `commands[]` table points at. */
  datatype Handler = ConfiguratorAdd | BootstrapGen | BootstrapGetUri | AuthInit | Status | Help

  /** One row of `commands[]`; the NULL row that ends the C array is the end of the sequence. */
  datatype Command = Command(name: string, handler: Handler, help: string)

  const Commands: seq<Command> := [
    Command("configurator_add", ConfiguratorAdd, "Add configurator"),
    Command("bootstrap_gen", BootstrapGen, "Generate bootstrap"),
    Command("bootstrap_get_uri", BootstrapGetUri, "Get bootstrap URI"),
    Command("auth_init", AuthInit, "Initiate authentication"),
    Command("status", Status, "Show status"),
    Command("help", Help, "Show help")
  ]

  /** The handler that a name in the table stands for. */
  function NameOf(h: Handler): string
  {
    match h
    case ConfiguratorAdd => "configurator_add"
    case BootstrapGen => "bootstrap_gen"
    case BootstrapGetUri => "bootstrap_get_uri"
    case AuthInit => "auth_init"
    case Status => "status"
    case Help => "help"
  }

  /** What a handler reports, from the context's verbose flag and the argument string (NULL
      when its allocation failed). */
  type Run = (Handler, bool, Option<string>) -> int

  /** The `dpp_configurator_ctx` fields the front end touches. */
  class Context {
    var verbose: bool

    /** dpp_configurator_init, on success: verbose off. */
    constructor ()
      ensures !verbose
    {
      verbose := false;
    }
  }

  // ---------------------------------------------------------------------------
  // Dispatch
  // ---------------------------------------------------------------------------

  /** The handler of the first table row whose name is `cmd`. */
  function Find(table: seq<Command>, cmd: string): Option<Handler>
  {
    if table == [] then None
    else if table[0].name == cmd then Some(table[0].handler)
    else Find(table[1..], cmd)
  }

  /** execute_command as a value: the found handler's result, or -1 for an unknown name. */
  function Dispatch(cmd: string, verbose: bool, args: Option<string>, run: Run): int
  {
    match Find(Commands, cmd)
    case None => -1
    case Some(h) => run(h, verbose, args)
  }

  /** execute_command: walk the table until a name equals `cmd` (strcmp on its C string) and
      return that handler's result; -1 when the table ends first. */
  method ExecuteCommand(ctx: Context, cmd: string, args: Option<string>, run: Run) returns (r: int)
    ensures r == Dispatch(CString(cmd), ctx.verbose, args, run)
  {
    var i := 0;
    while i < |Commands|
      invariant 0 <= i <= |Commands|
      invariant Find(Commands, CString(cmd)) == Find(Commands[i..], CString(cmd))
    {
      assert Commands[i..][1..] == Commands[i + 1..];
      if CString(cmd) == Commands[i].name {
        return run(Commands[i].handler, ctx.verbose, args);
      }
      i := i + 1;
    }
    return -1;
  }

  /** The names in the table have different lengths, so no two handlers share one. */
  lemma NamesDistinct(g: Handler, h: Handler)
    requires NameOf(g) == NameOf(h)
    ensures g == h
  {
    assert |NameOf(g)| == |NameOf(h)|;
  }

  /** Find returns the handler of the first row with the name, and nothing when no row has it. */
  lemma {:induction false} FindFirst(table: seq<Command>, cmd: string)
    ensures Find(table, cmd).None? <==> forall i :: 0 <= i < |table| ==> table[i].name != cmd
    ensures Find(table, cmd).Some? ==>
      exists i :: (0 <= i < |table| && table[i].name == cmd
        && table[i].handler == Find(table, cmd).value
        && forall j :: 0 <= j < i ==> table[j].name != cmd)
  {
    if table != [] && table[0].name != cmd {
      FindFirst(table[1..], cmd);
      if Find(table, cmd).Some? {
        var i :| 0 <= i < |table[1..]| && table[1..][i].name == cmd
          && table[1..][i].handler == Find(table, cmd).value
          && forall j :: 0 <= j < i ==> table[1..][j].name != cmd;
        assert table[i + 1] == table[1..][i];
        assert forall j :: 0 < j <= i ==> table[j] == table[1..][j - 1];
      }
      assert forall i :: 0 < i < |table| ==> table[i] == table[1..][i - 1];
    }
  }

  /** Every row's name is its handler's name, and every handler has a row. */
  lemma TableRows(h: Handler) returns (i: nat)
    ensures forall j :: 0 <= j < |Commands| ==> Commands[j].name == NameOf(Commands[j].handler)
    ensures i < |Commands| && Commands[i].handler == h
  {
    i := match h
      case ConfiguratorAdd => 0
      case BootstrapGen => 1
      case BootstrapGetUri => 2
      case AuthInit => 3
      case Status => 4
      case Help => 5;
  }

  /** A name finds a handler exactly when it is that handler's name; any other name is unknown. */
  lemma FindByName(cmd: string, h: Handler)
    ensures Find(Commands, cmd) == Some(h) <==> cmd == NameOf(h)
    ensures Find(Commands, cmd).None? <==> forall g: Handler :: cmd != NameOf(g)
  {
    var row := TableRows(h);
    FindFirst(Commands, cmd);
    if Find(Commands, cmd).Some? {
      var i :| 0 <= i < |Commands| && Commands[i].name == cmd
        && Commands[i].handler == Find(Commands, cmd).value;
      if cmd == NameOf(h) {
        NamesDistinct(Commands[i].handler, h);
      }
    }
    if Find(Commands, cmd).None? {
      forall g: Handler ensures cmd != NameOf(g) {
        var j := TableRows(g);
        assert Commands[j].name != cmd;
      }
    }
    if forall g: Handler :: cmd != NameOf(g) {
      forall i | 0 <= i < |Commands| ensures Commands[i].name != cmd {
        assert cmd != NameOf(Commands[i].handler);
      }
    }
  }

  // ---------------------------------------------------------------------------
  // Joining the arguments
  // ---------------------------------------------------------------------------

  /** The words joined by single spaces, as the strcat loop builds them. */
  function Join(words: seq<string>): string
  {
    if words == [] then ""
    else if |words| == 1 then words[0]
    else Join(words[..|words| - 1]) + " " + words[|words| - 1]
  }

  /** total_len: every word's length plus one for its space. */
  function TotalLen(words: seq<string>): nat
  {
    if words == [] then 0 else TotalLen(words[..|words| - 1]) + |words[|words| - 1]| + 1
  }

  /** The C strings of `argv[from..]`. */
  function Words(argv: seq<string>, from: nat): seq<string>
    requires from <= |argv|
  {
    seq(|argv| - from, i requires 0 <= i < |argv| - from => CString(argv[from + i]))
  }

  /** args_str: the words after the command joined, `""` when there are none, and NULL when
      malloc fails. */
  function ArgsString(argv: seq<string>, idx: nat, allocOk: bool): Option<string>
  {
    if |argv| > idx + 1 then (if allocOk then Some(Join(Words(argv, idx + 1))) else None)
    else Some("")
  }

  /** The joined string is one character shorter than total_len, so `total_len + 1` bytes
      hold it with its NUL and one to spare. */
  lemma {:induction false} JoinLength(words: seq<string>)
    requires words != []
    ensures |Join(words)| + 1 == TotalLen(words)
    decreases |words|
  {
    if |words| > 1 {
      JoinLength(words[..|words| - 1]);
    }
  }

  /** A prefix of the words counts toward total_len no more than all of them. */
  lemma {:induction false} TotalLenPrefix(words: seq<string>, k: nat)
    requires k <= |words|
    ensures TotalLen(words[..k]) <= TotalLen(words)
    decreases |words| - k
  {
    if k < |words| {
      TotalLenPrefix(words, k + 1);
      assert words[..k + 1][..k] == words[..k];
      assert TotalLen(words[..k + 1]) == TotalLen(words[..k]) + |words[k]| + 1;
    } else {
      assert words[..k] == words;
    }
  }

  /** Joining words that hold no NUL makes a string with no NUL. */
  lemma {:induction false} JoinNoNul(words: seq<string>)
    requires forall i :: 0 <= i < |words| ==> '\0' !in words[i]
    ensures '\0' !in Join(words)
    decreases |words|
  {
    if |words| > 1 {
      JoinNoNul(words[..|words| - 1]);
    }
  }

  /** Joining two non-empty runs of words puts one space between their joins. */
  lemma {:induction false} JoinAppend(a: seq<string>, b: seq<string>)
    requires a != [] && b != []
    ensures Join(a + b) == Join(a) + " " + Join(b)
    decreases |b|
  {
    var n := |a + b|;
    assert (a + b)[n - 1] == b[|b| - 1];
    if |b| == 1 {
      assert (a + b)[..n - 1] == a;
    } else {
      var init := b[..|b| - 1];
      JoinAppend(a, init);
      assert (a + b)[..n - 1] == a + init;
    }
  }

  /** Splitting the joined string on spaces gives back the words, when each is non-empty and
      holds no space: the handlers' parse_argument sees the arguments as the shell passed them. */
  lemma {:induction false} JoinTokens(words: seq<string>)
    requires forall i :: 0 <= i < |words| ==> words[i] != [] && ' ' !in words[i]
    ensures Args.Tokens(Join(words)) == words
    decreases |words|
  {
    if |words| == 1 {
      Args.OneToken(words[0]);
    } else if |words| > 1 {
      var init := words[..|words| - 1];
      var last := words[|words| - 1];
      JoinTokens(init);
      Args.TokensSplit(Join(init), last, 0);
      Args.OneToken(last);
      assert init + [last] == words;
    }
  }

  /** strcat: find the NUL that ends the buffer's string, copy `src` over it, and end the
      result with a new NUL. */
  method Strcat(buf: array<char>, src: string, ghost text: string)
    requires '\0' !in text && '\0' !in src
    requires |text| + |src| < buf.Length && buf[..|text|] == text && buf[|text|] == '\0'
    modifies buf
    ensures buf[..|text| + |src|] == text + src && buf[|text| + |src|] == '\0'
  {
    assert forall k :: 0 <= k < |text| ==> buf[k] == text[k] != '\0';
    var n := 0;
    while buf[n] != '\0'
      invariant 0 <= n <= |text|
      decreases |text| - n
    {
      n := n + 1;
    }
    assert n == |text|;
    for j := 0 to |src|
      invariant forall k :: 0 <= k < n ==> buf[k] == text[k]
      invariant forall k :: 0 <= k < j ==> buf[n + k] == src[k]
    {
      buf[n + j] := src[j];
    }
    buf[n + |src|] := '\0';
    assert forall k :: 0 <= k < n + |src| ==> buf[k] == (text + src)[k];
  }

  /** One round of the strcat loop: the next word goes after a space (none before the
      first), and the string so far, with its NUL, still fits in `total_len + 1` bytes. */
  lemma JoinStep(words: seq<string>, k: nat)
    requires k < |words| && forall i :: 0 <= i < |words| ==> '\0' !in words[i]
    ensures Join(words[..k + 1]) == if k == 0 then words[k] else Join(words[..k]) + " " + words[k]
    ensures |Join(words[..k + 1])| < TotalLen(words) && '\0' !in Join(words[..k + 1])
  {
    assert words[..k + 1][..k] == words[..k];
    JoinLength(words[..k + 1]);
    TotalLenPrefix(words, k + 1);
    JoinNoNul(words[..k + 1]);
  }

  /** The C strings of the arguments hold no NUL. */
  lemma WordsNoNul(argv: seq<string>, from: nat)
    requires from <= |argv|
    ensures forall i :: 0 <= i < |Words(argv, from)| ==> '\0' !in Words(argv, from)[i]
  {
    forall i | 0 <= i < |Words(argv, from)| ensures '\0' !in Words(argv, from)[i] {
      assert Words(argv, from)[i] == CString(argv[from + i]);
    }
  }

  /** The first loop of the joining block: total_len over the words. */
  method TotalLength(argv: seq<string>, idx: nat) returns (total: nat)
    requires idx + 1 <= |argv|
    ensures total == TotalLen(Words(argv, idx + 1))
  {
    ghost var words := Words(argv, idx + 1);
    total := 0;
    for i := idx + 1 to |argv|
      invariant total == TotalLen(words[..i - idx - 1])
    {
      assert words[..i - idx][..i - idx - 1] == words[..i - idx - 1];
      total := total + |CString(argv[i])| + 1;
    }
    assert words[..|argv| - idx - 1] == words;
  }

  /** `buf` holds the C string `s`. */
  ghost predicate Holds(buf: array<char>, s: string)
    reads buf
  {
    |s| < buf.Length && buf[..|s|] == s && buf[|s|] == '\0'
  }

  /** One iteration of the joining loop: a separating space when `j > 0`, then word `j`. */
  method AppendWord(buf: array<char>, word: string, ghost words: seq<string>, j: nat)
    requires j < |words| && word == words[j] && forall i :: 0 <= i < |words| ==> '\0' !in words[i]
    requires buf.Length == TotalLen(words) + 1 && Holds(buf, Join(words[..j]))
    requires '\0' !in Join(words[..j])
    modifies buf
    ensures Holds(buf, Join(words[..j + 1])) && '\0' !in Join(words[..j + 1])
  {
    ghost var before := Join(words[..j]);
    JoinStep(words, j);
    if j > 0 {
      Strcat(buf, " ", before);
      Strcat(buf, word, before + " ");
    } else {
      Strcat(buf, word, before);
    }
  }

  /** The joining block of main: sum the lengths, allocate `total_len + 1` bytes, and strcat
      the words in order with a space before each but the first. */
  method JoinArguments(argv: seq<string>, idx: nat, allocOk: bool) returns (args: Option<string>)
    requires idx + 1 < |argv|
    ensures args == ArgsString(argv, idx, allocOk)
  {
    ghost var words := Words(argv, idx + 1);
    WordsNoNul(argv, idx + 1);
    var total := TotalLength(argv, idx);
    if !allocOk {
      return None;
    }
    var buf := new char[total + 1];
    buf[0] := '\0';
    assert words[..0] == [];
    for i := idx + 1 to |argv|
      invariant buf.Length == TotalLen(words) + 1
      invariant Holds(buf, Join(words[..i - idx - 1])) && '\0' !in Join(words[..i - idx - 1])
    {
      AppendWord(buf, CString(argv[i]), words, i - idx - 1);
    }
    assert words[..|argv| - idx - 1] == words;
    ghost var joined := Join(words);
    CStringStops(buf[..], |joined|);
    assert buf[..][..|joined|] == joined;
    return Some(CString(buf[..]));
  }

  // ---------------------------------------------------------------------------
  // main
  // ---------------------------------------------------------------------------

  /** main as a value: 1 without a command, 1 when initialisation fails, otherwise the
      dispatched handler's result on the joined arguments; `-v` switches verbose on and moves
      the command to `argv[2]`. */
  function Outcome(argv: seq<string>, initOk: bool, allocOk: bool, run: Run): int
  {
    if |argv| < 2 || !initOk then 1
    else
      var verbose := CString(argv[1]) == "-v";
      var idx := if verbose then 2 else 1;
      if |argv| <= idx then 1
      else Dispatch(CString(argv[idx]), verbose, ArgsString(argv, idx, allocOk), run)
  }

  /** main: `initOk` is whether dpp_configurator_init succeeds and `allocOk` whether malloc
      does; usage, messages and deinit are output and clean-up only. */
  method RunMain(argv: seq<string>, initOk: bool, allocOk: bool, run: Run) returns (r: int)
    ensures r == Outcome(argv, initOk, allocOk, run)
  {
    if |argv| < 2 {
      return 1;
    }
    if !initOk {
      return 1;
    }
    var ctx := new Context();
    var cmdIdx := 1;
    if CString(argv[1]) == "-v" {
      ctx.verbose := true;
      cmdIdx := 2;
      if |argv| < 3 {
        return 1;
      }
    }
    var args := Some("");
    if |argv| > cmdIdx + 1 {
      args := JoinArguments(argv, cmdIdx, allocOk);
    }
    r := ExecuteCommand(ctx, argv[cmdIdx], args, run);
  }

  // ---------------------------------------------------------------------------
  // Properties of main
  // ---------------------------------------------------------------------------

  /** Without a command main returns 1 and runs no handler, whatever the handlers do. */
  lemma UsageWithoutCommand(argv: seq<string>, initOk: bool, allocOk: bool, run: Run, run2: Run)
    requires |argv| < 2 || (|argv| == 2 && CString(argv[1]) == "-v")
    ensures Outcome(argv, initOk, allocOk, run) == 1 == Outcome(argv, initOk, allocOk, run2)
  {
  }

  /** main returns what the handler named by the command returns on the joined arguments,
      whatever the arguments hold. */
  lemma MainReturnsHandlerResult(argv: seq<string>, allocOk: bool, run: Run, h: Handler)
    requires |argv| >= 2 && CString(argv[1]) != "-v" && CString(argv[1]) == NameOf(h)
    ensures Outcome(argv, true, allocOk, run)
         == run(h, false, if allocOk || |argv| == 2 then Some(Join(Words(argv, 2))) else None)
  {
    var args := ArgsString(argv, 1, allocOk);
    assert args == if allocOk || |argv| == 2 then Some(Join(Words(argv, 2))) else None by {
      if |argv| == 2 {
        assert Words(argv, 2) == [];
      }
    }
    FindByName(NameOf(h), h);
    assert Dispatch(NameOf(h), false, args, run) == run(h, false, args);
  }

  /** A handler that splits the joined arguments at spaces gets back main's argument words,
      when each is non-empty and holds no space. */
  lemma HandlerSeesArguments(argv: seq<string>)
    requires |argv| >= 2
    requires forall i :: 2 <= i < |argv| ==> CString(argv[i]) != [] && ' ' !in CString(argv[i])
    ensures Args.Tokens(Join(Words(argv, 2))) == Words(argv, 2)
  {
    JoinTokens(Words(argv, 2));
  }

  /** `-v` only switches verbose on: main with `-v` before the command does what main does
      without it, with every handler seeing verbose set. */
  lemma VerboseShiftsCommand(argv: seq<string>, initOk: bool, allocOk: bool, run: Run)
    requires |argv| >= 2 && CString(argv[1]) != "-v"
    ensures Outcome(argv[..1] + ["-v"] + argv[1..], initOk, allocOk, run)
         == Outcome(argv, initOk, allocOk, (h, v, a) => run(h, true, a))
  {
    var argv2 := argv[..1] + ["-v"] + argv[1..];
    assert CString("-v") == "-v";
    assert argv2[1] == "-v" && argv2[2] == argv[1];
    assert Words(argv2, 3) == Words(argv, 2);
  }
}
