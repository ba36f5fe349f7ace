/** The auth_init_real command of src/dpp_auth_commands.c: checking the parsed parameters,
    then the three-command exchange with hostapd (add a configurator, add the peer's saved
    bootstrap URI, start authentication) and the reading of its final reply. */
module AuthCommands {
  import opened Wrappers
  import opened CStrings
  import Args
  import Cli
  import Store

  /** The size of the `cmd` buffer that snprintf fills. */
  const CommandSize := 512
  /** The size of the `response` buffer handed to the transport. */
  const ResponseSize := 4096

  /** What the transport reports for one command: its return value and the daemon's text. */
  datatype Answer = Answer(ret: int, reply: string)

  /** The text left in a `ResponseSize` buffer: the reply up to its NUL, cut to fit. */
  function Response(a: Answer): (r: string)
    ensures |r| < ResponseSize && '\0' !in r
  {
    Trunc(CString(a.reply), ResponseSize - 1)
  }

  /** hostapd behind the interface's control socket, as hostapd_cli_send_command reaches it:
      `answer(n, cmd)` is what the `n`-th command sent gets back. */
  class Daemon {
    var sent: seq<string>
    const answer: (nat, string) -> Answer

    constructor (answer: (nat, string) -> Answer)
      ensures sent == [] && this.answer == answer
    {
      sent := [];
      this.answer := answer;
    }

    /** One hostapd_cli_send_command: the command is sent and the response buffer is
        overwritten with the reply. */
    method Send(cmd: string) returns (ret: int, response: string)
      modifies this`sent
      ensures sent == old(sent) + [cmd]
      ensures ret == answer(|old(sent)|, cmd).ret
      ensures response == Response(answer(|old(sent)|, cmd))
    {
      var a := answer(|sent|, cmd);
      sent := sent + [cmd];
      return a.ret, Response(a);
    }
  }

  // ---------------------------------------------------------------------------
  // Commands
  // ---------------------------------------------------------------------------

  /** The configuration the user asked for; absent values are NULL pointers. */
  datatype Settings = Settings(conf: Option<string>, ssid: Option<string>, pass: Option<string>,
                               matterPin: Option<string>, confJson: Option<string>)

  /** is_hex_string and the extern encode_hex_string, which are not part of this model, and
      whether strdup of a credential succeeds. */
  type HexTest = string -> bool
  type Encoder = string -> Option<string>
  type Duplicate = string -> bool

  const AddCommand := "DPP_CONFIGURATOR_ADD curve=prime256v1"

  function QrCommand(uri: string): string
  {
    Trunc("DPP_QR_CODE " + uri, CommandSize - 1)
  }

  /** A credential as sent: its strdup copy when it is hex already, otherwise its encoding;
      NULL when strdup or the encoder fails. */
  function HexForm(s: string, isHex: HexTest, dupOk: Duplicate, encode: Encoder): (r: Option<string>)
    ensures isHex(s) ==> (r.Some? <==> dupOk(s)) && (r.Some? ==> r.value == s)
    ensures !isHex(s) ==> r == encode(s)
  {
    if !isHex(s) then encode(s)
    else if dupOk(s) then Some(s)
    else None
  }

  /** The words every DPP_AUTH_INIT command starts with. */
  function Head(peer: int, configurator: int): seq<string>
  {
    ["DPP_AUTH_INIT", "peer=" + Itoa(peer), "configurator=" + Itoa(configurator)]
  }

  /** The matter_pin word, present exactly when the PIN has 8 characters. */
  function PinWords(pin: Option<string>): seq<string>
  {
    if pin.Some? && |pin.value| == 8 then ["matter_pin=" + pin.value] else []
  }

  /** The words of the DPP_AUTH_INIT format chosen: conf_json first, then ssid and pass (as
      hex) when both are given, otherwise conf alone; NULL when a hex encoding fails. */
  function AuthInitWords(peer: int, configurator: int, s: Settings, isHex: HexTest, dupOk: Duplicate, encode: Encoder)
    : Option<seq<string>>
    requires s.confJson.Some? || s.conf.Some?
  {
    if s.confJson.Some? then
      Some(Head(peer, configurator) + ["conf_json='" + s.confJson.value + "'"])
    else if s.ssid.Some? && s.pass.Some? then
      var ssid := HexForm(s.ssid.value, isHex, dupOk, encode);
      var pass := HexForm(s.pass.value, isHex, dupOk, encode);
      if ssid.Some? && pass.Some? then
        Some(CredentialWords(peer, configurator, s.conf.value, ssid.value, pass.value, s.matterPin))
      else None
    else
      Some(ConfWords(peer, configurator, s.conf.value, s.matterPin))
  }

  /** `DPP_AUTH_INIT peer=%d configurator=%d conf=%s ssid=%s pass=%s[ matter_pin=%s]` */
  function CredentialWords(peer: int, configurator: int, conf: string, ssid: string, pass: string,
                           pin: Option<string>): seq<string>
  {
    Head(peer, configurator) + ["conf=" + conf, "ssid=" + ssid, "pass=" + pass] + PinWords(pin)
  }

  /** `DPP_AUTH_INIT peer=%d configurator=%d conf=%s[ matter_pin=%s]` */
  function ConfWords(peer: int, configurator: int, conf: string, pin: Option<string>): seq<string>
  {
    Head(peer, configurator) + ["conf=" + conf] + PinWords(pin)
  }

  /** The DPP_AUTH_INIT command in the 512-byte buffer: its words joined by the format's
      single spaces, cut to 511 characters by snprintf. */
  function AuthInitCommand(peer: int, configurator: int, s: Settings, isHex: HexTest, dupOk: Duplicate, encode: Encoder)
    : (r: Option<string>)
    requires s.confJson.Some? || s.conf.Some?
    ensures r.Some? <==> AuthInitWords(peer, configurator, s, isHex, dupOk, encode).Some?
    ensures r.Some? ==> |r.value| < CommandSize
    ensures r.Some? ==> var text := Cli.Join(AuthInitWords(peer, configurator, s, isHex, dupOk, encode).value);
      StartsWith(text, r.value) && (|text| < CommandSize ==> r.value == text)
  {
    match AuthInitWords(peer, configurator, s, isHex, dupOk, encode)
    case None => None
    case Some(words) => Some(Trunc(Cli.Join(words), CommandSize - 1))
  }

  /** The reading of the final reply: success when it mentions "OK" or "Authentication
      initiated", which is tested before "FAIL"; anything else is a failure. */
  function Classify(response: string): (r: int)
    ensures r == 0 || r == -1
    ensures r == 0 <==> Contains(response, "OK") || Contains(response, "Authentication initiated")
  {
    if Contains(response, "OK") || Contains(response, "Authentication initiated") then 0
    else if Contains(response, "FAIL") then -1
    else -1
  }

  /** The result and the commands sent by dpp_execute_real_auth, from the daemon's answers
      (numbered from `n`) and the saved URI of the peer. */
  datatype Outcome = Outcome(result: int, sent: seq<string>)

  function Prepend(cmd: string, out: Outcome): Outcome
  {
    Outcome(out.result, [cmd] + out.sent)
  }

  function Exchange(answer: (nat, string) -> Answer, n: nat, uri: Option<string>, s: Settings,
                    isHex: HexTest, dupOk: Duplicate, encode: Encoder): Outcome
    requires s.confJson.Some? || s.conf.Some?
  {
    var added := answer(n, AddCommand);
    if added.ret < 0 || uri.None? then Outcome(-1, [AddCommand])
    else Prepend(AddCommand, PeerExchange(answer, n + 1, Atoi(Response(added)), uri.value, s, isHex, dupOk, encode))
  }

  /** From DPP_QR_CODE on, once the daemon has returned its configurator id. */
  function PeerExchange(answer: (nat, string) -> Answer, n: nat, hostConfigurator: int, uri: string,
                        s: Settings, isHex: HexTest, dupOk: Duplicate, encode: Encoder): Outcome
    requires s.confJson.Some? || s.conf.Some?
  {
    var qr := QrCommand(uri);
    var peered := answer(n, qr);
    if peered.ret < 0 then Outcome(-1, [qr])
    else
      match AuthInitCommand(Atoi(Response(peered)), hostConfigurator, s, isHex, dupOk, encode)
      case None => Outcome(-1, [qr])
      case Some(cmd) => Prepend(qr, StartExchange(answer, n + 1, cmd))
  }

  /** The DPP_AUTH_INIT send and the reading of its reply. */
  function StartExchange(answer: (nat, string) -> Answer, n: nat, cmd: string): Outcome
  {
    var started := answer(n, cmd);
    Outcome(if started.ret < 0 then -1 else Classify(Response(started)), [cmd])
  }

  /** dpp_execute_real_auth: each command overwrites `cmd` and the reply overwrites
      `response`; the ids put into DPP_AUTH_INIT are the daemon's, read back with atoi. */
  method ExecuteRealAuth(d: Daemon, f: Store.StateFile, peerId: int, s: Settings,
                         isHex: HexTest, dupOk: Duplicate, encode: Encoder) returns (r: int)
    requires s.confJson.Some? || s.conf.Some?
    modifies d`sent
    ensures var out := Exchange(d.answer, |old(d.sent)|, Store.Load(f.data, Store.Bootstrap, peerId), s, isHex, dupOk, encode);
      r == out.result && d.sent == old(d.sent) + out.sent
  {
    ghost var before := d.sent;
    ghost var saved := Store.Load(f.data, Store.Bootstrap, peerId);
    ghost var out := Exchange(d.answer, |before|, saved, s, isHex, dupOk, encode);
    var ret, response := d.Send(AddCommand);
    if ret < 0 {
      assert out == Outcome(-1, [AddCommand]);
      return -1;
    }
    var hostConfigurator := Atoi(response);
    var uri := f.LoadBootstrapUri(peerId);
    if uri.None? {
      assert out == Outcome(-1, [AddCommand]);
      return -1;
    }
    ghost var rest := PeerExchange(d.answer, |before| + 1, hostConfigurator, uri.value, s, isHex, dupOk, encode);
    assert out == Prepend(AddCommand, rest);
    r := SendPeer(d, hostConfigurator, uri.value, s, isHex, dupOk, encode);
    Regroup(before, [AddCommand], rest.sent);
  }

  lemma Regroup<T>(a: seq<T>, b: seq<T>, c: seq<T>)
    ensures (a + b) + c == a + (b + c)
  {
  }

  /** The DPP_QR_CODE step: send the saved URI, read the daemon's peer id, build the
      DPP_AUTH_INIT command (-1 without sending when a hex encoding fails). */
  method SendPeer(d: Daemon, hostConfigurator: int, uri: string, s: Settings,
                  isHex: HexTest, dupOk: Duplicate, encode: Encoder) returns (r: int)
    requires s.confJson.Some? || s.conf.Some?
    modifies d`sent
    ensures var out := PeerExchange(d.answer, |old(d.sent)|, hostConfigurator, uri, s, isHex, dupOk, encode);
      r == out.result && d.sent == old(d.sent) + out.sent
  {
    ghost var before := d.sent;
    ghost var out := PeerExchange(d.answer, |before|, hostConfigurator, uri, s, isHex, dupOk, encode);
    var cmd := QrCommand(uri);
    var ret, response := d.Send(cmd);
    if ret < 0 {
      assert out == Outcome(-1, [cmd]);
      return -1;
    }
    var hostPeer := Atoi(response);
    var authInit := AuthInitCommand(hostPeer, hostConfigurator, s, isHex, dupOk, encode);
    if authInit.None? {
      assert out == Outcome(-1, [cmd]);
      return -1;
    }
    cmd := authInit.value;
    assert out == Prepend(QrCommand(uri), StartExchange(d.answer, |before| + 1, cmd));
    r := SendAuthInit(d, cmd);
    Regroup(before, [QrCommand(uri)], [cmd]);
  }

  /** The DPP_AUTH_INIT step: a failed send, or a reply that is not a success, gives -1. */
  method SendAuthInit(d: Daemon, cmd: string) returns (r: int)
    modifies d`sent
    ensures var out := StartExchange(d.answer, |old(d.sent)|, cmd);
      r == out.result && d.sent == old(d.sent) + out.sent
  {
    var ret, response := d.Send(cmd);
    if ret < 0 {
      return -1;
    }
    if Contains(response, "OK") || Contains(response, "Authentication initiated") {
      r := 0;
    } else if Contains(response, "FAIL") {
      r := -1;
    } else {
      r := -1;
    }
  }

  // ---------------------------------------------------------------------------
  // Validation
  // ---------------------------------------------------------------------------

  /** The parameters parse_argument finds in the argument string. */
  datatype Params = Params(peer: Option<string>, configurator: Option<string>,
                           iface: Option<string>, settings: Settings)

  function Parse(args: Option<string>): Params
  {
    Params(Args.Argument(args, Some("peer")), Args.Argument(args, Some("configurator")),
           Args.Argument(args, Some("interface")),
           Settings(Args.Argument(args, Some("conf")), Args.Argument(args, Some("ssid")),
                    Args.Argument(args, Some("pass")), Args.Argument(args, Some("matter_pin")),
                    Args.Argument(args, Some("conf_json"))))
  }

  /** An id as parsed: atoi of the value, -1 when the key is absent. */
  function IdOf(v: Option<string>): int
  {
    if v.Some? then Atoi(v.value) else -1
  }

  /** The checks of cmd_auth_init_real in their order, one verdict per error path. */
  datatype Verdict = MissingRequired | MixedWithJson | MissingConf | InvalidPin | Accepted

  /** is_valid_matter_pin, which is not part of this model. */
  type PinTest = string -> bool

  function Validate(p: Params, validPin: PinTest): Verdict
  {
    var s := p.settings;
    if IdOf(p.peer) < 0 || IdOf(p.configurator) < 0 || p.iface.None? then MissingRequired
    else if s.confJson.Some? && (s.conf.Some? || s.ssid.Some? || s.pass.Some? || s.matterPin.Some?) then MixedWithJson
    else if s.confJson.None? && s.conf.None? then MissingConf
    else if s.matterPin.Some? && s.confJson.None? && !validPin(s.matterPin.value) then InvalidPin
    else Accepted
  }

  /** cmd_auth_init_real: parse, check, and run the exchange only when every check passes;
      a rejected command returns -1 without sending anything. */
  method AuthInitReal(d: Daemon, f: Store.StateFile, args: Option<string>,
                      isHex: HexTest, dupOk: Duplicate, encode: Encoder, validPin: PinTest) returns (r: int)
    modifies d`sent
    ensures Validate(Parse(args), validPin) != Accepted ==> r == -1 && d.sent == old(d.sent)
    ensures Validate(Parse(args), validPin) == Accepted ==>
      var p := Parse(args);
      var out := Exchange(d.answer, |old(d.sent)|, Store.Load(f.data, Store.Bootstrap, IdOf(p.peer)),
                          p.settings, isHex, dupOk, encode);
      r == out.result && d.sent == old(d.sent) + out.sent
  {
    var peerStr := Args.Argument(args, Some("peer"));
    var configuratorStr := Args.Argument(args, Some("configurator"));
    var conf := Args.Argument(args, Some("conf"));
    var ssid := Args.Argument(args, Some("ssid"));
    var pass := Args.Argument(args, Some("pass"));
    var iface := Args.Argument(args, Some("interface"));
    var matterPin := Args.Argument(args, Some("matter_pin"));
    var confJson := Args.Argument(args, Some("conf_json"));
    var p := Params(peerStr, configuratorStr, iface, Settings(conf, ssid, pass, matterPin, confJson));
    assert p == Parse(args);
    r := CheckAndRun(d, f, p, isHex, dupOk, encode, validPin);
  }

  /** The checks of cmd_auth_init_real on the parsed parameters, in the order the code makes
      them, and the exchange once all of them pass. */
  method CheckAndRun(d: Daemon, f: Store.StateFile, p: Params,
                     isHex: HexTest, dupOk: Duplicate, encode: Encoder, validPin: PinTest) returns (r: int)
    modifies d`sent
    ensures Validate(p, validPin) != Accepted ==> r == -1 && d.sent == old(d.sent)
    ensures Validate(p, validPin) == Accepted ==>
      var out := Exchange(d.answer, |old(d.sent)|, Store.Load(f.data, Store.Bootstrap, IdOf(p.peer)),
                          p.settings, isHex, dupOk, encode);
      r == out.result && d.sent == old(d.sent) + out.sent
  {
    var s := p.settings;
    var peerId := -1;
    var configuratorId := -1;
    if p.peer.Some? {
      peerId := Atoi(p.peer.value);
    }
    if p.configurator.Some? {
      configuratorId := Atoi(p.configurator.value);
    }
    if peerId < 0 || configuratorId < 0 || p.iface.None? {
      return -1;
    }
    if s.confJson.Some? && (s.conf.Some? || s.ssid.Some? || s.pass.Some? || s.matterPin.Some?) {
      return -1;
    }
    if s.confJson.None? && s.conf.None? {
      return -1;
    }
    if s.matterPin.Some? && s.confJson.None? {
      if !validPin(s.matterPin.value) {
        return -1;
      }
    }
    r := ExecuteRealAuth(d, f, peerId, s, isHex, dupOk, encode);
  }

  // ---------------------------------------------------------------------------
  // Properties
  // ---------------------------------------------------------------------------

  /** Accepted parameters, whatever the order of the checks: both ids non-negative, an
      interface, exactly one of conf_json and conf, nothing else beside conf_json, and a
      valid PIN when one is given. They are what the exchange needs. */
  lemma AcceptedParams(p: Params, validPin: PinTest)
    ensures Validate(p, validPin) == Accepted <==>
      IdOf(p.peer) >= 0 && IdOf(p.configurator) >= 0 && p.iface.Some?
      && (p.settings.confJson.Some? <==> p.settings.conf.None?)
      && (p.settings.confJson.Some? ==>
            p.settings.ssid.None? && p.settings.pass.None? && p.settings.matterPin.None?)
      && (p.settings.matterPin.Some? ==> validPin(p.settings.matterPin.value))
    ensures Validate(p, validPin) == Accepted ==> p.settings.confJson.Some? || p.settings.conf.Some?
  {
  }

  /** The key `conf` does not pick up a `conf_json=` token. */
  lemma ConfIsNotConfJson(json: string)
    requires ' ' !in json && '\0' !in json
    ensures Args.Argument(Some("conf_json=" + json), Some("conf")).None?
  {
    var w := "conf_json=" + json;
    assert w[4] == '_' && ("conf" + "=")[4] == '=';
    Args.WordWithoutKey(w, "conf");
  }

  /** The exchange in order: DPP_CONFIGURATOR_ADD always, DPP_QR_CODE with the saved URI only
      after a successful add and only when the URI exists, DPP_AUTH_INIT with the ids the
      daemon returned only after both succeeded and the hex encodings did. */
  lemma ExchangeOrder(answer: (nat, string) -> Answer, n: nat, uri: Option<string>, s: Settings,
                      isHex: HexTest, dupOk: Duplicate, encode: Encoder)
    requires s.confJson.Some? || s.conf.Some?
    ensures var out := Exchange(answer, n, uri, s, isHex, dupOk, encode);
      1 <= |out.sent| <= 3 && out.sent[0] == AddCommand
      && (|out.sent| >= 2 <==> answer(n, AddCommand).ret >= 0 && uri.Some?)
      && (|out.sent| >= 2 ==> out.sent[1] == QrCommand(uri.value))
      && (|out.sent| == 3 ==>
            var added := answer(n, AddCommand);
            var peered := answer(n + 1, out.sent[1]);
            peered.ret >= 0
            && AuthInitCommand(Atoi(Response(peered)), Atoi(Response(added)), s, isHex, dupOk, encode)
               == Some(out.sent[2]))
  {
  }

  /** -1 on every failure path; 0 only when all three sends succeed and the last reply is a
      success. A missing URI stops the exchange after the first command. */
  lemma ExchangeResult(answer: (nat, string) -> Answer, n: nat, uri: Option<string>, s: Settings,
                       isHex: HexTest, dupOk: Duplicate, encode: Encoder)
    requires s.confJson.Some? || s.conf.Some?
    ensures var out := Exchange(answer, n, uri, s, isHex, dupOk, encode);
      (out.result == 0 || out.result == -1)
      && (uri.None? ==> out == Outcome(-1, [AddCommand]))
      && (out.result == 0 <==>
            |out.sent| == 3 && answer(n + 2, out.sent[2]).ret >= 0
            && Classify(Response(answer(n + 2, out.sent[2]))) == 0)
  {
    ExchangeOrder(answer, n, uri, s, isHex, dupOk, encode);
  }

  /** "FAIL" is a failure and "OK" a success. */
  lemma KnownReplies()
    ensures Classify("FAIL") == -1 && Classify("OK") == 0
  {
    MissingChar("FAIL", "OK", 0);
    MissingChar("FAIL", "Authentication initiated", 1);
    PrefixFound("OK", "OK");
  }

  // ---------------------------------------------------------------------------
  // What the daemon reads back from DPP_AUTH_INIT
  // ---------------------------------------------------------------------------

  /** Words that parse_argument's `key=` lookup splits back exactly out of their join:
      non-empty, with no space and no NUL. */
  predicate Plain(words: seq<string>)
  {
    forall i :: 0 <= i < |words| ==> words[i] != [] && ' ' !in words[i] && '\0' !in words[i]
  }

  /** A key the lookup can find whole in a joined command: no space, no NUL, and short
      enough for parse_argument's pattern buffer. */
  predicate Key(key: string)
  {
    ' ' !in key && '\0' !in key && |key| < Args.PatternSize - 1
  }

  lemma KnownKeys()
    ensures Key("peer") && Key("configurator") && Key("conf") && Key("ssid") && Key("pass")
    ensures Key("matter_pin")
  {
  }

  /** In the joined words the lookup of `key` finds the word of its first match. */
  lemma ReadBack(words: seq<string>, key: string, i: int)
    requires Plain(words) && Key(key)
    requires Args.FirstMatch(words, key + "=", i)
    ensures Args.Argument(Some(Cli.Join(words)), Some(key)) == Some(words[i][|key| + 1..])
  {
    Cli.JoinTokens(words);
    Cli.JoinNoNul(words);
    Args.LookupFirst(words, key + "=");
  }

  /** In the joined words the lookup of `key` finds nothing when no word starts with `key=`. */
  lemma ReadBackNone(words: seq<string>, key: string)
    requires Plain(words) && Key(key)
    requires forall i :: 0 <= i < |words| ==> !StartsWith(words[i], key + "=")
    ensures Args.Argument(Some(Cli.Join(words)), Some(key)).None?
  {
    Cli.JoinTokens(words);
    Cli.JoinNoNul(words);
    Args.LookupFirst(words, key + "=");
  }

  /** A number as "%d" prints it holds no space and no NUL. */
  lemma ItoaPlain(n: int)
    ensures ' ' !in Itoa(n) && '\0' !in Itoa(n)
  {
    var d := Itoa(n);
    forall i | 0 <= i < |d| ensures d[i] != ' ' && d[i] != '\0' {
      assert IsDigit(d[i]) || d[i] == '-';
    }
  }

  /** `key=` followed by a plain value is a plain word. */
  lemma KeyWordPlain(key: string, v: string)
    requires Key(key) && ' ' !in v && '\0' !in v
    ensures var w := key + "=" + v; w != [] && ' ' !in w && '\0' !in w
  {
  }

  /** The head of the command is plain. */
  lemma HeadPlain(peer: int, configurator: int)
    ensures Plain(Head(peer, configurator))
  {
    var h := Head(peer, configurator);
    ItoaPlain(peer);
    ItoaPlain(configurator);
    KnownKeys();
    KeyWordPlain("peer", Itoa(peer));
    KeyWordPlain("configurator", Itoa(configurator));
    assert h[1] == "peer" + "=" + Itoa(peer);
    assert h[2] == "configurator" + "=" + Itoa(configurator);
    assert ' ' !in h[0] && '\0' !in h[0];
  }

  /** parse_argument's lookup over the joined DPP_AUTH_INIT words finds the two ids in the
      head, however the words after it look. */
  lemma HeadReadsIds(peer: int, configurator: int, rest: seq<string>)
    requires rest != [] && forall i :: 0 <= i < |rest| ==> '\0' !in rest[i]
    ensures var text := Cli.Join(Head(peer, configurator) + rest);
      Args.Argument(Some(text), Some("peer")) == Some(Itoa(peer))
      && Args.Argument(Some(text), Some("configurator")) == Some(Itoa(configurator))
  {
    var head := Head(peer, configurator);
    Cli.JoinAppend(head, rest);
    HeadPlain(peer, configurator);
    Cli.JoinNoNul(rest);
    Cli.JoinNoNul(head);
    Args.FirstArgumentWins(Cli.Join(head), Cli.Join(rest), "peer");
    Args.FirstArgumentWins(Cli.Join(head), Cli.Join(rest), "configurator");
    HeadMatches(peer, configurator);
    KnownKeys();
    ReadBack(head, "peer", 1);
    ReadBack(head, "configurator", 2);
  }

  /** In the head, `peer=` first matches the second word and `configurator=` the third. */
  lemma HeadMatches(peer: int, configurator: int)
    ensures Args.FirstMatch(Head(peer, configurator), "peer" + "=", 1)
    ensures Args.FirstMatch(Head(peer, configurator), "configurator" + "=", 2)
    ensures Head(peer, configurator)[1][|"peer"| + 1..] == Itoa(peer)
    ensures Head(peer, configurator)[2][|"configurator"| + 1..] == Itoa(configurator)
  {
    var head := Head(peer, configurator);
    assert head[0][0] != ("peer" + "=")[0] && head[0][0] != ("configurator" + "=")[0];
    assert head[1][0] != ("configurator" + "=")[0];
    assert head[1][..5] == "peer=";
    assert head[2][..13] == "configurator=";
  }

  /** Whatever form is chosen, parse_argument's lookup over the joined DPP_AUTH_INIT words
      finds the peer and configurator ids the daemon returned earlier, never the user's ids. */
  lemma LookupReadsIds(peer: int, configurator: int, s: Settings, isHex: HexTest, dupOk: Duplicate, encode: Encoder)
    requires s.confJson.Some? || s.conf.Some?
    requires AuthInitWords(peer, configurator, s, isHex, dupOk, encode).Some?
    requires forall i :: 0 <= i < |AuthInitWords(peer, configurator, s, isHex, dupOk, encode).value| ==>
      '\0' !in AuthInitWords(peer, configurator, s, isHex, dupOk, encode).value[i]
    ensures var text := Cli.Join(AuthInitWords(peer, configurator, s, isHex, dupOk, encode).value);
      Args.Argument(Some(text), Some("peer")) == Some(Itoa(peer))
      && Args.Argument(Some(text), Some("configurator")) == Some(Itoa(configurator))
  {
    var words := AuthInitWords(peer, configurator, s, isHex, dupOk, encode).value;
    var rest := words[3..];
    assert words == Head(peer, configurator) + rest && rest != [];
    forall i | 0 <= i < |rest| ensures '\0' !in rest[i] {
      assert rest[i] == words[i + 3];
    }
    HeadReadsIds(peer, configurator, rest);
  }

  /** When the joined words fit the 512-byte buffer, the DPP_AUTH_INIT command that is sent
      gives parse_argument's lookup the ids the daemon returned earlier. */
  lemma SentCommandReadsIds(peer: int, configurator: int, s: Settings, isHex: HexTest, dupOk: Duplicate, encode: Encoder)
    requires s.confJson.Some? || s.conf.Some?
    requires AuthInitWords(peer, configurator, s, isHex, dupOk, encode).Some?
    requires forall i :: 0 <= i < |AuthInitWords(peer, configurator, s, isHex, dupOk, encode).value| ==>
      '\0' !in AuthInitWords(peer, configurator, s, isHex, dupOk, encode).value[i]
    requires |Cli.Join(AuthInitWords(peer, configurator, s, isHex, dupOk, encode).value)| < CommandSize
    ensures var cmd := AuthInitCommand(peer, configurator, s, isHex, dupOk, encode);
      cmd.Some?
      && Args.Argument(Some(cmd.value), Some("peer")) == Some(Itoa(peer))
      && Args.Argument(Some(cmd.value), Some("configurator")) == Some(Itoa(configurator))
  {
    LookupReadsIds(peer, configurator, s, isHex, dupOk, encode);
  }

  /** A word that differs from `p` at some index before the end of both does not start with `p`. */
  lemma DiffersAt(w: string, p: string, k: nat)
    requires k < |w| && k < |p| && w[k] != p[k]
    ensures !StartsWith(w, p)
  {
    if |p| <= |w| {
      assert w[..|p|][k] == w[k];
    }
  }

  /** `w` starts with `key=` and the value after it is `v`. */
  lemma KeyWordMatches(key: string, v: string)
    ensures StartsWith(key + "=" + v, key + "=") && (key + "=" + v)[|key| + 1..] == v
  {
    assert (key + "=" + v)[..|key| + 1] == key + "=";
  }

  /** The first letter and the letter at index 4 of the words of the ssid/pass form. */
  lemma CredentialLetters(peer: int, configurator: int, conf: string, ssid: string, pass: string,
                          pin: Option<string>)
    ensures var w := CredentialWords(peer, configurator, conf, ssid, pass, pin);
      |w| >= 6 && (forall j :: 0 <= j < 6 ==> w[j] != [] && w[j][0] == "Dpccsp"[j])
      && |w[1]| > 1 && w[1][1] == 'e' && |w[2]| > 4 && w[2][4] == 'i'
      && w[3] == "conf" + "=" + conf && w[4] == "ssid" + "=" + ssid && w[5] == "pass" + "=" + pass
      && (KeptPin(pin).Some? ==> |w| == 7 && w[6] == "matter_pin" + "=" + KeptPin(pin).value)
      && (KeptPin(pin).None? ==> |w| == 6)
  {
    var w := CredentialWords(peer, configurator, conf, ssid, pass, pin);
    assert w[..3] == Head(peer, configurator);
  }

  /** Where each key first matches in words lettered like the ssid/pass form. */
  lemma CredentialMatches(w: seq<string>, conf: string, ssid: string, pass: string, pin: Option<string>)
    requires |w| >= 6 && (forall j :: 0 <= j < 6 ==> w[j] != [] && w[j][0] == "Dpccsp"[j])
    requires |w[1]| > 1 && w[1][1] == 'e' && |w[2]| > 4 && w[2][4] == 'i'
    requires w[3] == "conf" + "=" + conf && w[4] == "ssid" + "=" + ssid && w[5] == "pass" + "=" + pass
    requires pin.Some? ==> |w| == 7 && w[6] == "matter_pin" + "=" + pin.value
    requires pin.None? ==> |w| == 6
    ensures Args.FirstMatch(w, "conf" + "=", 3) && Args.FirstMatch(w, "ssid" + "=", 4)
    ensures Args.FirstMatch(w, "pass" + "=", 5)
    ensures w[3][5..] == conf && w[4][5..] == ssid && w[5][5..] == pass
    ensures pin.Some? ==> Args.FirstMatch(w, "matter_pin" + "=", 6) && w[6][11..] == pin.value
    ensures pin.None? ==> forall i :: 0 <= i < |w| ==> !StartsWith(w[i], "matter_pin" + "=")
  {
    KeyWordMatches("conf", conf);
    KeyWordMatches("ssid", ssid);
    KeyWordMatches("pass", pass);
    DiffersAt(w[0], "conf" + "=", 0);
    DiffersAt(w[1], "conf" + "=", 0);
    DiffersAt(w[2], "conf" + "=", 4);
    forall j | 0 <= j < 4 ensures !StartsWith(w[j], "ssid" + "=") {
      DiffersAt(w[j], "ssid" + "=", 0);
    }
    DiffersAt(w[0], "pass" + "=", 0);
    DiffersAt(w[1], "pass" + "=", 1);
    forall j | 2 <= j < 5 ensures !StartsWith(w[j], "pass" + "=") {
      DiffersAt(w[j], "pass" + "=", 0);
    }
    forall j | 0 <= j < 6 ensures !StartsWith(w[j], "matter_pin" + "=") {
      DiffersAt(w[j], "matter_pin" + "=", 0);
    }
    if pin.Some? {
      KeyWordMatches("matter_pin", pin.value);
    }
  }

  /** The first letters of the words of the conf-only form. */
  lemma ConfLetters(peer: int, configurator: int, conf: string, pin: Option<string>)
    ensures var w := ConfWords(peer, configurator, conf, pin);
      |w| >= 4 && (forall j :: 0 <= j < 4 ==> w[j] != [] && w[j][0] == "Dpcc"[j])
      && |w[2]| > 4 && w[2][4] == 'i' && w[3] == "conf" + "=" + conf
      && (KeptPin(pin).Some? ==> |w| == 5 && w[4] == "matter_pin" + "=" + KeptPin(pin).value)
      && (KeptPin(pin).None? ==> |w| == 4)
  {
    var w := ConfWords(peer, configurator, conf, pin);
    assert w[..3] == Head(peer, configurator);
  }

  /** Where each key first matches in words lettered like the conf-only form. */
  lemma ConfMatches(w: seq<string>, conf: string, pin: Option<string>)
    requires |w| >= 4 && (forall j :: 0 <= j < 4 ==> w[j] != [] && w[j][0] == "Dpcc"[j])
    requires |w[2]| > 4 && w[2][4] == 'i' && w[3] == "conf" + "=" + conf
    requires pin.Some? ==> |w| == 5 && w[4] == "matter_pin" + "=" + pin.value
    requires pin.None? ==> |w| == 4
    ensures Args.FirstMatch(w, "conf" + "=", 3) && w[3][5..] == conf
    ensures forall i :: 0 <= i < |w| ==> !StartsWith(w[i], "ssid" + "=")
    ensures pin.Some? ==> Args.FirstMatch(w, "matter_pin" + "=", 4) && w[4][11..] == pin.value
    ensures pin.None? ==> forall i :: 0 <= i < |w| ==> !StartsWith(w[i], "matter_pin" + "=")
  {
    KeyWordMatches("conf", conf);
    DiffersAt(w[0], "conf" + "=", 0);
    DiffersAt(w[1], "conf" + "=", 0);
    DiffersAt(w[2], "conf" + "=", 4);
    forall j | 0 <= j < 4 ensures !StartsWith(w[j], "ssid" + "=") && !StartsWith(w[j], "matter_pin" + "=") {
      DiffersAt(w[j], "ssid" + "=", 0);
      DiffersAt(w[j], "matter_pin" + "=", 0);
    }
    if pin.Some? {
      KeyWordMatches("matter_pin", pin.value);
      DiffersAt(w[4], "ssid" + "=", 0);
    }
  }

  /** The PIN that PinWords keeps: the PIN when it has 8 characters. */
  function KeptPin(pin: Option<string>): (r: Option<string>)
    ensures r.Some? <==> pin.Some? && |pin.value| == 8
    ensures r.Some? ==> r == pin
    ensures r.Some? <==> PinWords(pin) != []
    ensures r.Some? ==> PinWords(pin) == ["matter_pin=" + r.value]
  {
    if PinWords(pin) != [] then pin else None
  }

  /** In the ssid/pass form with plain values, parse_argument's lookup over the joined words
      finds the configuration type, the hex credentials, and a matter_pin exactly when the PIN
      has 8 characters. */
  lemma LookupReadsCredentials(peer: int, configurator: int, conf: string, ssid: string, pass: string,
                               pin: Option<string>)
    requires Plain(CredentialWords(peer, configurator, conf, ssid, pass, pin))
    ensures var text := Cli.Join(CredentialWords(peer, configurator, conf, ssid, pass, pin));
      Args.Argument(Some(text), Some("conf")) == Some(conf)
      && Args.Argument(Some(text), Some("ssid")) == Some(ssid)
      && Args.Argument(Some(text), Some("pass")) == Some(pass)
      && Args.Argument(Some(text), Some("matter_pin")) == KeptPin(pin)
  {
    CredentialLetters(peer, configurator, conf, ssid, pass, pin);
    CredentialsRead(CredentialWords(peer, configurator, conf, ssid, pass, pin), conf, ssid, pass, KeptPin(pin));
  }

  /** The read-back of the ssid/pass form, for any plain words lettered like it. */
  lemma CredentialsRead(w: seq<string>, conf: string, ssid: string, pass: string, pin: Option<string>)
    requires Plain(w)
    requires |w| >= 6 && (forall j :: 0 <= j < 6 ==> w[j] != [] && w[j][0] == "Dpccsp"[j])
    requires |w[1]| > 1 && w[1][1] == 'e' && |w[2]| > 4 && w[2][4] == 'i'
    requires w[3] == "conf" + "=" + conf && w[4] == "ssid" + "=" + ssid && w[5] == "pass" + "=" + pass
    requires pin.Some? ==> |w| == 7 && w[6] == "matter_pin" + "=" + pin.value
    requires pin.None? ==> |w| == 6
    ensures Args.Argument(Some(Cli.Join(w)), Some("conf")) == Some(conf)
    ensures Args.Argument(Some(Cli.Join(w)), Some("ssid")) == Some(ssid)
    ensures Args.Argument(Some(Cli.Join(w)), Some("pass")) == Some(pass)
    ensures Args.Argument(Some(Cli.Join(w)), Some("matter_pin")) == pin
  {
    CredentialMatches(w, conf, ssid, pass, pin);
    KnownKeys();
    ReadBack(w, "conf", 3);
    ReadBack(w, "ssid", 4);
    ReadBack(w, "pass", 5);
    if pin.Some? {
      ReadBack(w, "matter_pin", 6);
    } else {
      ReadBackNone(w, "matter_pin");
    }
  }

  /** With conf alone and plain values, parse_argument's lookup over the joined words finds
      the configuration type, no ssid, and a matter_pin exactly when the PIN has 8 characters. */
  lemma LookupReadsConfOnly(peer: int, configurator: int, conf: string, pin: Option<string>)
    requires Plain(ConfWords(peer, configurator, conf, pin))
    ensures var text := Cli.Join(ConfWords(peer, configurator, conf, pin));
      Args.Argument(Some(text), Some("conf")) == Some(conf)
      && Args.Argument(Some(text), Some("ssid")).None?
      && Args.Argument(Some(text), Some("matter_pin")) == KeptPin(pin)
  {
    ConfLetters(peer, configurator, conf, pin);
    ConfRead(ConfWords(peer, configurator, conf, pin), conf, KeptPin(pin));
  }

  /** The read-back of the conf-only form, for any plain words lettered like it. */
  lemma ConfRead(w: seq<string>, conf: string, pin: Option<string>)
    requires Plain(w)
    requires |w| >= 4 && (forall j :: 0 <= j < 4 ==> w[j] != [] && w[j][0] == "Dpcc"[j])
    requires |w[2]| > 4 && w[2][4] == 'i' && w[3] == "conf" + "=" + conf
    requires pin.Some? ==> |w| == 5 && w[4] == "matter_pin" + "=" + pin.value
    requires pin.None? ==> |w| == 4
    ensures Args.Argument(Some(Cli.Join(w)), Some("conf")) == Some(conf)
    ensures Args.Argument(Some(Cli.Join(w)), Some("ssid")).None?
    ensures Args.Argument(Some(Cli.Join(w)), Some("matter_pin")) == pin
  {
    ConfMatches(w, conf, pin);
    KnownKeys();
    ReadBack(w, "conf", 3);
    ReadBackNone(w, "ssid");
    if pin.Some? {
      ReadBack(w, "matter_pin", 4);
    } else {
      ReadBackNone(w, "matter_pin");
    }
  }

  /** The form is chosen by precedence: conf_json whenever it is given, the credential form
      when ssid and pass both are (NULL when either encoding fails), the conf form otherwise. */
  lemma FormPrecedence(peer: int, configurator: int, s: Settings, isHex: HexTest, dupOk: Duplicate, encode: Encoder)
    requires s.confJson.Some? || s.conf.Some?
    ensures var w := AuthInitWords(peer, configurator, s, isHex, dupOk, encode);
      (s.confJson.Some? ==> w.Some? && |w.value| == 4 && w.value[3] == "conf_json='" + s.confJson.value + "'")
      && (s.confJson.None? && s.ssid.Some? && s.pass.Some? ==>
            var ssid := HexForm(s.ssid.value, isHex, dupOk, encode);
            var pass := HexForm(s.pass.value, isHex, dupOk, encode);
            w == if ssid.Some? && pass.Some?
                 then Some(CredentialWords(peer, configurator, s.conf.value, ssid.value, pass.value, s.matterPin))
                 else None)
      && (s.confJson.None? && !(s.ssid.Some? && s.pass.Some?) ==>
            w == Some(ConfWords(peer, configurator, s.conf.value, s.matterPin)))
      && (w.Some? ==> w.value[..3] == Head(peer, configurator))
  {
  }
}
