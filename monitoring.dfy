/** The auth_monitor command of src/dpp_monitoring_commands.c: two STATUS classifiers and
    the loop that polls hostapd every two seconds until the configuration is sent or the
    timeout is spent. */
module Monitoring {
  import opened Wrappers
  import opened CStrings
  import Args
  import opened AuthCommands

  const StatusCommand := "STATUS"
  const LogLevelCommand := "LOG_LEVEL DEBUG"
  const BootstrapInfoCommand := "DPP_BOOTSTRAP_INFO 1"
  /** The commands of one dpp_check_config_completion, in the order it sends them. */
  const ConfigCommands := [LogLevelCommand, BootstrapInfoCommand, StatusCommand]
  /** The commands of a loop iteration that sees authentication confirmed. */
  const ConfirmedRound := [StatusCommand, LogLevelCommand, BootstrapInfoCommand, StatusCommand]
  /** Seconds slept before each check. */
  const CheckInterval := 2
  /** The timeout when no `timeout=` argument is given. */
  const DefaultTimeout := 30

  // ---------------------------------------------------------------------------
  // The classifiers
  // ---------------------------------------------------------------------------

  /** dpp_check_auth_progress on hostapd's answer to STATUS: 1 confirmed, 0 in progress,
      -1 otherwise; the confirmation marker is looked for first. */
  function AuthProgress(a: Answer): (r: int)
    ensures -1 <= r <= 1
  {
    if a.ret < 0 then -1
    else if Contains(Response(a), "dpp_auth_ok_on_ack") then 1
    else if Contains(Response(a), "dpp_auth_") then 0
    else -1
  }

  /** The confirmation marker is itself an authentication marker, so a reply counts as
      progress exactly when the transport succeeds and the reply mentions "dpp_auth_". */
  lemma ProgressMeansAuthMarker(a: Answer)
    ensures AuthProgress(a) >= 0 <==> a.ret >= 0 && Contains(Response(a), "dpp_auth_")
    ensures AuthProgress(a) == 1 ==> Contains(Response(a), "dpp_auth_ok_on_ack")
  {
    if a.ret >= 0 && Contains(Response(a), "dpp_auth_ok_on_ack") {
      PrefixOfPattern(Response(a), "dpp_auth_ok_on_ack", "dpp_auth_");
    }
  }

  /** dpp_check_config_completion on hostapd's answer to its final STATUS: 1 when one of the
      three "sent" markers appears, 0 for a configuration request only, -1 otherwise; only a
      transport result of exactly 0 is read. */
  function ConfigStatus(a: Answer): (r: int)
    ensures -1 <= r <= 1
  {
    if a.ret != 0 then -1
    else if Contains(Response(a), "DPP_CONF_SENT") || Contains(Response(a), "dpp_conf_sent=1")
            || Contains(Response(a), "conf_status=0") then 1
    else if Contains(Response(a), "DPP_CONF_REQ_RX") then 0
    else -1
  }

  /** How the two classifiers differ on the same reply: a positive transport result still
      lets authentication progress through, but never a configuration; and a "sent" marker
      wins over a pending request. */
  lemma ClassifiersOnReturnCodes(a: Answer)
    ensures a.ret > 0 ==> ConfigStatus(a) == -1
                          && AuthProgress(a) == AuthProgress(Answer(0, a.reply))
    ensures (a.ret == 0 && Contains(Response(a), "DPP_CONF_REQ_RX")
             && Contains(Response(a), "conf_status=0")) ==> ConfigStatus(a) == 1
    ensures ConfigStatus(a) == 0 ==> a.ret == 0 && Contains(Response(a), "DPP_CONF_REQ_RX")
  {
    assert Response(Answer(0, a.reply)) == Response(a);
  }

  /** One dpp_check_auth_progress: a STATUS command, then its classification. */
  method CheckAuthProgress(d: Daemon) returns (r: int)
    modifies d`sent
    ensures d.sent == old(d.sent) + [StatusCommand]
    ensures r == AuthProgress(d.answer(|old(d.sent)|, StatusCommand))
  {
    var ret, response := d.Send(StatusCommand);
    if ret < 0 {
      return -1;
    }
    if Contains(response, "dpp_auth_ok_on_ack") {
      return 1;
    } else if Contains(response, "dpp_auth_") {
      return 0;
    }
    return -1;
  }

  /** One dpp_check_config_completion: three commands, of which only the last one's answer
      decides the result (the first is ignored, the second only printed). */
  method CheckConfigCompletion(d: Daemon) returns (r: int)
    modifies d`sent
    ensures d.sent == old(d.sent) + ConfigCommands
    ensures r == ConfigStatus(d.answer(|old(d.sent)| + 2, StatusCommand))
  {
    ghost var before := d.sent;
    var ret, response := d.Send(LogLevelCommand);
    ret, response := d.Send(BootstrapInfoCommand);
    Regroup(before, [LogLevelCommand], [BootstrapInfoCommand]);
    ret, response := d.Send(StatusCommand);
    Regroup(before, [LogLevelCommand] + [BootstrapInfoCommand], [StatusCommand]);
    assert [LogLevelCommand] + [BootstrapInfoCommand] + [StatusCommand] == ConfigCommands;
    if ret == 0 {
      if Contains(response, "DPP_CONF_SENT") || Contains(response, "dpp_conf_sent=1")
         || Contains(response, "conf_status=0") {
        return 1;
      } else if Contains(response, "DPP_CONF_REQ_RX") {
        return 0;
      }
    }
    return -1;
  }

  // ---------------------------------------------------------------------------
  // The event loop
  // ---------------------------------------------------------------------------

  /** The number of checks a timeout allows: `elapsed` steps 0, 2, 4, ... while below it. */
  function Checks(timeout: int): nat
  {
    if timeout <= 0 then 0 else (timeout + 1) / CheckInterval
  }

  /** The checks are the fewest two-second intervals that cover the timeout. */
  lemma ChecksCoverTimeout(timeout: int)
    ensures CheckInterval * Checks(timeout) >= timeout
    ensures forall k: nat :: CheckInterval * k >= timeout ==> Checks(timeout) <= k
    ensures Checks(timeout) == 0 <==> timeout <= 0
  {
  }

  /** What the loop reads of the daemon's answers, by the number of the STATUS command that
      opens an iteration: whether that STATUS confirms the authentication, or whether the
      configuration check that follows it reports the configuration sent. */
  type Reading = int -> bool

  function Confirmed(answer: (nat, string) -> Answer): Reading
  {
    m => 0 <= m && AuthProgress(answer(m, StatusCommand)) == 1
  }

  function Configured(answer: (nat, string) -> Answer): Reading
  {
    m => 0 <= m && ConfigStatus(answer(m + 3, StatusCommand)) == 1
  }

  /** One iteration of dpp_auth_event_loop opened by command `n`: a STATUS, and after a
      confirmed authentication the configuration check; 0 when the configuration was sent. */
  function Round(confirmed: Reading, configured: Reading, n: nat): Outcome
  {
    if !confirmed(n) then Outcome(-1, [StatusCommand])
    else if configured(n) then Outcome(0, ConfirmedRound)
    else Outcome(-1, ConfirmedRound)
  }

  /** Two seconds of the timeout pay for one check. */
  lemma ChecksStep(left: int)
    requires left > 0
    ensures Checks(left - CheckInterval) == Checks(left) - 1
  {
  }

  /** The result and the commands of the last `k` iterations, the first opened by command
      `n`: the first sent configuration ends the loop with 0. */
  function Loop(confirmed: Reading, configured: Reading, n: nat, k: nat): Outcome
    decreases k
  {
    if k == 0 then Outcome(-1, [])
    else
      var round := Round(confirmed, configured, n);
      if round.result == 0 then round
      else After(round.sent, Loop(confirmed, configured, n + |round.sent|, k - 1))
  }

  /** An iteration that does not end the loop is followed by the remaining ones. */
  lemma LoopGoesOn(confirmed: Reading, configured: Reading, n: nat, k: nat)
    requires k > 0 && Round(confirmed, configured, n).result != 0
    ensures var round := Round(confirmed, configured, n);
      var later := Loop(confirmed, configured, n + |round.sent|, k - 1);
      Loop(confirmed, configured, n, k) == Outcome(later.result, round.sent + later.sent)
  {
  }

  /** `out` preceded by the commands `done`. */
  function After(done: seq<string>, out: Outcome): Outcome
  {
    Outcome(out.result, done + out.sent)
  }

  lemma AfterAfter(a: seq<string>, b: seq<string>, out: Outcome)
    ensures After(a, After(b, out)) == After(a + b, out)
  {
    assert a + (b + out.sent) == a + b + out.sent;
  }

  /** The loop on the daemon's own answers, numbered from `n`. */
  function Polls(answer: (nat, string) -> Answer, n: nat, k: nat): Outcome
  {
    Loop(Confirmed(answer), Configured(answer), n, k)
  }

  /** The checks of one iteration of dpp_auth_event_loop: the progress check, and after a
      confirmed authentication the configuration check; true when the configuration
      was sent, which ends the loop. */
  method CheckRound(d: Daemon) returns (sent: bool)
    modifies d`sent
    ensures var round := Round(Confirmed(d.answer), Configured(d.answer), |old(d.sent)|);
      sent == (round.result == 0) && d.sent == old(d.sent) + round.sent
  {
    ghost var here := |d.sent|;
    var progress := CheckAuthProgress(d);
    if progress != 1 {
      return false;
    }
    var config := CheckConfigCompletion(d);
    assert d.sent == old(d.sent) + ConfirmedRound;
    return config == 1;
  }

  /** The daemon's command log after the last `k` iterations, starting from `log`: the
      loop as it runs, carrying everything sent so far. */
  function Run(confirmed: Reading, configured: Reading, log: seq<string>, k: nat): Outcome
    decreases k
  {
    if k == 0 then Outcome(-1, log)
    else
      var round := Round(confirmed, configured, |log|);
      if round.result == 0 then Outcome(0, log + round.sent)
      else Run(confirmed, configured, log + round.sent, k - 1)
  }

  /** Running the loop on a log appends to it what the loop sends. */
  lemma {:induction false} RunIsLoop(confirmed: Reading, configured: Reading, log: seq<string>, k: nat)
    ensures Run(confirmed, configured, log, k) == After(log, Loop(confirmed, configured, |log|, k))
    decreases k
  {
    if k > 0 {
      var round := Round(confirmed, configured, |log|);
      if round.result != 0 {
        var later := Loop(confirmed, configured, |log| + |round.sent|, k - 1);
        RunIsLoop(confirmed, configured, log + round.sent, k - 1);
        AfterAfter(log, round.sent, later);
      }
    } else {
      assert log + [] == log;
    }
  }

  /** dpp_auth_event_loop: sleep, check progress, and on a confirmed authentication check
      the configuration, until it is sent (0) or `elapsed` reaches the timeout (-1). */
  method AuthEventLoop(d: Daemon, timeout: int) returns (r: int)
    modifies d`sent
    ensures var out := Polls(d.answer, |old(d.sent)|, Checks(timeout));
      r == out.result && d.sent == old(d.sent) + out.sent
  {
    ghost var confirmed := Confirmed(d.answer);
    ghost var configured := Configured(d.answer);
    ghost var total := Run(confirmed, configured, d.sent, Checks(timeout));
    RunIsLoop(confirmed, configured, d.sent, Checks(timeout));
    ghost var left: nat := Checks(timeout);
    var elapsed := 0;
    while elapsed < timeout
      invariant 0 <= elapsed && elapsed % CheckInterval == 0
      invariant left == Checks(timeout - elapsed)
      invariant total == Run(confirmed, configured, d.sent, left)
      decreases timeout - elapsed
    {
      ChecksStep(timeout - elapsed);
      elapsed := elapsed + CheckInterval;
      left := left - 1;
      var configSent := CheckRound(d);
      if configSent {
        return 0;
      }
    }
    return -1;
  }

  // ---------------------------------------------------------------------------
  // What the loop sends and returns
  // ---------------------------------------------------------------------------

  /** In the commands `sent` (the first numbered `n`) every configuration check is the full
      three-command check, made right after a STATUS that confirmed the authentication. */
  ghost predicate ConfigsAfterAuth(confirmed: Reading, n: nat, sent: seq<string>)
  {
    forall m {:trigger ConfigCheckAt(sent, m)} :: ConfigCheckAt(sent, m) ==>
      1 <= m && m + 3 <= |sent| && sent[m - 1] == StatusCommand
      && sent[m + 1] == BootstrapInfoCommand && sent[m + 2] == StatusCommand && confirmed(n + m - 1)
  }

  /** Command `m` of `sent` opens a configuration check. */
  predicate ConfigCheckAt(sent: seq<string>, m: int)
  {
    0 <= m < |sent| && sent[m] == LogLevelCommand
  }

  lemma ConfigsAfterAuthAppend(confirmed: Reading, n: nat, a: seq<string>, b: seq<string>)
    requires ConfigsAfterAuth(confirmed, n, a) && ConfigsAfterAuth(confirmed, n + |a|, b)
    requires b != [] ==> b[0] != LogLevelCommand
    ensures ConfigsAfterAuth(confirmed, n, a + b)
  {
    var s := a + b;
    forall m | ConfigCheckAt(s, m)
      ensures 1 <= m && m + 3 <= |s| && s[m - 1] == StatusCommand
              && s[m + 1] == BootstrapInfoCommand && s[m + 2] == StatusCommand && confirmed(n + m - 1)
    {
      if m < |a| {
        assert ConfigCheckAt(a, m);
      } else {
        var j := m - |a|;
        assert ConfigCheckAt(b, j);
        assert n + |a| + j - 1 == n + m - 1;
      }
    }
  }

  /** Every iteration opens with STATUS, and there are none when no checks remain. */
  lemma FirstIsStatus(confirmed: Reading, configured: Reading, n: nat, k: nat)
    ensures var s := Loop(confirmed, configured, n, k).sent;
      (k == 0 <==> s == []) && (s != [] ==> s[0] == StatusCommand)
  {
    if k > 0 {
      assert Round(confirmed, configured, n).sent[0] == StatusCommand;
    }
  }

  lemma RoundConfigs(confirmed: Reading, configured: Reading, n: nat)
    ensures ConfigsAfterAuth(confirmed, n, Round(confirmed, configured, n).sent)
  {
  }

  /** A configuration check is only ever made right after a STATUS that confirmed the
      authentication, and is always the full three-command check. */
  lemma {:induction false} ConfigOnlyAfterAuth(confirmed: Reading, configured: Reading, n: nat, k: nat)
    ensures ConfigsAfterAuth(confirmed, n, Loop(confirmed, configured, n, k).sent)
    decreases k
  {
    if k > 0 {
      var round := Round(confirmed, configured, n);
      if round.result == 0 {
        RoundConfigs(confirmed, configured, n);
      } else {
        ConfigOnlyAfterAuth(confirmed, configured, n + |round.sent|, k - 1);
        ConfigsAfterAuthStep(confirmed, configured, n, k);
      }
    }
  }

  lemma ConfigsAfterAuthStep(confirmed: Reading, configured: Reading, n: nat, k: nat)
    requires k > 0 && Round(confirmed, configured, n).result != 0
    requires var m := n + |Round(confirmed, configured, n).sent|;
      ConfigsAfterAuth(confirmed, m, Loop(confirmed, configured, m, k - 1).sent)
    ensures ConfigsAfterAuth(confirmed, n, Loop(confirmed, configured, n, k).sent)
  {
    var round := Round(confirmed, configured, n);
    var later := Loop(confirmed, configured, n + |round.sent|, k - 1);
    RoundConfigs(confirmed, configured, n);
    FirstIsStatus(confirmed, configured, n + |round.sent|, k - 1);
    LoopGoesOn(confirmed, configured, n, k);
    ConfigsAfterAuthJoin(confirmed, n, round.sent, later.sent, Loop(confirmed, configured, n, k).sent);
  }

  lemma ConfigsAfterAuthJoin(confirmed: Reading, n: nat, a: seq<string>, b: seq<string>, s: seq<string>)
    requires s == a + b
    requires ConfigsAfterAuth(confirmed, n, a) && ConfigsAfterAuth(confirmed, n + |a|, b)
    requires b != [] ==> b[0] == StatusCommand
    ensures ConfigsAfterAuth(confirmed, n, s)
  {
    ConfigsAfterAuthAppend(confirmed, n, a, b);
  }

  /** Some configuration check in `sent` (the first command numbered `n`) reported the
      configuration sent. */
  ghost predicate ConfigSentIn(configured: Reading, n: nat, sent: seq<string>)
  {
    exists m :: 1 <= m < |sent| && sent[m] == LogLevelCommand && configured(n + m - 1)
  }

  /** An iteration that does not end the loop holds no successful configuration check. */
  lemma RoundWithoutConfig(confirmed: Reading, configured: Reading, n: nat)
    requires Round(confirmed, configured, n).result != 0
    ensures !ConfigSentIn(configured, n, Round(confirmed, configured, n).sent)
  {
    var s := Round(confirmed, configured, n).sent;
    forall m | 1 <= m < |s| && s[m] == LogLevelCommand
      ensures !configured(n + m - 1)
    {
      assert s == ConfirmedRound && m == 1;
    }
  }

  /** A successful configuration check after commands `a` that hold none is one of `b`. */
  lemma ConfigSentAfter(configured: Reading, n: nat, a: seq<string>, b: seq<string>)
    requires !ConfigSentIn(configured, n, a)
    requires b != [] ==> b[0] != LogLevelCommand
    ensures ConfigSentIn(configured, n, a + b) <==> ConfigSentIn(configured, n + |a|, b)
  {
    var s := a + b;
    if ConfigSentIn(configured, n, s) {
      var m :| 1 <= m < |s| && s[m] == LogLevelCommand && configured(n + m - 1);
      assert m >= |a|;
      var j := m - |a|;
      assert b[j] == s[m] && j != 0;
      assert n + |a| + j - 1 == n + m - 1;
    }
    if ConfigSentIn(configured, n + |a|, b) {
      var j :| 1 <= j < |b| && b[j] == LogLevelCommand && configured(n + |a| + j - 1);
      assert s[|a| + j] == b[j];
      assert n + (|a| + j) - 1 == n + |a| + j - 1;
    }
  }

  /** The loop returns 0 exactly when one of its configuration checks reported the
      configuration sent; otherwise -1. */
  lemma {:induction false} LoopSucceeds(confirmed: Reading, configured: Reading, n: nat, k: nat)
    ensures var out := Loop(confirmed, configured, n, k);
      (out.result == 0 || out.result == -1)
      && (out.result == 0 <==> ConfigSentIn(configured, n, out.sent))
    decreases k
  {
    var out := Loop(confirmed, configured, n, k);
    if k > 0 {
      var round := Round(confirmed, configured, n);
      if round.result == 0 {
        assert out.sent[1] == LogLevelCommand && configured(n + 1 - 1);
      } else {
        LoopSucceeds(confirmed, configured, n + |round.sent|, k - 1);
        SucceedsStep(confirmed, configured, n, k);
      }
    }
  }

  lemma SucceedsStep(confirmed: Reading, configured: Reading, n: nat, k: nat)
    requires k > 0 && Round(confirmed, configured, n).result != 0
    requires var m := n + |Round(confirmed, configured, n).sent|;
      var later := Loop(confirmed, configured, m, k - 1);
      (later.result == 0 || later.result == -1)
      && (later.result == 0 <==> ConfigSentIn(configured, m, later.sent))
    ensures var out := Loop(confirmed, configured, n, k);
      (out.result == 0 || out.result == -1)
      && (out.result == 0 <==> ConfigSentIn(configured, n, out.sent))
  {
    var round := Round(confirmed, configured, n);
    var later := Loop(confirmed, configured, n + |round.sent|, k - 1);
    FirstIsStatus(confirmed, configured, n + |round.sent|, k - 1);
    RoundWithoutConfig(confirmed, configured, n);
    LoopGoesOn(confirmed, configured, n, k);
    var out := Loop(confirmed, configured, n, k);
    SucceedsJoin(configured, n, round.sent, later.sent, later.result, out);
  }

  lemma SucceedsJoin(configured: Reading, n: nat, a: seq<string>, b: seq<string>, res: int, out: Outcome)
    requires out == Outcome(res, a + b)
    requires !ConfigSentIn(configured, n, a)
    requires b != [] ==> b[0] == StatusCommand
    requires (res == 0 || res == -1) && (res == 0 <==> ConfigSentIn(configured, n + |a|, b))
    ensures (out.result == 0 || out.result == -1)
      && (out.result == 0 <==> ConfigSentIn(configured, n, out.sent))
  {
    ConfigSentAfter(configured, n, a, b);
  }

  /** How many times `x` occurs in `s`. */
  function Occurrences(s: seq<string>, x: string): nat
  {
    if s == [] then 0 else Occurrences(s[..|s| - 1], x) + (if s[|s| - 1] == x then 1 else 0)
  }

  lemma {:induction false} OccurrencesAppend(a: seq<string>, b: seq<string>, x: string)
    ensures Occurrences(a + b, x) == Occurrences(a, x) + Occurrences(b, x)
    decreases |b|
  {
    if b == [] {
      assert a + b == a;
    } else {
      var c := b[..|b| - 1];
      assert (a + b)[..|a + b| - 1] == a + c;
      OccurrencesAppend(a, c, x);
    }
  }

  /** The number of iterations that sent `sent`: each sends one STATUS for its progress
      check and, when it confirmed the authentication, three commands for the
      configuration check, which alone sends LOG_LEVEL. */
  function ChecksMade(sent: seq<string>): int
  {
    |sent| - 3 * Occurrences(sent, LogLevelCommand)
  }

  lemma ChecksMadeAppend(a: seq<string>, b: seq<string>)
    ensures ChecksMade(a + b) == ChecksMade(a) + ChecksMade(b)
  {
    OccurrencesAppend(a, b, LogLevelCommand);
  }

  /** Every iteration is one check. */
  lemma RoundChecks(confirmed: Reading, configured: Reading, n: nat)
    ensures ChecksMade(Round(confirmed, configured, n).sent) == 1
  {
    var s1, s2, s3 := [StatusCommand], [StatusCommand, LogLevelCommand],
      [StatusCommand, LogLevelCommand, BootstrapInfoCommand];
    assert s1[..0] == [] && s2[..1] == s1 && s3[..2] == s2 && ConfirmedRound[..3] == s3;
    assert Occurrences(s1, LogLevelCommand) == 0;
    assert Occurrences(s2, LogLevelCommand) == 1;
    assert Occurrences(s3, LogLevelCommand) == 1;
    assert Occurrences(ConfirmedRound, LogLevelCommand) == 1;
  }

  /** The loop makes all `k` checks when it times out, and at least one and at most `k`
      when it succeeds. */
  lemma {:induction false} LoopChecks(confirmed: Reading, configured: Reading, n: nat, k: nat)
    ensures var out := Loop(confirmed, configured, n, k);
      (out.result == -1 ==> ChecksMade(out.sent) == k)
      && (out.result == 0 ==> 1 <= ChecksMade(out.sent) <= k)
    decreases k
  {
    if k > 0 {
      var round := Round(confirmed, configured, n);
      RoundChecks(confirmed, configured, n);
      if round.result != 0 {
        LoopChecks(confirmed, configured, n + |round.sent|, k - 1);
        ChecksStepped(confirmed, configured, n, k);
      }
    }
  }

  lemma ChecksStepped(confirmed: Reading, configured: Reading, n: nat, k: nat)
    requires k > 0 && Round(confirmed, configured, n).result != 0
    requires var later := Loop(confirmed, configured, n + |Round(confirmed, configured, n).sent|, k - 1);
      (later.result == -1 ==> ChecksMade(later.sent) == k - 1)
      && (later.result == 0 ==> 1 <= ChecksMade(later.sent) <= k - 1)
    ensures var out := Loop(confirmed, configured, n, k);
      (out.result == -1 ==> ChecksMade(out.sent) == k)
      && (out.result == 0 ==> 1 <= ChecksMade(out.sent) <= k)
  {
    var round := Round(confirmed, configured, n);
    var later := Loop(confirmed, configured, n + |round.sent|, k - 1);
    RoundChecks(confirmed, configured, n);
    ChecksMadeAppend(round.sent, later.sent);
    LoopGoesOn(confirmed, configured, n, k);
  }

  /** While the daemon never confirms the authentication, the loop makes all its checks,
      each a single STATUS, and times out. */
  lemma {:induction false} LoopWithoutConfirmation(confirmed: Reading, configured: Reading, n: nat, k: nat)
    requires forall m :: n <= m ==> !confirmed(m)
    ensures Loop(confirmed, configured, n, k) == Outcome(-1, seq(k, _ => StatusCommand))
    decreases k
  {
    if k > 0 {
      LoopWithoutConfirmation(confirmed, configured, n + 1, k - 1);
      assert [StatusCommand] + seq(k - 1, _ => StatusCommand) == seq(k, _ => StatusCommand);
    }
  }

  /** The loop returns 0 exactly when, in some iteration, the STATUS of the progress check
      confirmed the authentication and the configuration check then reported the
      configuration sent. */
  lemma LoopSucceedsAfterAuth(confirmed: Reading, configured: Reading, n: nat, k: nat)
    ensures var out := Loop(confirmed, configured, n, k);
      out.result == 0 <==>
        (exists m :: 1 <= m < |out.sent| && out.sent[m] == LogLevelCommand
           && confirmed(n + m - 1) && configured(n + m - 1))
  {
    var out := Loop(confirmed, configured, n, k);
    LoopSucceeds(confirmed, configured, n, k);
    ConfigOnlyAfterAuth(confirmed, configured, n, k);
    if out.result == 0 {
      var m :| 1 <= m < |out.sent| && out.sent[m] == LogLevelCommand && configured(n + m - 1);
      assert ConfigCheckAt(out.sent, m);
    }
  }

  // ---------------------------------------------------------------------------
  // The command
  // ---------------------------------------------------------------------------

  /** The timeout cmd_auth_monitor uses: atoi of the `timeout=` value, 30 without one. */
  function MonitorTimeout(args: Option<string>): int
  {
    var value := Args.Argument(args, Some("timeout"));
    if value.Some? then Atoi(value.value) else DefaultTimeout
  }

  /** cmd_auth_monitor: without an interface, -1 and nothing sent; otherwise the event loop
      for the given timeout, fifteen checks by default. */
  method AuthMonitor(d: Daemon, args: Option<string>) returns (r: int)
    modifies d`sent
    ensures Args.Argument(args, Some("interface")).None? ==> r == -1 && d.sent == old(d.sent)
    ensures Args.Argument(args, Some("interface")).Some? ==>
      var out := Polls(d.answer, |old(d.sent)|, Checks(MonitorTimeout(args)));
      r == out.result && d.sent == old(d.sent) + out.sent
    ensures Args.Argument(args, Some("interface")).Some? && Args.Argument(args, Some("timeout")).None? ==>
      var out := Polls(d.answer, |old(d.sent)|, 15);
      r == out.result && d.sent == old(d.sent) + out.sent
  {
    var iface := Args.Argument(args, Some("interface"));
    var timeoutStr := Args.Argument(args, Some("timeout"));
    var timeout := DefaultTimeout;
    if timeoutStr.Some? {
      timeout := Atoi(timeoutStr.value);
    }
    if iface.None? {
      return -1;
    }
    r := AuthEventLoop(d, timeout);
  }
}
