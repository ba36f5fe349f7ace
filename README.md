# DPP configurator front end for hostapd, modelled in Dafny

This project models the core of a command-line DPP (Wi-Fi Easy Connect) configurator.
The tool drives hostapd through hostapd's UNIX-domain control socket. It is written in C.
The Dafny model covers six parts:

- **The association store** of `src/dpp_state_manager.c`. It is a hand-written, JSON-shaped
  text file `/tmp/dpp_configurator_state.json`, and it holds bootstrap records (id and URI)
  and configurator records (id and curve). Two things are modelled:
  - Every save reads up to 4095 bytes of the old file. It then rewrites the file as `{`, the
    copied-forward block of the *other* record kind, its own four-line block, and `}`.
  - Every load makes a nested `fgets` line scan with quote counting.

  The store is the class `Store.StateFile`. Its save and load methods write and scan step by
  step, and they are proved equal to the pure functions `Store.Saved` and `Store.Load`.
  The modules `StoreProps` and `StoreHistory` prove what loads find after sequences of saves.
- **The earlier single-record store** (the static `save_bootstrap_info` and
  `load_bootstrap_uri` of `src/dpp_operations_hostapd.c`), in `LegacyStore`.
- **The control-socket exchange** `hostapd_cli_send_command` and the hex encoder of
  `src/dpp_hostapd_core.c`, in `ControlChannel`:
  - The operating system is an object. It holds the set of existing paths, a count of open
    sockets and the log of system calls made.
  - Each system call's outcome is a parameter.
  - The proofs cover the exact call sequence on every path, and cleanup on every exit once
    the socket exists. They also show one `sendto` per call, and NUL-termination inside the
    caller's buffer.
- **`parse_argument`** of `src/utils.c`, in `Args`. It is a `strtok` loop over an array copy
  of the argument string, proved equal to a token lookup.
- **`main` and `execute_command`** of `src/main.c`, in `Cli`. This covers the argc checks,
  `-v`, the `strcat` loop that joins the arguments into a fixed-size array, and the walk
  over the `commands[]` table.
- **The command layer**, over an abstract `Daemon`, a hostapd whose answer to the `n`-th
  command is a function parameter:
  - the validation and the three-command exchange of `cmd_auth_init_real` and
    `dpp_execute_real_auth` (`src/dpp_auth_commands.c`), in `AuthCommands`;
  - the STATUS classifiers, the two-second polling loop `dpp_auth_event_loop` and
    `cmd_auth_monitor` (`src/dpp_monitoring_commands.c`), in `Monitoring`.

`CStrings` models the C library string functions the code relies on:
- `strstr` as `IndexOf`/`Contains`;
- `strchr` as `FindChar`;
- the C string an array holds, up to its first NUL, as `CString`;
- `snprintf` truncation as `Trunc`;
- `%d` as `Itoa`;
- `atoi` as `Atoi`.

Points of the code's behaviour that are easy to misread:

- A load takes the text between the **third and fourth** double quote of the field line.
- Saving the same bootstrap id twice does **not** leave a stale duplicate by itself. When the
  file holds no configurator record and no value containing `configurator_`, nothing is copied
  forward, so the second save replaces the first and a load returns the new value
  (`StoreHistory.SecondSaveLoads`). A value such as `configurator_5` is different: the save's
  `strstr` for `"configurator_` matches at the value's opening quote, and a fragment of that
  line is copied forward. The "first match
  wins" duplicate appears only when a record of the other kind was saved first: the copied
  range then runs from that record through the old block of the same kind
  (`StoreHistory.StaleFirstMatch`).
- A value is read back unchanged when it holds no quote, newline or NUL and its value line
  fits one 4095-character `fgets` read: at most 4079 characters (`StoreProps.Storable`). The
  lemmas about files holding two or three records also ask that each value has at most 1000
  characters (`StoreProps.Compact`), so that the whole file stays inside the 4095 bytes the
  next save reads with `fread`. They also ask that a value carried past a later save holds no
  `bootstrap_` or `configurator_` (`StoreProps.Plain`), for the reason above.
- A successful exchange delivers at most `response_size - 1` bytes, so a reply is cut one
  byte short of the buffer size to leave room for its NUL.
- A save copies forward the range from the first `"<other kind>_` in the file to the first
  `\n  }\n` after it. A block copied forward earlier already ends in `  },`, so the range can
  take in later blocks of either kind (`StoreHistory.ThirdCarried`). The range's last line
  becomes `  },`, and everything after it is dropped.

## Model

| member | source | states |
|---|---|---|
| Store.StateFile.SaveBootstrapInfo | src/dpp_state_manager.c:17-71 | -1 and the file untouched when it cannot be opened for writing; otherwise 0, and the file becomes `Saved(old, Bootstrap, id, CString(uri))`, the URI up to its first NUL as `%s` writes it |
| Store.StateFile.SaveConfiguratorInfo | src/dpp_state_manager.c:74-128 | the same for configurator records: -1 and the file untouched when it is not writable, else 0 and `Saved(old, Configurator, id, CString(curve))` |
| Store.StateFile.SaveRecord | src/dpp_state_manager.c:23-70 | the read-then-rewrite body shared by both saves, proved against `Saved` over a step-by-step sequence of writes |
| Store.StateFile.WriteBlock | src/dpp_state_manager.c:63-66 | the four `fprintf` calls append exactly the record's block (key line, id line, value line, `  }`) |
| Store.StateFile.Write | src/dpp_state_manager.c:43 | one `fprintf`/`fwrite` appends its text to the file contents |
| Store.KeptBlock | src/dpp_state_manager.c:46-60 | the `strstr` steps compute the copied-forward text `Carried(buffer, other kind)` |
| Store.Carried | src/dpp_state_manager.c:46-60 | what a save copies forward is empty or ends in `,\n` after a range that occurs verbatim in the old buffer |
| Store.KeptFrom | src/dpp_state_manager.c:48-58 | the range from the marker through the `\n  }` of the following block end, then `,\n`, is a verbatim range of the buffer |
| Store.KeptFromFound | src/dpp_state_manager.c:52-57 | once the block end is found at offset `e`, the kept text is the `e + 4` bytes from the marker, then `,\n` |
| Store.TakeLine | src/dpp_state_manager.c:208 | one `fgets` returns at most 4095 characters, a prefix of the rest of the file, and something whenever the file is not exhausted |
| Store.ExtractValue | src/dpp_state_manager.c:218-238 | an extracted value holds no double quote and no newline |
| Store.StateFile.LoadRecord | src/dpp_state_manager.c:193-252 | the nested `fgets` loops return exactly `Load(file, kind, id)`, and NULL when the file cannot be opened |
| Store.StateFile.LoadBootstrapUri | src/dpp_state_manager.c:193-252 | `load_bootstrap_uri` is `Load(file, Bootstrap, id)`; NULL for an absent file |
| Store.StateFile.LoadConfiguratorCurve | src/dpp_state_manager.c:131-190 | `load_configurator_curve` is `Load(file, Configurator, id)`; NULL for an absent file |
| StoreProps.SaveOnAbsentFile | src/dpp_state_manager.c:24-70 | with the file absent, a save writes exactly `{`, the record's id, value and closing lines under its key line, and `}` |
| StoreProps.RoundTripOnAbsentFile | src/dpp_state_manager.c:206-246 | on an absent file, saving `(kind, id, v)` and then loading `(kind, id)` gives back `v` when `v` has no quote, newline or NUL and at most 4079 characters, so that its value line is one `fgets` read |
| StoreProps.FreshFileLoad | src/dpp_state_manager.c:206-248 | a file holding one record whose value has no quote, newline or NUL and at most 4079 characters gives back that value for its own kind and id, and NULL for every other id of either kind (the marker's closing quote keeps `bootstrap_1` from matching `bootstrap_10`) |
| StoreProps.BlockEndAt | src/dpp_state_manager.c:52 | in text made of lines, the first `\n  }\n` is the newline that ends the line before the first `  }` line |
| StoreHistory.FileLoad | src/dpp_state_manager.c:208-248 | loading a file of whole lines scans those lines and the closing brace |
| StoreHistory.CarriedBlock | src/dpp_state_manager.c:46-60 | a save carries forward the lines from the other kind's key through the line before its first `  }` line, then `  },`, nothing else |
| StoreHistory.KeptAt | src/dpp_state_manager.c:48-58 | from the start of a block, the kept range ends at the first `  }` line, which becomes `  },` |
| StoreHistory.SaveWithoutOther | src/dpp_state_manager.c:46-60 | with no record of the other kind in what it reads, a save writes the same file as over an absent one, dropping all earlier records of its own kind |
| StoreHistory.FreshNoOther | src/dpp_state_manager.c:46 | a file holding one record with a plain value holds no record of the other kind |
| StoreHistory.CrossCarried | src/dpp_state_manager.c:103-117 | saving the other kind over a one-record file carries that whole record forward, with `  },` closing it |
| StoreHistory.CrossKindFile | src/dpp_state_manager.c:100-124 | the file after a record of one kind and then one of the other kind: the carried record, then the new block |
| StoreHistory.CrossKindFirst | src/dpp_state_manager.c:208-246 | after the cross-kind saves, the first record still loads |
| StoreHistory.CrossKindSecond | src/dpp_state_manager.c:146-186 | after the cross-kind saves, the second record loads |
| StoreHistory.CrossKind | src/dpp_state_manager.c:103-124 | on a fresh file, `save_bootstrap_info(i, x)` then `save_configurator_info(j, y)` (or the other order) leave both loadable: `x` for `i`, `y` for `j` |
| StoreHistory.SecondSaveReplaces | src/dpp_state_manager.c:46-67 | a second save of the same kind over a one-record file leaves the new record alone, so `(7, "B")` replaces `(7, "A")` |
| StoreHistory.SecondSaveLoads | src/dpp_state_manager.c:208-246 | after two saves of the same kind, the second id gives the second value and every other id, the first included when it differs, gives NULL |
| StoreHistory.ThirdCarried | src/dpp_state_manager.c:46-60 | the third save carries forward the other kind's record and, because the range runs to the first `  }` line after it, the whole earlier record of its own kind |
| StoreHistory.ThirdFile | src/dpp_state_manager.c:43-67 | the file the third save writes: both carried records, then the new block |
| StoreHistory.StaleLoad | src/dpp_state_manager.c:208-246 | after that third save, a load of its own kind meets the older block first and returns the old value |
| StoreHistory.StaleOther | src/dpp_state_manager.c:208-246 | after that third save, the other kind's record still loads |
| StoreHistory.StaleFirstMatch | src/dpp_state_manager.c:46-60 | `save_configurator_info(1, "C")`, `save_bootstrap_info(7, "A")`, `save_bootstrap_info(7, "B")` leave `load_bootstrap_uri(7) = "A"` and `load_configurator_curve(1) = "C"` |
| LegacyStore.SaveBootstrapInfo | src/dpp_operations_hostapd.c:11-47 | -1 and the file untouched when it is not writable; otherwise 0, and the file is the one-record file of `(id, CString(uri))` whatever it held before, so every save discards earlier records and saving twice with the same arguments gives the same file |
| LegacyStore.LoadBootstrapUri | src/dpp_operations_hostapd.c:50-110 | the same nested scan as the state manager's load: `Load(file, Bootstrap, id)`, NULL for an absent file |
| LegacyStore.SavedFileLoads | src/dpp_operations_hostapd.c:64-98 | after a save of `(id, uri)`, loading `id` gives `uri` (no quote, newline or NUL in it, at most 4079 characters), and any other id, or a configurator curve, gives NULL |
| ControlChannel.SendCommand | src/dpp_hostapd_core.c:18-129 | the system calls made are exactly `Script(...)`, over the interface name and the command read as C strings up to their first NUL; the open-socket count is unchanged; the local socket file is gone once a socket was created; 0 exactly when every step succeeds, else -1; on success the reply is delivered NUL-terminated inside the buffer; on failure the buffer is untouched |
| ControlChannel.Bound | src/dpp_hostapd_core.c:51-128 | from the stale-path unlink on: the socket is closed and the local path removed on every exit, and 0 exactly when bind, sendto, select and recv all succeed |
| ControlChannel.Talk | src/dpp_hostapd_core.c:75-128 | from `sendto` on: cleanup on every exit; 0 exactly when send, select and recv succeed |
| ControlChannel.Await | src/dpp_hostapd_core.c:89-128 | a `select` error and the 5-second timeout both clean up and return -1; a ready socket goes on to `recv` |
| ControlChannel.Collect | src/dpp_hostapd_core.c:114-128 | `recv` of at most `response_size - 1` bytes, then the cleanup; 0 with the reply delivered when `recv` succeeds, else -1 with the buffer untouched |
| ControlChannel.Terminate | src/dpp_hostapd_core.c:124 | writing the NUL after the received bytes leaves the buffer holding the delivered reply |
| ControlChannel.CloseAndUnlink | src/dpp_hostapd_core.c:65-66 | `close` then `unlink`: one socket fewer, the local path gone, the two calls logged |
| ControlChannel.Os.Receive | src/dpp_hostapd_core.c:115 | `recv` writes at most `capacity` bytes of the datagram and leaves the rest of the buffer unchanged; -1 on failure with the buffer unchanged |
| ControlChannel.Received | src/dpp_hostapd_core.c:115 | the byte count received is at most `response_size - 1` and the reply length, and it is the reply length unless the buffer cut it |
| ControlChannel.EarlyExits | src/dpp_hostapd_core.c:35-48 | a missing destination returns after `access` alone, before any socket exists; a failed `socket()` returns after `access` and `socket` with nothing to release |
| ControlChannel.CleanupOnEveryExit | src/dpp_hostapd_core.c:51-126 | once the socket exists, the stale local path is unlinked before `bind`, and every exit ends with `close` and the unlink of the local path |
| ControlChannel.BoundCounts | src/dpp_hostapd_core.c:54-126 | from the unlink on, `close` is called once and `socket` never |
| ControlChannel.CloseOnce | src/dpp_hostapd_core.c:43-126 | the one socket an exchange creates is closed exactly once |
| ControlChannel.OneSend | src/dpp_hostapd_core.c:77-128 | at most one `sendto`, none before a successful bind, no retry; a successful exchange sent once and then received |
| ControlChannel.Destination | src/dpp_hostapd_core.c:30 | the address `sendto` targets is `/var/run/hostapd/<interface>` for any interface name short enough for `sun_path` |
| ControlChannel.LocalPathExact | src/dpp_hostapd_core.c:51 | the client socket path is `/tmp/hostapd_cli_<pid>` in full for every 32-bit pid |
| ControlChannel.CBytes | src/dpp_hostapd_core.c:137 | `strlen` sees the bytes before the first NUL, and exactly those |
| ControlChannel.HexAt | src/dpp_hostapd_core.c:142-145 | the encoding has `2·strlen` characters, and characters `2i` and `2i+1` are the lowercase hex digits of byte `i` |
| ControlChannel.HexInjective | src/dpp_hostapd_core.c:142-145 | different strings get different encodings |
| ControlChannel.PutHex | src/dpp_hostapd_core.c:144 | one `snprintf("%02x")` extends the encoding of the bytes before `i` by the two digits of byte `i` |
| ControlChannel.EncodeHexString | src/dpp_hostapd_core.c:132-150 | NULL input, or a failed `malloc`, gives NULL; otherwise a fresh buffer of `2·strlen + 1` characters holding the encoding and a final NUL |
| Args.Pattern | src/utils.c:16-18 | the `key=` pattern fits its 64-byte buffer, and it is `key=` itself whenever the key has at most 62 characters |
| Args.WordEnd | src/utils.c:20 | a token runs to the next space or the end, with no space inside |
| Args.SkipSpaces | src/utils.c:20 | `strtok` skipping separators leaves the remaining tokens unchanged and stops on a non-space or the end |
| Args.WordSpan | src/utils.c:20 | the scan to the end of a token stops at `WordEnd` without changing the copy |
| Args.NextToken | src/utils.c:20-26 | one `strtok` call yields the next token of the text exactly when one is left, and the rest of the copy is still the text |
| Args.ParseArgument | src/utils.c:5-31 | `parse_argument` returns `Argument(args, key)` and does not modify `args`, since it tokenizes a copy |
| Args.LookupFirst | src/utils.c:21-27 | the result is the suffix after `key=` of the first token that begins with `key=`, and NULL exactly when no token does |
| Args.LookupAppend | src/utils.c:22-25 | once a token matches, later tokens are ignored |
| Args.TokensAreWords | src/utils.c:20 | every token is a non-empty run of characters of the text with no space |
| Args.ArgumentIsWord | src/utils.c:20-26 | a returned value never contains a space or a NUL |
| Args.TokensSplit | src/utils.c:20-26 | the tokens of `a + " " + b` are those of `a` followed by those of `b` |
| Args.FirstArgumentWins | src/utils.c:21-25 | in `a + " " + b`, a match in `a` wins, and `b` is searched only when `a` has none |
| Args.KeyValueFound | src/utils.c:22-23 | `key=v` alone gives `v` |
| Args.ExactKeyGivesEmpty | src/utils.c:23 | the token `key=` exactly gives the empty string |
| Args.WordWithoutKey | src/utils.c:22 | a token that does not begin with `key=` gives NULL, even when `key=` occurs inside it |
| Args.NoMidWordMatch | src/utils.c:22 | `xcurve=P-256` is no value for key `curve` |
| Cli.ExecuteCommand | src/main.c:75-87 | the table walk returns `Dispatch`: the result of the handler of the first row whose name equals `cmd`, or -1 for an unknown name |
| Cli.NamesDistinct | src/main.c:5-13 | no two handlers share a table name |
| Cli.TableRows | src/main.c:5-13 | every row's name is its handler's name, and every handler has a row |
| Cli.FindFirst | src/main.c:78-82 | the lookup returns the handler of the first row with the name, and nothing exactly when no row has it |
| Cli.FindByName | src/main.c:78-86 | a name finds handler `h` exactly when it is `h`'s name; any other name is unknown |
| Cli.TotalLength | src/main.c:46-49 | the first loop computes `total_len`: each word's length plus one |
| Cli.TotalLenPrefix | src/main.c:46-49 | a prefix of the words counts toward `total_len` no more than all of them |
| Cli.JoinLength | src/main.c:46-51 | the joined string is one character shorter than `total_len`, so `total_len + 1` bytes hold it with its NUL |
| Cli.Strcat | src/main.c:56-58 | `strcat` appends its source after the buffer's string and ends it with a new NUL |
| Cli.JoinStep | src/main.c:54-59 | each round adds a space (none before the first word) and the next word, and the string so far still fits |
| Cli.AppendWord | src/main.c:55-58 | one iteration of the `strcat` loop keeps the buffer holding the join of the words so far |
| Cli.JoinNoNul | src/main.c:53-58 | joining NUL-free words gives a NUL-free string |
| Cli.JoinAppend | src/main.c:54-59 | joining two runs of words puts exactly one space between them |
| Cli.JoinArguments | src/main.c:44-61 | `args_str` is the remaining arguments in order joined by single spaces, or NULL when `malloc` fails |
| Cli.JoinTokens | src/main.c:44-61 | splitting the joined string on spaces gives back the arguments when each is non-empty and space-free |
| Cli.RunMain | src/main.c:15-73 | `main` returns `Outcome(argv, ...)` |
| Cli.UsageWithoutCommand | src/main.c:20-42 | `argc < 2`, or `-v` with `argc < 3`, returns 1 whatever the handlers would do |
| Cli.MainReturnsHandlerResult | src/main.c:44-72 | for every argument list, `main` returns the result of the handler the command names, on the joined arguments (`""` without arguments, NULL when malloc fails), with verbose off |
| Cli.HandlerSeesArguments | src/main.c:44-64 | splitting main's joined argument string at spaces gives back the argument words when each is non-empty and space-free |
| Cli.VerboseShiftsCommand | src/main.c:33-42 | `-v` before the command does what `main` does without it, with every handler seeing verbose set |
| AuthCommands.Response | src/dpp_auth_commands.c:28 | the text left in the 4096-byte response buffer is shorter than the buffer and has no NUL |
| AuthCommands.AuthInitCommand | src/dpp_auth_commands.c:76-156 | the `DPP_AUTH_INIT` text is the chosen words joined by single spaces, cut to 511 characters, and it exists exactly when each credential's `strdup` copy (when already hex) or hex encoding succeeds |
| AuthCommands.KeptPin | src/dpp_auth_commands.c:114-155 | `matter_pin=` is appended exactly when the PIN is given and has 8 characters |
| AuthCommands.FormPrecedence | src/dpp_auth_commands.c:76-156 | `conf_json` wins whenever given; otherwise, with both `ssid` and `pass`, the credential form with their hex forms (a `strdup` copy of a credential already in hex, else its encoding), or NULL when a `strdup` or an encoding fails; otherwise the conf-only form; every form starts with `DPP_AUTH_INIT peer=… configurator=…` |
| AuthCommands.Classify | src/dpp_auth_commands.c:175-189 | the final reply gives 0 exactly when it contains "OK" or "Authentication initiated", tested before "FAIL"; anything else gives -1 |
| AuthCommands.KnownReplies | src/dpp_auth_commands.c:175-189 | "FAIL" gives -1 and "OK" gives 0 |
| AuthCommands.ExecuteRealAuth | src/dpp_auth_commands.c:21-190 | the result and the commands sent are `Exchange(...)`, on the daemon's answers and the URI loaded from the state file for the peer |
| AuthCommands.SendPeer | src/dpp_auth_commands.c:58-170 | from `DPP_QR_CODE` on, the result and the commands sent are `PeerExchange(...)` |
| AuthCommands.SendAuthInit | src/dpp_auth_commands.c:161-189 | the last send: a failed send or a non-success reply gives -1 |
| AuthCommands.ExchangeOrder | src/dpp_auth_commands.c:37-170 | `DPP_CONFIGURATOR_ADD` is always first; `DPP_QR_CODE <saved uri>` follows only after a successful add and with a saved URI; `DPP_AUTH_INIT`, built from the ids the daemon returned via `atoi`, follows only after both succeed |
| AuthCommands.ExchangeResult | src/dpp_auth_commands.c:37-189 | every result is 0 or -1; a missing URI stops after the first command with -1; 0 exactly when all three sends were made, the last succeeded, and its reply is a success |
| AuthCommands.LookupReadsIds | src/dpp_auth_commands.c:69-154 | whatever form is chosen, parse_argument's `key=` lookup over the joined DPP_AUTH_INIT words finds the ids the daemon returned earlier, never the user's ids |
| AuthCommands.SentCommandReadsIds | src/dpp_auth_commands.c:69-154 | when the joined words fit the 512-byte buffer, the same lookup over the command as sent, after the `snprintf` cut, finds those ids |
| AuthCommands.HeadReadsIds | src/dpp_auth_commands.c:78-80 | parse_argument's lookup over the joined words finds the two ids in the head, whatever words follow |
| AuthCommands.LookupReadsCredentials | src/dpp_auth_commands.c:114-126 | in the ssid/pass form, parse_argument's lookup over the joined words finds the configuration type, both credentials and the PIN, the PIN exactly when it has 8 characters |
| AuthCommands.LookupReadsConfOnly | src/dpp_auth_commands.c:143-155 | in the conf-only form, parse_argument's lookup over the joined words finds the configuration type, no ssid, and the PIN exactly when it has 8 characters |
| AuthCommands.AuthInitReal | src/dpp_auth_commands.c:193-326 | a rejected command returns -1 and sends nothing; an accepted one returns what the exchange returns and sends what it sends |
| AuthCommands.CheckAndRun | src/dpp_auth_commands.c:220-292 | the checks in the code's order: a missing or negative id, a missing interface, `conf_json` mixed with other settings, no `conf` without `conf_json`, or an invalid PIN without `conf_json` each give -1 with nothing sent; otherwise the exchange's result and commands |
| AuthCommands.AcceptedParams | src/dpp_auth_commands.c:233-266 | the checks accept exactly when: both ids are non-negative; the interface is given; exactly one of `conf_json` and `conf` is given; nothing else accompanies `conf_json`; and any PIN is valid |
| AuthCommands.ConfIsNotConfJson | src/dpp_auth_commands.c:213-218 | the `conf` lookup does not pick up a `conf_json=` token |
| Monitoring.AuthProgress | src/dpp_monitoring_commands.c:19-48 | the progress check yields 1, 0 or -1 |
| Monitoring.ProgressMeansAuthMarker | src/dpp_monitoring_commands.c:29-47 | progress (0 or 1) exactly when the send succeeded and the reply mentions `dpp_auth_`; 1 only when it mentions `dpp_auth_ok_on_ack` |
| Monitoring.CheckAuthProgress | src/dpp_monitoring_commands.c:19-48 | one STATUS is sent, and its answer is classified |
| Monitoring.ConfigStatus | src/dpp_monitoring_commands.c:51-91 | the completion check yields 1, 0 or -1 |
| Monitoring.ClassifiersOnReturnCodes | src/dpp_monitoring_commands.c:73-90 | a positive transport result never counts as a configuration; a "sent" marker wins over a pending request; 0 needs `DPP_CONF_REQ_RX` and a result of exactly 0 |
| Monitoring.CheckConfigCompletion | src/dpp_monitoring_commands.c:51-91 | `LOG_LEVEL DEBUG`, `DPP_BOOTSTRAP_INFO 1`, `STATUS` are sent in that order, and only the answer to the last decides the result |
| Monitoring.ChecksCoverTimeout | src/dpp_monitoring_commands.c:98-109 | the loop makes `ceil(timeout / 2)` checks (the fewest two-second steps covering the timeout) and none when the timeout is not positive |
| Monitoring.ChecksStep | src/dpp_monitoring_commands.c:106-109 | each two-second step uses up one check |
| Monitoring.CheckRound | src/dpp_monitoring_commands.c:111-129 | one iteration sends what `Round` sends, and ends the loop exactly when `Round` returns 0 |
| Monitoring.FirstIsStatus | src/dpp_monitoring_commands.c:106-112 | every iteration opens with STATUS, and there are none when no checks remain |
| Monitoring.LoopGoesOn | src/dpp_monitoring_commands.c:120-138 | an iteration that does not end the loop is followed by the remaining ones |
| Monitoring.RunIsLoop | src/dpp_monitoring_commands.c:106-138 | running the loop on a command log appends to it what the loop sends |
| Monitoring.AuthEventLoop | src/dpp_monitoring_commands.c:94-142 | the loop returns and sends what `Polls(answers, n, Checks(timeout))` returns and sends; `elapsed` stays a non-negative multiple of 2 |
| Monitoring.ConfigOnlyAfterAuth | src/dpp_monitoring_commands.c:112-119 | every configuration check is the full three-command check, made right after a STATUS that confirmed the authentication |
| Monitoring.LoopSucceeds | src/dpp_monitoring_commands.c:114-141 | the loop returns 0 or -1, and 0 exactly when one of its configuration checks reported the configuration sent |
| Monitoring.LoopSucceedsAfterAuth | src/dpp_monitoring_commands.c:114-141 | 0 exactly when, in some iteration, progress was 1 and the configuration check that followed gave 1; otherwise -1 after the loop |
| Monitoring.LoopChecks | src/dpp_monitoring_commands.c:106-141 | a timed-out loop made all its checks; a successful one made at least one and at most all |
| Monitoring.LoopWithoutConfirmation | src/dpp_monitoring_commands.c:106-141 | when the daemon never confirms, the loop sends one STATUS per check and times out with -1 |
| Monitoring.AuthMonitor | src/dpp_monitoring_commands.c:145-177 | without an interface, -1 and nothing sent; otherwise the event loop for the `timeout=` value, and 15 checks of the default 30 seconds without one |

## Left out

- Operating-system services are parameters of the model, not modelled themselves:
  - the `access`, `socket`, `bind`, `sendto`, `select` and `recv` outcomes, the reply datagram and the process id (`ControlChannel.Outcomes`);
  - whether the state file can be opened for reading or writing (`Store.StateFile`).
- `sleep`: time itself is not modelled. The loop counts its two-second steps in `elapsed`.
- All `printf` output is left out. That includes usage and help text, the status messages, and the bootstrap-info report in `dpp_check_config_completion` (`src/dpp_monitoring_commands.c:65-68`).
- Crash atomicity and concurrent writers of the state file are left out, because the code does nothing about them.
- Store.StateFile.SaveRecord: a failing `fprintf`/`fwrite`/`fclose` is not modelled; only opening the file for writing can fail, which is the only failure the code checks.
- StoreHistory.CrossKind, StoreHistory.SecondSaveReplaces, StoreHistory.SecondSaveLoads, StoreHistory.StaleFirstMatch: stated for values of at most 1000 characters (`Compact`) rather than the 4079 a single record allows. This keeps the two or three records inside one 4095-byte `fread`. The value that a later save searches past must also be `Plain`, since a `bootstrap_` or `configurator_` inside it is matched by that save's `strstr`.
- Store.StateFile.LoadRecord: a failing `strdup` of the extracted value is not modelled.
- Args.ParseArgument: a failing `strdup` (`src/utils.c:10-13`, `23`) is not modelled; the copy and the result are assumed allocated.
- ControlChannel.SendCommand: the printed diagnostics are left out. The buffer sizes of the paths are modelled through `Trunc` and `SunPathOf`.
- CStrings.Atoi: values out of `int` range are unbounded integers here. C leaves that overflow undefined.
- Cli.TotalLength: `size_t` overflow of `total_len` is not modelled.
- Cli.RunMain: freeing `args_str` and `dpp_configurator_deinit` are clean-up only and are not modelled.
- Monitoring.AuthEventLoop: `elapsed` is an unbounded integer. The C `int` overflow of `elapsed += 2` for a timeout of 2147483647 is not modelled.
- Helpers that are not shown in the source appear as uninterpreted function parameters: `is_hex_string`, the extern `encode_hex_string`, `is_valid_matter_pin`, and the command handlers the table points at. The outcome of `strdup` on an already-hex credential is one too (`Duplicate`).
- AuthCommands.AuthInitReal: the interface name is checked for presence but not passed on. The `Daemon` stands for the one hostapd behind it, and its answers are an abstract function of the command's position and text. The socket-level exchange is the separate `ControlChannel.SendCommand`, which returns 0 or -1.
- hostapd's own parser of DPP_AUTH_INIT is not part of this model. The read-back lemmas (`AuthCommands.LookupReadsIds` and the ones beside it) use this program's `parse_argument` lookup (`Args.Argument`) as the reading of a `key=value` command.
- The hostapd library wrappers are thin calls into code that is not part of this model: the `cmd_*` handlers of `src/dpp_operations_hostapd.c` and `src/dpp_basic_commands.c`.
- Outside the core and not modelled:
  - `src/dpp_diagnostic_commands.c`, a fixed script of sends and prints;
  - the print-only stubs of `src/dpp_operations.c`;
  - the help text;
  - `src/hostapd_stubs.c`;
  - the header declarations.
