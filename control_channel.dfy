/** The exchange with hostapd over its UNIX-domain control socket, and the hex encoder of
    src/dpp_hostapd_core.c. The operating system is an object whose state is the set of
    existing paths, the number of open descriptors and the list of system calls made; the
    outcome of every call that can fail is a parameter. */
module ControlChannel {
  import opened Wrappers
  import opened CStrings

  /** HOSTAPD_CLI_PATH. */
  const HostapdDir: string := "/var/run/hostapd"
  /** The size of the socket_path and local_socket_path buffers. */
  const PathBuffer: nat := 256
  /** The size of sun_path in struct sockaddr_un; strncpy copies one byte less. */
  const SunPath: nat := 108
  /** The select timeout, in seconds. */
  const TimeoutSeconds: nat := 5

  /** The system calls the exchange makes, with the arguments that matter. */
  datatype Call =
    | Access(path: string)
    | Socket
    | Unlink(path: string)
    | Bind(path: string)
    | SendTo(dest: string, msg: string)
    | Select(seconds: nat)
    | Recv(capacity: nat)
    | Close

  datatype SelectResult = Ready | TimedOut | SelectFailed

  /** How the system calls that can fail turn out, what hostapd replies and the process id. */
  datatype Outcomes = Outcomes(
    socketOk: bool, bindOk: bool, sendOk: bool, select: SelectResult, recvOk: bool,
    reply: string, pid: int)

  /** snprintf "%s/%s" into the 256-byte socket_path. */
  function SocketPath(iface: string): string
  {
    Trunc(HostapdDir + "/" + iface, PathBuffer - 1)
  }

  /** snprintf "/tmp/hostapd_cli_%d" into the 256-byte local_socket_path. */
  function LocalPath(pid: int): string
  {
    Trunc("/tmp/hostapd_cli_" + Itoa(pid), PathBuffer - 1)
  }

  /** strncpy into sun_path: at most 107 bytes of the path. */
  function SunPathOf(path: string): string
  {
    Trunc(path, SunPath - 1)
  }

  /** How many bytes recv delivers from a datagram into a buffer of `size` bytes. */
  function Received(reply: string, size: nat): (n: nat)
    requires size >= 1
    ensures n <= size - 1 && n <= |reply|
    ensures n == |reply| || n == size - 1
  {
    if |reply| <= size - 1 then |reply| else size - 1
  }

  /** The reply buffer after a successful exchange: the first `n` bytes of the datagram,
      a NUL right after them, the rest of the buffer as it was; so a C string reader sees
      the datagram up to its first NUL or its `n`-th byte. */
  predicate Delivered(after: seq<char>, before: seq<char>, reply: string, size: nat)
    requires size >= 1
  {
    var n := Received(reply, size);
    && |after| == |before| && n < |after|
    && after[..n] == reply[..n] && after[n] == '\0' && after[n + 1..] == before[n + 1..]
    && CString(after) == CString(reply[..n])
  }

  /** close(sock) then unlink(local_socket_path): the cleanup of every exit after socket(). */
  function Cleanup(local: string): seq<Call>
  {
    [Close, Unlink(local)]
  }

  /** The system calls one exchange makes, in order, given whether the destination path
      `dest` exists and how the calls turn out; `local` is the client's socket path. */
  function Script(present: bool, env: Outcomes, dest: string, local: string, cmd: string, size: nat): seq<Call>
    requires size >= 1
  {
    [Access(dest)] +
    if !present then []
    else [Socket] + if !env.socketOk then [] else BoundScript(env, dest, local, cmd, size)
  }

  /** The calls from the removal of a stale local socket file on. */
  function BoundScript(env: Outcomes, dest: string, local: string, cmd: string, size: nat): seq<Call>
    requires size >= 1
  {
    [Unlink(local), Bind(local)] +
    if !env.bindOk then Cleanup(local) else TalkScript(env, dest, local, cmd, size)
  }

  /** The calls from sendto on. */
  function TalkScript(env: Outcomes, dest: string, local: string, cmd: string, size: nat): seq<Call>
    requires size >= 1
  {
    [SendTo(SunPathOf(dest), cmd)] +
    if !env.sendOk then Cleanup(local) else AwaitScript(env, local, size)
  }

  /** The calls from select on. */
  function AwaitScript(env: Outcomes, local: string, size: nat): seq<Call>
    requires size >= 1
  {
    [Select(TimeoutSeconds)] +
    if env.select != Ready then Cleanup(local) else [Recv(size - 1)] + Cleanup(local)
  }

  /** Whether the exchange returns 0. */
  predicate Succeeds(present: bool, env: Outcomes)
  {
    present && env.socketOk && env.bindOk && env.sendOk && env.select == Ready && env.recvOk
  }

  /** The abstract operating system. */
  class Os {
    var paths: set<string>
    var openSockets: nat
    var calls: seq<Call>

    constructor (paths: set<string>)
      ensures this.paths == paths && openSockets == 0 && calls == []
    {
      this.paths := paths;
      openSockets := 0;
      calls := [];
    }

    method AccessPath(path: string) returns (ok: bool)
      modifies this`calls
      ensures ok == (path in paths)
      ensures calls == old(calls) + [Access(path)]
    {
      calls := calls + [Access(path)];
      ok := path in paths;
    }

    method OpenSocket(succeeds: bool) returns (ok: bool)
      modifies this`calls, this`openSockets
      ensures ok == succeeds
      ensures openSockets == old(openSockets) + (if ok then 1 else 0)
      ensures calls == old(calls) + [Socket]
    {
      calls := calls + [Socket];
      ok := succeeds;
      if ok {
        openSockets := openSockets + 1;
      }
    }

    method UnlinkPath(path: string)
      modifies this`calls, this`paths
      ensures paths == old(paths) - {path}
      ensures calls == old(calls) + [Unlink(path)]
    {
      calls := calls + [Unlink(path)];
      paths := paths - {path};
    }

    /** bind on a UNIX-domain socket creates the socket file. */
    method BindPath(path: string, succeeds: bool) returns (ok: bool)
      modifies this`calls, this`paths
      ensures ok == succeeds
      ensures paths == if ok then old(paths) + {path} else old(paths)
      ensures calls == old(calls) + [Bind(path)]
    {
      calls := calls + [Bind(path)];
      ok := succeeds;
      if ok {
        paths := paths + {path};
      }
    }

    method Send(dest: string, msg: string, succeeds: bool) returns (ok: bool)
      modifies this`calls
      ensures ok == succeeds
      ensures calls == old(calls) + [SendTo(dest, msg)]
    {
      calls := calls + [SendTo(dest, msg)];
      ok := succeeds;
    }

    method Wait(seconds: nat, outcome: SelectResult) returns (r: SelectResult)
      modifies this`calls
      ensures r == outcome
      ensures calls == old(calls) + [Select(seconds)]
    {
      calls := calls + [Select(seconds)];
      r := outcome;
    }

    /** recv of one datagram into `buf`, at most `capacity` bytes; -1 on failure. */
    method Receive(buf: array<char>, capacity: nat, succeeds: bool, reply: string) returns (n: int)
      requires capacity <= buf.Length
      modifies this`calls, buf
      ensures calls == old(calls) + [Recv(capacity)]
      ensures n == if succeeds then (if |reply| <= capacity then |reply| else capacity) else -1
      ensures n >= 0 ==> buf[..n] == reply[..n] && buf[n..] == old(buf[n..])
      ensures n < 0 ==> buf[..] == old(buf[..])
    {
      calls := calls + [Recv(capacity)];
      if !succeeds {
        return -1;
      }
      n := if |reply| <= capacity then |reply| else capacity;
      for j := 0 to n
        invariant calls == old(calls) + [Recv(capacity)]
        invariant buf[..j] == reply[..j]
        invariant forall i :: j <= i < buf.Length ==> buf[i] == old(buf[i])
      {
        buf[j] := reply[j];
        assert buf[..j + 1] == buf[..j] + [reply[j]];
        assert reply[..j + 1] == reply[..j] + [reply[j]];
      }
    }

    method CloseSocket()
      requires openSockets > 0
      modifies this`calls, this`openSockets
      ensures openSockets == old(openSockets) - 1
      ensures calls == old(calls) + [Close]
    {
      calls := calls + [Close];
      openSockets := openSockets - 1;
    }
  }

  /** close(sock) and unlink(local_socket_path). */
  method CloseAndUnlink(os: Os, local: string)
    requires os.openSockets > 0
    modifies os`calls, os`openSockets, os`paths
    ensures os.openSockets == old(os.openSockets) - 1
    ensures os.paths == old(os.paths) - {local}
    ensures os.calls == old(os.calls) + Cleanup(local)
  {
    os.CloseSocket();
    os.UnlinkPath(local);
  }

  /** hostapd_cli_send_command: one command, one reply, the socket closed and the local
      socket file removed on every path once the socket exists. `iface` and `cmd` are read as
      C strings: the path's `%s` and sendto's strlen stop at the first NUL. */
  method SendCommand(os: Os, iface: string, cmd: string, response: array<char>, size: nat,
                     env: Outcomes) returns (r: int)
    requires 1 <= size <= response.Length
    modifies os, response
    ensures var present := SocketPath(CString(iface)) in old(os.paths);
      && os.calls == old(os.calls)
           + Script(present, env, SocketPath(CString(iface)), LocalPath(env.pid), CString(cmd), size)
      && os.openSockets == old(os.openSockets)
      && os.paths == (if present && env.socketOk then old(os.paths) - {LocalPath(env.pid)} else old(os.paths))
      && (r == 0 <==> Succeeds(present, env))
      && (r == 0 || r == -1)
    ensures r == 0 ==> Delivered(response[..], old(response[..]), env.reply, size)
    ensures r != 0 ==> response[..] == old(response[..])
  {
    ghost var before := os.calls;
    var dest := SocketPath(CString(iface));
    var local := LocalPath(env.pid);
    var text := CString(cmd);
    var present := os.AccessPath(dest);
    if !present {
      assert Script(present, env, dest, local, text, size) == [Access(dest)];
      return -1;
    }
    var ok := os.OpenSocket(env.socketOk);
    if !ok {
      Appended(before, Access(dest), Socket, []);
      return -1;
    }
    r := Bound(os, dest, local, text, response, size, env);
    Appended(before, Access(dest), Socket, BoundScript(env, dest, local, text, size));
  }

  lemma Appended<T>(c: seq<T>, x: T, y: T, b: seq<T>)
    ensures c + [x] + [y] + b == c + ([x] + ([y] + b))
    ensures c + [x] + [y] + b == c + ([x, y] + b)
  {
  }

  lemma AppendedOne<T>(c: seq<T>, x: T, b: seq<T>)
    ensures c + [x] + b == c + ([x] + b)
  {
  }

  /** From the removal of a stale local socket file to the end, with the socket open. The
      bind is logged with `local` itself, not its strncpy copy in sun_path: the two agree for
      every 32-bit pid, since the whole path fits (LocalPathExact). */
  method Bound(os: Os, dest: string, local: string, cmd: string, response: array<char>, size: nat,
               env: Outcomes) returns (r: int)
    requires 1 <= size <= response.Length && os.openSockets > 0
    modifies os, response
    ensures os.calls == old(os.calls) + BoundScript(env, dest, local, cmd, size)
    ensures os.openSockets == old(os.openSockets) - 1
    ensures os.paths == old(os.paths) - {local}
    ensures r == (if env.bindOk && env.sendOk && env.select == Ready && env.recvOk then 0 else -1)
    ensures r == 0 ==> Delivered(response[..], old(response[..]), env.reply, size)
    ensures r != 0 ==> response[..] == old(response[..])
  {
    ghost var before := os.calls;
    os.UnlinkPath(local);
    var ok := os.BindPath(local, env.bindOk);
    if !ok {
      CloseAndUnlink(os, local);
      Appended(before, Unlink(local), Bind(local), Cleanup(local));
      return -1;
    }
    r := Talk(os, dest, local, cmd, response, size, env);
    Appended(before, Unlink(local), Bind(local), TalkScript(env, dest, local, cmd, size));
  }

  /** From sendto to the end, with the socket open and bound. */
  method Talk(os: Os, dest: string, local: string, cmd: string, response: array<char>, size: nat,
              env: Outcomes) returns (r: int)
    requires 1 <= size <= response.Length && os.openSockets > 0
    modifies os, response
    ensures os.calls == old(os.calls) + TalkScript(env, dest, local, cmd, size)
    ensures os.openSockets == old(os.openSockets) - 1
    ensures os.paths == old(os.paths) - {local}
    ensures r == (if env.sendOk && env.select == Ready && env.recvOk then 0 else -1)
    ensures r == 0 ==> Delivered(response[..], old(response[..]), env.reply, size)
    ensures r != 0 ==> response[..] == old(response[..])
  {
    ghost var before := os.calls;
    var ok := os.Send(SunPathOf(dest), cmd, env.sendOk);
    if !ok {
      CloseAndUnlink(os, local);
      AppendedOne(before, SendTo(SunPathOf(dest), cmd), Cleanup(local));
      return -1;
    }
    r := Await(os, local, response, size, env);
    AppendedOne(before, SendTo(SunPathOf(dest), cmd), AwaitScript(env, local, size));
  }

  /** From select to the end, with the command sent. */
  method Await(os: Os, local: string, response: array<char>, size: nat, env: Outcomes) returns (r: int)
    requires 1 <= size <= response.Length && os.openSockets > 0
    modifies os, response
    ensures os.calls == old(os.calls) + AwaitScript(env, local, size)
    ensures os.openSockets == old(os.openSockets) - 1
    ensures os.paths == old(os.paths) - {local}
    ensures r == (if env.select == Ready && env.recvOk then 0 else -1)
    ensures r == 0 ==> Delivered(response[..], old(response[..]), env.reply, size)
    ensures r != 0 ==> response[..] == old(response[..])
  {
    ghost var before := os.calls;
    var selected := os.Wait(TimeoutSeconds, env.select);
    if selected == SelectFailed {
      CloseAndUnlink(os, local);
      AppendedOne(before, Select(TimeoutSeconds), Cleanup(local));
      return -1;
    } else if selected == TimedOut {
      CloseAndUnlink(os, local);
      AppendedOne(before, Select(TimeoutSeconds), Cleanup(local));
      return -1;
    }
    r := Collect(os, local, response, size, env);
    Appended(before, Select(TimeoutSeconds), Recv(size - 1), Cleanup(local));
  }

  /** recv, the terminating NUL and the cleanup. */
  method Collect(os: Os, local: string, response: array<char>, size: nat, env: Outcomes) returns (r: int)
    requires 1 <= size <= response.Length && os.openSockets > 0
    modifies os, response
    ensures os.calls == old(os.calls) + [Recv(size - 1)] + Cleanup(local)
    ensures os.openSockets == old(os.openSockets) - 1
    ensures os.paths == old(os.paths) - {local}
    ensures r == (if env.recvOk then 0 else -1)
    ensures r == 0 ==> Delivered(response[..], old(response[..]), env.reply, size)
    ensures r != 0 ==> response[..] == old(response[..])
  {
    var n := os.Receive(response, size - 1, env.recvOk, env.reply);
    if n < 0 {
      CloseAndUnlink(os, local);
      return -1;
    }
    Terminate(response, n, size, env.reply, old(response[..]));
    CloseAndUnlink(os, local);
    return 0;
  }

  /** response[bytes_received] = '\0'. */
  method Terminate(response: array<char>, n: nat, size: nat, reply: string, ghost orig: seq<char>)
    requires 1 <= size <= response.Length && n == Received(reply, size)
    requires response[..n] == reply[..n]
    requires |orig| == response.Length && response[n..] == orig[n..]
    modifies response
    ensures Delivered(response[..], orig, reply, size)
  {
    response[n] := '\0';
    assert response[..n] == old(response[..n]);
    assert response[n + 1..] == old(response[n + 1..]);
    assert old(response[n + 1..]) == old(response[n..])[1..];
    assert orig[n + 1..] == orig[n..][1..];
    CStringStops(response[..], n);
    assert response[..][..n] == reply[..n];
  }

  // ---------------------------------------------------------------------------
  // What the script of calls promises

  /** Without the destination path no socket is created; when socket() fails there is
      nothing to release. */
  lemma EarlyExits(present: bool, env: Outcomes, dest: string, local: string, cmd: string, size: nat)
    requires size >= 1
    ensures !present ==> Script(present, env, dest, local, cmd, size) == [Access(dest)]
    ensures present && !env.socketOk ==> Script(present, env, dest, local, cmd, size) == [Access(dest), Socket]
  {
  }

  lemma EndsWith<T>(x: seq<T>, y: seq<T>, c: seq<T>)
    requires |y| >= |c| && y[|y| - |c|..] == c
    ensures |x + y| >= |c| && (x + y)[|x + y| - |c|..] == c
  {
    assert (x + y)[|x + y| - |c|..] == y[|y| - |c|..];
  }

  /** The calls from select on end with the cleanup. */
  lemma AwaitEnds(env: Outcomes, local: string, size: nat)
    requires size >= 1
    ensures var t := AwaitScript(env, local, size); |t| >= 3 && t[|t| - 2..] == Cleanup(local)
  {
    var c := Cleanup(local);
    var w := if env.select != Ready then c else [Recv(size - 1)] + c;
    EndsWith([Recv(size - 1)], c, c);
    EndsWith([Select(TimeoutSeconds)], w, c);
  }

  lemma TalkEnds(env: Outcomes, dest: string, local: string, cmd: string, size: nat)
    requires size >= 1
    ensures var t := TalkScript(env, dest, local, cmd, size); |t| >= 3 && t[|t| - 2..] == Cleanup(local)
  {
    var c := Cleanup(local);
    if env.sendOk {
      AwaitEnds(env, local, size);
      EndsWith([SendTo(SunPathOf(dest), cmd)], AwaitScript(env, local, size), c);
    } else {
      EndsWith([SendTo(SunPathOf(dest), cmd)], c, c);
    }
  }

  lemma BoundEnds(env: Outcomes, dest: string, local: string, cmd: string, size: nat)
    requires size >= 1
    ensures var b := BoundScript(env, dest, local, cmd, size);
      && |b| >= 4 && b[..2] == [Unlink(local), Bind(local)]
      && b[|b| - 2..] == Cleanup(local)
  {
    var c := Cleanup(local);
    var head := [Unlink(local), Bind(local)];
    if env.bindOk {
      TalkEnds(env, dest, local, cmd, size);
      EndsWith(head, TalkScript(env, dest, local, cmd, size), c);
    } else {
      EndsWith(head, c, c);
    }
  }

  /** From unlink on, close is called once, in the cleanup, and no socket is created. */
  lemma BoundCounts(env: Outcomes, dest: string, local: string, cmd: string, size: nat)
    requires size >= 1
    ensures var b := BoundScript(env, dest, local, cmd, size);
      multiset(b)[Close] == 1 && multiset(b)[Socket] == 0
  {
    var c := Cleanup(local);
    assert multiset(c)[Close] == 1 && multiset(c)[Socket] == 0;
    var a := AwaitScript(env, local, size);
    assert multiset(a)[Close] == 1 && multiset(a)[Socket] == 0;
    var t := TalkScript(env, dest, local, cmd, size);
    assert multiset(t)[Close] == 1 && multiset(t)[Socket] == 0;
  }

  /** Once the socket exists, the stale local path is removed before bind, and the
      exchange ends, whichever way, with close and the removal of the local path. */
  lemma CleanupOnEveryExit(present: bool, env: Outcomes, dest: string, local: string, cmd: string, size: nat)
    requires size >= 1 && present && env.socketOk
    ensures |Script(present, env, dest, local, cmd, size)| >= 6
    ensures Script(present, env, dest, local, cmd, size)[..4] == [Access(dest), Socket, Unlink(local), Bind(local)]
    ensures var s := Script(present, env, dest, local, cmd, size); s[|s| - 2..] == [Close, Unlink(local)]
  {
    var b := BoundScript(env, dest, local, cmd, size);
    BoundEnds(env, dest, local, cmd, size);
    ScriptOpens(present, env, dest, local, cmd, size);
    Framed(Access(dest), Socket, b, Unlink(local), Bind(local), Close, Unlink(local));
  }

  /** With the socket created, the exchange is access, socket, and the calls from unlink on. */
  lemma ScriptOpens(present: bool, env: Outcomes, dest: string, local: string, cmd: string, size: nat)
    requires size >= 1 && present && env.socketOk
    ensures Script(present, env, dest, local, cmd, size)
         == [Access(dest), Socket] + BoundScript(env, dest, local, cmd, size)
  {
    var b := BoundScript(env, dest, local, cmd, size);
    assert [Access(dest)] + ([Socket] + b) == [Access(dest), Socket] + b;
  }

  /** The one socket an exchange creates is closed exactly once. */
  lemma CloseOnce(present: bool, env: Outcomes, dest: string, local: string, cmd: string, size: nat)
    requires size >= 1 && present && env.socketOk
    ensures multiset(Script(present, env, dest, local, cmd, size))[Close] == 1
    ensures multiset(Script(present, env, dest, local, cmd, size))[Socket] == 1
  {
    var b := BoundScript(env, dest, local, cmd, size);
    BoundCounts(env, dest, local, cmd, size);
    ScriptOpens(present, env, dest, local, cmd, size);
    assert multiset([Access(dest), Socket] + b) == multiset{Access(dest), Socket} + multiset(b);
  }

  lemma Framed<T>(h0: T, h1: T, b: seq<T>, p0: T, p1: T, c0: T, c1: T)
    requires |b| >= 4 && b[..2] == [p0, p1] && b[|b| - 2..] == [c0, c1]
    ensures |[h0, h1] + b| >= 6
    ensures ([h0, h1] + b)[..4] == [h0, h1, p0, p1]
    ensures ([h0, h1] + b)[|[h0, h1] + b| - 2..] == [c0, c1]
  {
    assert ([h0, h1] + b)[|[h0, h1] + b| - 2..] == b[|b| - 2..];
  }

  /** The number of sendto calls in a list of calls. */
  function Sends(cs: seq<Call>): nat
  {
    if cs == [] then 0 else (if cs[0].SendTo? then 1 else 0) + Sends(cs[1..])
  }

  lemma {:induction false} SendsConcat(a: seq<Call>, b: seq<Call>)
    ensures Sends(a + b) == Sends(a) + Sends(b)
  {
    if a == [] {
      assert a + b == b;
    } else {
      assert (a + b)[1..] == a[1..] + b;
      SendsConcat(a[1..], b);
    }
  }

  lemma NoSendsInCleanup(local: string)
    ensures Sends(Cleanup(local)) == 0
  {
    assert Cleanup(local)[1..] == [Unlink(local)];
    assert [Unlink(local)][1..] == [];
    assert Sends([Unlink(local)]) == 0;
  }

  lemma NoSendsAfterSend(env: Outcomes, local: string, size: nat)
    requires size >= 1
    ensures Sends(AwaitScript(env, local, size)) == 0
  {
    var c := Cleanup(local);
    NoSendsInCleanup(local);
    var w := if env.select != Ready then c else [Recv(size - 1)] + c;
    SendsConcat([Recv(size - 1)], c);
    SendsConcat([Select(TimeoutSeconds)], w);
  }

  /** There is at most one sendto, never a retry, and a successful exchange made exactly
      one, after which it received once. */
  lemma OneSend(present: bool, env: Outcomes, dest: string, local: string, cmd: string, size: nat)
    requires size >= 1
    ensures Sends(Script(present, env, dest, local, cmd, size)) == if present && env.socketOk && env.bindOk then 1 else 0
    ensures Succeeds(present, env) ==>
      Recv(size - 1) in Script(present, env, dest, local, cmd, size)
  {
    var c := Cleanup(local);
    NoSendsInCleanup(local);
    if present && env.socketOk {
      var b := BoundScript(env, dest, local, cmd, size);
      if env.bindOk {
        var t := TalkScript(env, dest, local, cmd, size);
        if env.sendOk {
          NoSendsAfterSend(env, local, size);
          SendsConcat([SendTo(SunPathOf(dest), cmd)], AwaitScript(env, local, size));
        } else {
          SendsConcat([SendTo(SunPathOf(dest), cmd)], c);
        }
        SendsConcat([Unlink(local), Bind(local)], t);
      } else {
        SendsConcat([Unlink(local), Bind(local)], c);
      }
      assert Script(present, env, dest, local, cmd, size) == [Access(dest), Socket] + b;
      SendsConcat([Access(dest), Socket], b);
    }
  }

  /** The address sendto uses is `/var/run/hostapd/<interface>` for any interface name
      short enough for sun_path. */
  lemma Destination(iface: string)
    requires |iface| <= SunPath - 1 - |HostapdDir| - 1
    ensures SunPathOf(SocketPath(iface)) == "/var/run/hostapd/" + iface
  {
  }

  /** The client socket path is `/tmp/hostapd_cli_<pid>` in full for any 32-bit pid. */
  lemma LocalPathExact(pid: int)
    requires -0x8000_0000 <= pid < 0x8000_0000
    ensures LocalPath(pid) == "/tmp/hostapd_cli_" + Itoa(pid)
    ensures SunPathOf(LocalPath(pid)) == LocalPath(pid)
  {
    ItoaLength32(pid);
  }

  // ---------------------------------------------------------------------------
  // encode_hex_string_hostapd

  type Byte = x: int | 0 <= x < 256

  /** What strlen sees: the bytes before the first NUL. */
  function CBytes(s: seq<Byte>): (r: seq<Byte>)
    ensures |r| <= |s| && 0 !in r && r == s[..|r|]
    ensures |r| < |s| ==> s[|r|] == 0
  {
    if s == [] || s[0] == 0 then []
    else
      var t := CBytes(s[1..]);
      assert s[..|t| + 1] == [s[0]] + s[1..][..|t|];
      [s[0]] + t
  }

  /** "%02x": a lowercase hexadecimal digit. */
  function HexDigit(d: int): char
    requires 0 <= d < 16
  {
    "0123456789abcdef"[d]
  }

  /** The expected encoding: two digits per byte, most significant first. */
  function Hex(s: seq<Byte>): string
  {
    if s == [] then "" else Hex(s[..|s| - 1]) + [HexDigit(s[|s| - 1] / 16), HexDigit(s[|s| - 1] % 16)]
  }

  lemma HexSnoc(s: seq<Byte>, i: nat)
    requires i < |s|
    ensures Hex(s[..i + 1]) == Hex(s[..i]) + [HexDigit(s[i] / 16), HexDigit(s[i] % 16)]
  {
    var t := s[..i + 1];
    assert t[..|t| - 1] == s[..i] && t[|t| - 1] == s[i];
  }

  /** The hex digits of the encoder: characters 2i and 2i+1 are the digits of byte i. */
  lemma {:induction false} HexAt(s: seq<Byte>)
    ensures |Hex(s)| == 2 * |s|
    ensures forall i :: 0 <= i < |s| ==> Hex(s)[2 * i] == HexDigit(s[i] / 16) && Hex(s)[2 * i + 1] == HexDigit(s[i] % 16)
  {
    if s != [] {
      var p := s[..|s| - 1];
      HexAt(p);
      var last := [HexDigit(s[|s| - 1] / 16), HexDigit(s[|s| - 1] % 16)];
      assert Hex(s) == Hex(p) + last;
      forall i | 0 <= i < |s|
        ensures Hex(s)[2 * i] == HexDigit(s[i] / 16) && Hex(s)[2 * i + 1] == HexDigit(s[i] % 16)
      {
        if i < |p| {
          assert s[i] == p[i];
        }
      }
    }
  }

  lemma HexDigitInjective(a: int, b: int)
    requires 0 <= a < 16 && 0 <= b < 16 && HexDigit(a) == HexDigit(b)
    ensures a == b
  {
  }

  /** Different strings get different encodings. */
  lemma HexInjective(x: seq<Byte>, y: seq<Byte>)
    requires Hex(x) == Hex(y)
    ensures x == y
  {
    HexAt(x);
    HexAt(y);
    forall i | 0 <= i < |x|
      ensures x[i] == y[i]
    {
      assert Hex(x)[2 * i] == Hex(y)[2 * i] && Hex(x)[2 * i + 1] == Hex(y)[2 * i + 1];
      HexDigitInjective(x[i] / 16, y[i] / 16);
      HexDigitInjective(x[i] % 16, y[i] % 16);
    }
  }

  /** The sprintf of byte `i`: its two digits at `2 * i`, extending the encoding of the
      bytes before it, and the NUL after them. */
  method PutHex(hex: array<char>, s: seq<Byte>, i: nat)
    requires i < |s| && hex.Length == 2 * |s| + 1 && hex[..2 * i] == Hex(s[..i])
    modifies hex
    ensures hex[..2 * (i + 1)] == Hex(s[..i + 1])
  {
    hex[i * 2] := HexDigit(s[i] / 16);
    hex[i * 2 + 1] := HexDigit(s[i] % 16);
    hex[i * 2 + 2] := '\0';
    HexSnoc(s, i);
    assert hex[..2 * (i + 1)] == hex[..2 * i] + [hex[2 * i], hex[2 * i + 1]];
  }

  /** encode_hex_string_hostapd: NULL gives NULL, as does a failed malloc; otherwise a
      fresh buffer of 2 * strlen + 1 characters holding the encoding and a NUL. */
  method EncodeHexString(str: Option<seq<Byte>>, allocOk: bool) returns (r: Option<array<char>>)
    ensures str.None? || !allocOk ==> r.None?
    ensures str.Some? && allocOk ==>
      && r.Some? && fresh(r.value)
      && r.value.Length == 2 * |CBytes(str.value)| + 1
      && r.value[..2 * |CBytes(str.value)|] == Hex(CBytes(str.value))
      && r.value[2 * |CBytes(str.value)|] == '\0'
  {
    if str.None? {
      return None;
    }
    var s := CBytes(str.value);
    var len := |s|;
    if !allocOk {
      return None;
    }
    var hex := new char[len * 2 + 1];
    for i := 0 to len
      invariant hex[..2 * i] == Hex(s[..i])
    {
      PutHex(hex, s, i);
    }
    hex[len * 2] := '\0';
    assert s[..len] == s;
    assert hex[..2 * len] == Hex(s);
    return Some(hex);
  }
}
