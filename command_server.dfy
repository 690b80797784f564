/**
 * The command channel of src/command_server.cpp: choosing the listening socket (an inherited
 * socket-activation descriptor, following the `sd_listen_fds` convention, or one bound at a
 * path of its own), reading one short command per connection, trimming it and dispatching it
 * to the hook its token names, and closing the listener.
 *
 * The environment, the process and user ids, the socket type test and the socket system calls
 * are answers of a `Host` record; what the code does with the system (unlink, bind, chmod,
 * listen, close, running a hook, reporting an unknown command) is appended to an effect log.
 */
module CommandServer {
  import opened Wrappers

  type uint32 = x: int | 0 <= x < 0x1_0000_0000

  /** SD_LISTEN_FDS_START: inherited descriptors are numbered from 3. */
  const ListenFdsStart: int := 3

  /** The size of the receive buffer; one byte is kept for the terminating NUL. */
  const BufferSize: nat := 256

  /** The capacity of `sockaddr_un.sun_path`, terminating NUL included. */
  const SunPathSize: nat := 108

  const SocketName: string := "/viture.sock"
  /** The permission bits of the own socket, 0600 in octal. */
  const SocketMode: nat := 384
  /** The backlog passed to listen. */
  const ListenBacklog: nat := 8
  const PreferredName: string := "viture"

  // ---- Commands ----

  /** The ten hooks the application may install. */
  datatype Hook =
    | Align | Push | Pop | ZoomInFov | ZoomOutFov | ZoomIn | ZoomOut | ShiftLeft | ShiftRight | ToggleCenterDot

  /** The token that selects each hook. */
  function Token(h: Hook): string
  {
    match h
    case Align => "align"
    case Push => "push"
    case Pop => "pop"
    case ZoomInFov => "zoom-in-fov"
    case ZoomOutFov => "zoom-out-fov"
    case ZoomIn => "zoom-in"
    case ZoomOut => "zoom-out"
    case ShiftLeft => "shift-left"
    case ShiftRight => "shift-right"
    case ToggleCenterDot => "toggle-center-dot"
  }

  /** What handling a command did: ran a hook, found the hook unset, or reported an unknown command. */
  datatype Handled = Invoked(hook: Hook) | Unset(hook: Hook) | Unknown(cmd: string)

  function Dispatch(h: Hook, installed: Hook -> bool): Handled
  {
    if installed(h) then Invoked(h) else Unset(h)
  }

  /** handle_cmd: exact comparison against each token in turn. */
  function HandleCmd(cmd: string, installed: Hook -> bool): (r: Handled)
    ensures !r.Unknown? ==> cmd == Token(r.hook)
    ensures r.Unknown? ==> r.cmd == cmd
    ensures r.Invoked? ==> installed(r.hook)
    ensures r.Unset? ==> !installed(r.hook)
  {
    if cmd == "align" then Dispatch(Align, installed)
    else if cmd == "push" then Dispatch(Push, installed)
    else if cmd == "pop" then Dispatch(Pop, installed)
    else if cmd == "zoom-in-fov" then Dispatch(ZoomInFov, installed)
    else if cmd == "zoom-out-fov" then Dispatch(ZoomOutFov, installed)
    else if cmd == "zoom-in" then Dispatch(ZoomIn, installed)
    else if cmd == "zoom-out" then Dispatch(ZoomOut, installed)
    else if cmd == "shift-left" then Dispatch(ShiftLeft, installed)
    else if cmd == "shift-right" then Dispatch(ShiftRight, installed)
    else if cmd == "toggle-center-dot" then Dispatch(ToggleCenterDot, installed)
    else Unknown(cmd)
  }

  /** Different hooks have different tokens. */
  lemma TokensAreDistinct(h: Hook, g: Hook)
    ensures Token(h) == Token(g) ==> h == g
  {
  }

  /**
   * A command selects a hook exactly when it is that hook's token, and then only that hook runs,
   * if installed; every other string, the empty one and prefixes such as "zoom" included, is
   * reported as unknown and runs nothing.
   */
  lemma HandleCmdIsExact(cmd: string, installed: Hook -> bool)
    ensures forall h :: cmd == Token(h) ==> HandleCmd(cmd, installed) == Dispatch(h, installed)
    ensures HandleCmd(cmd, installed).Unknown? <==> forall h :: cmd != Token(h)
    ensures !HandleCmd(cmd, installed).Unknown? ==> cmd == Token(HandleCmd(cmd, installed).hook)
    ensures HandleCmd(cmd, installed).Invoked? ==> installed(HandleCmd(cmd, installed).hook)
  {
    if HandleCmd(cmd, installed).Unknown? {
      forall h
        ensures cmd != Token(h)
      {
        match h
        case Align =>
        case Push =>
        case Pop =>
        case ZoomInFov =>
        case ZoomOutFov =>
        case ZoomIn =>
        case ZoomOut =>
        case ShiftLeft =>
        case ShiftRight =>
        case ToggleCenterDot =>
      }
    }
  }

  // ---- Receiving a command ----

  /** The characters the trimming loop removes from the end. */
  predicate IsTrailingSpace(c: char)
  {
    c == '\n' || c == '\r' || c == ' '
  }

  /** The string without its trailing run of newlines, carriage returns and spaces. */
  function Trimmed(s: string): (r: string)
    ensures r <= s
    ensures r == [] || !IsTrailingSpace(r[|r| - 1])
    ensures forall k :: |r| <= k < |s| ==> IsTrailingSpace(s[k])
  {
    if s != [] && IsTrailingSpace(s[|s| - 1]) then Trimmed(s[..|s| - 1]) else s
  }

  /** Trimming twice is trimming once, and a string with nothing to trim is left as it is. */
  lemma TrimIsIdempotent(s: string)
    ensures Trimmed(Trimmed(s)) == Trimmed(s)
    ensures (s == [] || !IsTrailingSpace(s[|s| - 1])) ==> Trimmed(s) == s
  {
  }

  /** Trimming keeps everything before the trailing run, leading spaces and tabs included. */
  lemma {:induction false} TrimKeepsBody(body: string, tail: string)
    requires body == [] || !IsTrailingSpace(body[|body| - 1])
    requires forall k :: 0 <= k < |tail| ==> IsTrailingSpace(tail[k])
    ensures Trimmed(body + tail) == body
  {
    if tail != [] {
      assert (body + tail)[..|body + tail| - 1] == body + tail[..|tail| - 1];
      TrimKeepsBody(body, tail[..|tail| - 1]);
    } else {
      assert body + tail == body;
    }
  }

  /** The trimming loop of cmdsrv_poll: pop the last character while it is a newline, carriage return or space. */
  method TrimTrailing(s: string) returns (t: string)
    ensures t == Trimmed(s)
  {
    t := s;
    while t != [] && IsTrailingSpace(t[|t| - 1])
      invariant Trimmed(t) == Trimmed(s)
      decreases |t|
    {
      t := t[..|t| - 1];
    }
  }

  /** std::string(buf): the characters before the first NUL. */
  function UpToNul(s: string): (r: string)
    ensures r <= s
    ensures '\0' !in r
    ensures |r| < |s| ==> s[|r|] == '\0'
  {
    if s == [] || s[0] == '\0' then [] else [s[0]] + UpToNul(s[1..])
  }

  /**
   * An accepted connection: its descriptor and the datagram waiting on it (None when recv
   * fails). A sequenced-packet recv returns at most the buffer's size less one, discarding the rest.
   */
  datatype Connection = Connection(fd: nat, datagram: Option<string>)

  function Min(a: int, b: int): int { if a <= b then a else b }

  /** What recv returns. */
  function RecvLength(c: Connection): int
  {
    match c.datagram
    case None => -1
    case Some(d) => Min(|d|, BufferSize - 1)
  }

  /** The command read from a connection: none unless recv returned a positive count. */
  function Received(c: Connection): (r: Option<string>)
    ensures r.Some? <==> RecvLength(c) > 0
    ensures r.Some? ==> |r.value| < BufferSize && '\0' !in r.value && r.value <= c.datagram.value
  {
    var n := RecvLength(c);
    if n > 0 then Some(UpToNul(c.datagram.value[..n])) else None
  }

  // ---- The effect log ----

  datatype Effect =
    | Command(handled: Handled)
    | Close(fd: int)
    | SetNonblock(fd: int)
    | Unlink(path: string)
    | Bind(fd: int, address: string)
    | Chmod(path: string, mode: nat)
    | Listen(fd: int, backlog: nat)

  /** What one accepted connection causes: its command, if one was received, then its close. */
  function ConnectionEffects(c: Connection, installed: Hook -> bool): seq<Effect>
  {
    match Received(c)
    case Some(msg) => [Command(HandleCmd(Trimmed(msg), installed)), Close(c.fd)]
    case None => [Close(c.fd)]
  }

  /** The accept loop, one connection after the other, until accept reports no more. */
  function PollEffects(conns: seq<Connection>, installed: Hook -> bool): seq<Effect>
  {
    if conns == [] then [] else PollEffects(conns[..|conns| - 1], installed) + ConnectionEffects(conns[|conns| - 1], installed)
  }

  function CloseCount(es: seq<Effect>): nat
  {
    if es == [] then 0 else CloseCount(es[..|es| - 1]) + (if es[|es| - 1].Close? then 1 else 0)
  }

  function CommandCount(es: seq<Effect>): nat
  {
    if es == [] then 0 else CommandCount(es[..|es| - 1]) + (if es[|es| - 1].Command? then 1 else 0)
  }

  lemma {:induction false} CountsOfAppend(a: seq<Effect>, b: seq<Effect>)
    ensures CloseCount(a + b) == CloseCount(a) + CloseCount(b)
    ensures CommandCount(a + b) == CommandCount(a) + CommandCount(b)
    decreases |b|
  {
    if b == [] {
      assert a + b == a;
    } else {
      assert (a + b)[..|a + b| - 1] == a + b[..|b| - 1];
      CountsOfAppend(a, b[..|b| - 1]);
    }
  }

  /** How many of the connections delivered a command. */
  function ReceivedCount(conns: seq<Connection>): nat
  {
    if conns == [] then 0 else ReceivedCount(conns[..|conns| - 1]) + (if Received(conns[|conns| - 1]).Some? then 1 else 0)
  }

  lemma ConnectionCounts(c: Connection, installed: Hook -> bool)
    ensures CloseCount(ConnectionEffects(c, installed)) == 1
    ensures CommandCount(ConnectionEffects(c, installed)) == (if Received(c).Some? then 1 else 0)
  {
    var e := ConnectionEffects(c, installed);
    if Received(c).Some? {
      var head := e[..1];
      assert e[..|e| - 1] == head && head[..0] == [];
      assert CloseCount(head) == 0 && CommandCount(head) == 1;
    } else {
      assert e[..|e| - 1] == [];
    }
  }

  /** Every accepted connection is closed. */
  lemma {:induction false} PollClosesEveryConnection(conns: seq<Connection>, installed: Hook -> bool)
    ensures forall c :: c in conns ==> Close(c.fd) in PollEffects(conns, installed)
  {
    if conns != [] {
      var init, last := conns[..|conns| - 1], conns[|conns| - 1];
      PollClosesEveryConnection(init, installed);
      assert conns == init + [last];
      assert Close(last.fd) in ConnectionEffects(last, installed);
    }
  }

  /**
   * One close per connection, and one command per connection that delivered data: at
   * most one command per connection.
   */
  lemma {:induction false} PollCounts(conns: seq<Connection>, installed: Hook -> bool)
    ensures CloseCount(PollEffects(conns, installed)) == |conns|
    ensures CommandCount(PollEffects(conns, installed)) == ReceivedCount(conns) <= |conns|
  {
    if conns != [] {
      var init, last := conns[..|conns| - 1], conns[|conns| - 1];
      PollCounts(init, installed);
      CountsOfAppend(PollEffects(init, installed), ConnectionEffects(last, installed));
      ConnectionCounts(last, installed);
    }
  }

  // ---- Choosing the socket ----

  /** What the code asks of the system, as answers. */
  datatype Host = Host(
    env: string -> Option<string>,
    pid: int,
    uid: uint32,
    isSeqpacketUnix: int -> bool,
    /** sd_listen_fds_with_names: the count it returns and the names array it fills in (None when null). */
    sdCount: int,
    sdNames: Option<seq<Option<string>>>,
    /** socket, bind and listen for the socket of its own. */
    socketFd: int,
    bindOk: bool,
    listenOk: bool)

  /** atoi's white space. */
  predicate IsSpace(c: char)
  {
    c == ' ' || c == '\t' || c == '\n' || c == '\r' || c == 11 as char || c == 12 as char
  }

  predicate IsDigit(c: char)
  {
    '0' <= c <= '9'
  }

  function DropSpaces(s: string): (r: string)
    ensures r == [] || !IsSpace(r[0])
  {
    if s != [] && IsSpace(s[0]) then DropSpaces(s[1..]) else s
  }

  /** The longest prefix of digits. */
  function LeadingDigits(s: string): (r: string)
    ensures |r| <= |s|
    ensures forall k :: 0 <= k < |r| ==> IsDigit(r[k])
  {
    if s != [] && IsDigit(s[0]) then [s[0]] + LeadingDigits(s[1..]) else []
  }

  /** The value of a string of decimal digits. */
  function DigitsValue(s: string): nat
  {
    if s == [] then 0 else 10 * DigitsValue(s[..|s| - 1]) + (if IsDigit(s[|s| - 1]) then s[|s| - 1] as int - '0' as int else 0)
  }

  /** atoi: optional white space, an optional sign, then as many digits as follow. */
  function Atoi(s: string): (r: int)
    ensures r < 0 ==> DropSpaces(s) != [] && DropSpaces(s)[0] == '-'
    ensures var t := DropSpaces(s); t == [] || !(t[0] == '-' || t[0] == '+' || IsDigit(t[0])) ==> r == 0
  {
    var t := DropSpaces(s);
    if t != [] && t[0] == '-' then 0 - DigitsValue(LeadingDigits(t[1..]))
    else if t != [] && t[0] == '+' then DigitsValue(LeadingDigits(t[1..]))
    else DigitsValue(LeadingDigits(t))
  }

  /** The decimal form of a number, as printf's %u writes it. */
  function Decimal(n: nat): (r: string)
    ensures r != [] && forall k :: 0 <= k < |r| ==> IsDigit(r[k])
  {
    if n < 10 then [DigitChar(n)] else Decimal(n / 10) + [DigitChar(n % 10)]
  }

  function DigitChar(d: nat): (c: char)
    requires d < 10
    ensures IsDigit(c) && c as int - '0' as int == d
  {
    ('0' as int + d) as char
  }

  lemma {:induction false} LeadingDigitsOfDigits(s: string)
    requires forall k :: 0 <= k < |s| ==> IsDigit(s[k])
    ensures LeadingDigits(s) == s
  {
    if s != [] {
      LeadingDigitsOfDigits(s[1..]);
    }
  }

  lemma {:induction false} DigitsValueOfDecimal(n: nat)
    ensures DigitsValue(Decimal(n)) == n
  {
    var r := Decimal(n);
    if n >= 10 {
      DigitsValueOfDecimal(n / 10);
      assert r[..|r| - 1] == Decimal(n / 10);
    } else {
      assert r[..|r| - 1] == [];
    }
  }

  /** atoi reads back what %u writes: a LISTEN_PID or LISTEN_FDS written in decimal is read as that number. */
  lemma AtoiReadsDecimal(n: nat)
    ensures Atoi(Decimal(n)) == n
  {
    LeadingDigitsOfDigits(Decimal(n));
    DigitsValueOfDecimal(n);
  }

  /** Inherited descriptor `j`, counted from SD_LISTEN_FDS_START, is a UNIX sequenced-packet socket. */
  predicate SeqpacketAt(isSeq: int -> bool, j: int)
  {
    isSeq(ListenFdsStart + j)
  }

  /** The first inherited descriptor at position `i` or later (and below `n`) that is a UNIX sequenced-packet socket, or -1. */
  function FirstSeqpacket(n: int, isSeq: int -> bool, i: nat): (r: int)
    ensures r == -1 || (i <= r - ListenFdsStart < n && isSeq(r))
    decreases n - i
  {
    if i >= n then -1
    else if isSeq(ListenFdsStart + i) then ListenFdsStart + i
    else FirstSeqpacket(n, isSeq, i + 1)
  }

  /** No descriptor before the one found (or none at all, when -1) is a sequenced-packet socket. */
  lemma {:induction false} FirstSeqpacketIsLowest(n: int, isSeq: int -> bool, i: nat)
    ensures var r := FirstSeqpacket(n, isSeq, i);
      forall j :: i <= j < n && (r == -1 || j < r - ListenFdsStart) ==> !SeqpacketAt(isSeq, j)
    decreases n - i
  {
    if i < n && !isSeq(ListenFdsStart + i) {
      FirstSeqpacketIsLowest(n, isSeq, i + 1);
    }
  }

  /** The index of the first ':' at or after `from`, or -1 (std::string::npos). */
  function Find(s: string, from: nat): (r: int)
    requires from <= |s|
    ensures r == -1 || (from <= r < |s| && s[r] == ':')
    decreases |s| - from
  {
    if from == |s| then -1 else if s[from] == ':' then from else Find(s, from + 1)
  }

  /** Find stops at the first colon: none lies between `from` and the index found (or the end, when -1). */
  lemma {:induction false} FindIsFirstColon(s: string, from: nat)
    requires from <= |s|
    ensures var r := Find(s, from);
      forall k :: from <= k < |s| && (r == -1 || k < r) ==> s[k] != ':'
    decreases |s| - from
  {
    if from < |s| && s[from] != ':' {
      FindIsFirstColon(s, from + 1);
    }
  }

  /** The colon-separated names of LISTEN_FDNAMES. */
  function Fields(s: string): (r: seq<string>)
    ensures |r| > 0
    ensures Join(r) == s
  {
    FieldsFromJoin(s, 0);
    FieldsFrom(s, 0)
  }

  /** The colon-separated names from offset `start` on. */
  function FieldsFrom(s: string, start: nat): (r: seq<string>)
    requires start <= |s|
    ensures |r| > 0
    decreases |s| - start
  {
    var k := Find(s, start);
    if k < 0 then [s[start..]] else [s[start..k]] + FieldsFrom(s, k + 1)
  }

  /** The names joined back with colons between them. */
  function Join(fs: seq<string>): string
    requires |fs| > 0
  {
    if |fs| == 1 then fs[0] else fs[0] + ":" + Join(fs[1..])
  }

  /** Splitting at the colons loses nothing: joining the names gives the variable back. */
  lemma {:induction false} FieldsFromJoin(s: string, start: nat)
    requires start <= |s|
    ensures Join(FieldsFrom(s, start)) == s[start..]
    decreases |s| - start
  {
    var fs, k := FieldsFrom(s, start), Find(s, start);
    if k >= 0 {
      var rest := FieldsFrom(s, k + 1);
      calc {
        Join(fs);
      ==  { assert fs == [s[start..k]] + rest; assert fs[1..] == rest; }
        s[start..k] + ":" + Join(rest);
      ==  { FieldsFromJoin(s, k + 1); }
        s[start..k] + ":" + s[k + 1..];
      ==  { assert s[k..] == [s[k]] + s[k + 1..]; }
        s[start..k] + s[k..];
      ==
        s[start..];
      }
    }
  }

  /** The text from `start` up to the next colon, or to the end. */
  function FirstField(s: string, start: nat): string
    requires start <= |s|
  {
    var k := Find(s, start);
    if k < 0 then s[start..] else s[start..k]
  }

  /** The first name holds no colon, since Find stops at the first one. */
  lemma FirstFieldHasNoColon(s: string, start: nat)
    requires start <= |s|
    ensures ':' !in FirstField(s, start)
  {
    var f := FirstField(s, start);
    FindIsFirstColon(s, start);
    forall j | 0 <= j < |f|
      ensures f[j] != ':'
    {
      assert f[j] == s[start + j];
    }
  }

  /** No name holds a colon. */
  lemma {:induction false} FieldsHaveNoColon(s: string, start: nat)
    requires start <= |s|
    ensures forall i :: 0 <= i < |FieldsFrom(s, start)| ==> ':' !in FieldsFrom(s, start)[i]
    decreases |s| - start
  {
    var k, fs := Find(s, start), FieldsFrom(s, start);
    FirstFieldHasNoColon(s, start);
    if k >= 0 {
      var rest := FieldsFrom(s, k + 1);
      FieldsHaveNoColon(s, k + 1);
      assert fs == [FirstField(s, start)] + rest;
      forall i | 0 <= i < |fs|
        ensures ':' !in fs[i]
      {
        if i > 0 {
          assert fs[i] == rest[i - 1];
        }
      }
    } else {
      assert fs == [FirstField(s, start)];
    }
  }

  /** The first position `j >= i`, below `n`, whose name is "viture" and whose descriptor is a sequenced-packet socket. */
  function FirstNamed(names: seq<string>, n: int, isSeq: int -> bool, i: nat): (r: int)
    ensures r == -1 || (i <= r - ListenFdsStart < n && r - ListenFdsStart < |names| &&
      names[r - ListenFdsStart] == PreferredName && isSeq(r))
    decreases |names| - i
  {
    if i >= n || i >= |names| then -1
    else if names[i] == PreferredName && isSeq(ListenFdsStart + i) then ListenFdsStart + i
    else FirstNamed(names, n, isSeq, i + 1)
  }

  /** No earlier position carries the name "viture" on a sequenced-packet socket. */
  lemma {:induction false} FirstNamedIsFirst(names: seq<string>, n: int, isSeq: int -> bool, i: nat)
    ensures var r := FirstNamed(names, n, isSeq, i);
      forall j :: i <= j < n && j < |names| && (r == -1 || j < r - ListenFdsStart) ==>
        !(names[j] == PreferredName && SeqpacketAt(isSeq, j))
    decreases |names| - i
  {
    if i < n && i < |names| && !(names[i] == PreferredName && isSeq(ListenFdsStart + i)) {
      FirstNamedIsFirst(names, n, isSeq, i + 1);
    }
  }

  /** pick_socket_fd_from_env */
  function EnvSocket(h: Host): (r: int)
    ensures r == -1 || (ListenFdsStart <= r && h.isSeqpacketUnix(r))
  {
    var fds, pid := h.env("LISTEN_FDS"), h.env("LISTEN_PID");
    if fds.None? || pid.None? || Atoi(pid.value) != h.pid then -1
    else
      var n := Atoi(fds.value);
      if n <= 0 then -1
      else
        var names := h.env("LISTEN_FDNAMES");
        var named := if names.Some? && names.value != [] then FirstNamed(Fields(names.value), n, h.isSeqpacketUnix, 0) else -1;
        if named >= 0 then named else FirstSeqpacket(n, h.isSeqpacketUnix, 0)
  }

  /**
   * The environment path yields -1 unless LISTEN_FDS and LISTEN_PID are set, the pid is this
   * process's and the count is positive; a descriptor it yields is a sequenced-packet socket
   * among the first `n` inherited ones.
   */
  lemma EnvSocketRules(h: Host)
    ensures EnvSocket(h) >= 0 ==>
      h.env("LISTEN_FDS").Some? && h.env("LISTEN_PID").Some? && Atoi(h.env("LISTEN_PID").value) == h.pid &&
      ListenFdsStart <= EnvSocket(h) < ListenFdsStart + Atoi(h.env("LISTEN_FDS").value) &&
      h.isSeqpacketUnix(EnvSocket(h))
    ensures EnvSocket(h) == -1 || EnvSocket(h) >= ListenFdsStart
    ensures (h.env("LISTEN_FDS").Some? && h.env("LISTEN_PID").Some? && Atoi(h.env("LISTEN_PID").value) == h.pid &&
             Atoi(h.env("LISTEN_FDS").value) > 0 && h.isSeqpacketUnix(ListenFdsStart) &&
             (h.env("LISTEN_FDNAMES").None? || h.env("LISTEN_FDNAMES").value == []))
            ==> EnvSocket(h) == ListenFdsStart
  {
  }

  /** The names LISTEN_FDNAMES gives the inherited descriptors; none when it is unset or empty. */
  function EnvNames(h: Host): seq<string>
  {
    var names := h.env("LISTEN_FDNAMES");
    if names.Some? && names.value != [] then Fields(names.value) else []
  }

  /**
   * With a valid LISTEN_FDS/LISTEN_PID pair, a "viture"-named sequenced-packet descriptor is
   * preferred, the lowest such; failing one, the result is the lowest sequenced-packet descriptor.
   */
  lemma EnvSocketPrefersNamed(h: Host)
    requires h.env("LISTEN_FDS").Some? && h.env("LISTEN_PID").Some? && Atoi(h.env("LISTEN_PID").value) == h.pid
    ensures var n, names, fd := Atoi(h.env("LISTEN_FDS").value), EnvNames(h), EnvSocket(h);
      (exists j :: 0 <= j < n && j < |names| && names[j] == PreferredName && SeqpacketAt(h.isSeqpacketUnix, j)) ==>
        && ListenFdsStart <= fd && fd - ListenFdsStart < |names| && names[fd - ListenFdsStart] == PreferredName
        && forall j :: 0 <= j < fd - ListenFdsStart ==> !(names[j] == PreferredName && SeqpacketAt(h.isSeqpacketUnix, j))
    ensures var n, names, fd := Atoi(h.env("LISTEN_FDS").value), EnvNames(h), EnvSocket(h);
      (forall j :: 0 <= j < n && j < |names| ==> !(names[j] == PreferredName && SeqpacketAt(h.isSeqpacketUnix, j))) ==>
        forall j :: 0 <= j < n && (fd == -1 || j < fd - ListenFdsStart) ==> !SeqpacketAt(h.isSeqpacketUnix, j)
  {
    var n, names, isSeq := Atoi(h.env("LISTEN_FDS").value), EnvNames(h), h.isSeqpacketUnix;
    if n > 0 {
      var raw := h.env("LISTEN_FDNAMES");
      if raw.Some? && raw.value != [] {
        assert EnvSocket(h) == NamedOrFirst(Fields(raw.value), n, isSeq);
      } else {
        assert FirstNamed([], n, isSeq, 0) == -1;
        assert EnvSocket(h) == NamedOrFirst([], n, isSeq);
      }
      NamedOrFirstPrefersNamed(names, n, isSeq);
    }
  }

  /** The lowest "viture"-named sequenced-packet descriptor if there is one, else the lowest sequenced-packet one. */
  function NamedOrFirst(names: seq<string>, n: int, isSeq: int -> bool): int
  {
    var named := FirstNamed(names, n, isSeq, 0);
    if named >= 0 then named else FirstSeqpacket(n, isSeq, 0)
  }

  lemma NamedOrFirstPrefersNamed(names: seq<string>, n: int, isSeq: int -> bool)
    ensures var fd := NamedOrFirst(names, n, isSeq);
      (exists j :: 0 <= j < n && j < |names| && names[j] == PreferredName && SeqpacketAt(isSeq, j)) ==>
        && ListenFdsStart <= fd && fd - ListenFdsStart < |names| && names[fd - ListenFdsStart] == PreferredName
        && forall j :: 0 <= j < fd - ListenFdsStart ==> !(names[j] == PreferredName && SeqpacketAt(isSeq, j))
    ensures var fd := NamedOrFirst(names, n, isSeq);
      (forall j :: 0 <= j < n && j < |names| ==> !(names[j] == PreferredName && SeqpacketAt(isSeq, j))) ==>
        forall j :: 0 <= j < n && (fd == -1 || j < fd - ListenFdsStart) ==> !SeqpacketAt(isSeq, j)
  {
    FirstNamedIsFirst(names, n, isSeq, 0);
    FirstSeqpacketIsLowest(n, isSeq, 0);
  }

  /** The name of inherited descriptor `i` in the systemd names array; a missing array or entry is null. */
  function SdName(names: Option<seq<Option<string>>>, i: nat): Option<string>
  {
    if names.Some? && i < |names.value| then names.value[i] else None
  }

  function FirstSdNamed(names: Option<seq<Option<string>>>, n: int, isSeq: int -> bool, i: nat): (r: int)
    ensures r == -1 || (i <= r - ListenFdsStart < n && SdName(names, r - ListenFdsStart) == Some(PreferredName) && isSeq(r))
    decreases n - i
  {
    if i >= n then -1
    else if SdName(names, i) == Some(PreferredName) && isSeq(ListenFdsStart + i) then ListenFdsStart + i
    else FirstSdNamed(names, n, isSeq, i + 1)
  }

  /** No earlier inherited descriptor is named "viture" and is a sequenced-packet socket. */
  lemma {:induction false} FirstSdNamedIsFirst(names: Option<seq<Option<string>>>, n: int, isSeq: int -> bool, i: nat)
    ensures var r := FirstSdNamed(names, n, isSeq, i);
      forall j :: i <= j < n && (r == -1 || j < r - ListenFdsStart) ==>
        !(SdName(names, j) == Some(PreferredName) && SeqpacketAt(isSeq, j))
    decreases n - i
  {
    if i < n && !(SdName(names, i) == Some(PreferredName) && isSeq(ListenFdsStart + i)) {
      FirstSdNamedIsFirst(names, n, isSeq, i + 1);
    }
  }

  /** pick_socket_fd_systemd_named_or_first */
  function SystemdSocket(h: Host): (r: int)
    ensures r == -1 || (ListenFdsStart <= r < ListenFdsStart + h.sdCount && h.isSeqpacketUnix(r))
  {
    if h.sdCount < 0 then -1
    else
      var named := FirstSdNamed(h.sdNames, h.sdCount, h.isSeqpacketUnix, 0);
      if named >= 0 then named else FirstSeqpacket(h.sdCount, h.isSeqpacketUnix, 0)
  }

  /**
   * The systemd pick prefers the lowest descriptor named "viture" that is a sequenced-packet
   * socket; only when there is none does it fall back to the lowest sequenced-packet socket.
   */
  lemma SystemdSocketPrefersNamed(h: Host)
    ensures var n, fd := h.sdCount, SystemdSocket(h);
      (exists j :: 0 <= j < n && SdName(h.sdNames, j) == Some(PreferredName) && SeqpacketAt(h.isSeqpacketUnix, j)) ==>
        && ListenFdsStart <= fd && SdName(h.sdNames, fd - ListenFdsStart) == Some(PreferredName)
        && forall j :: 0 <= j < fd - ListenFdsStart ==>
          !(SdName(h.sdNames, j) == Some(PreferredName) && SeqpacketAt(h.isSeqpacketUnix, j))
    ensures var n, fd := h.sdCount, SystemdSocket(h);
      (forall j :: 0 <= j < n ==> !(SdName(h.sdNames, j) == Some(PreferredName) && SeqpacketAt(h.isSeqpacketUnix, j))) ==>
        forall j :: 0 <= j < n && (fd == -1 || j < fd - ListenFdsStart) ==> !SeqpacketAt(h.isSeqpacketUnix, j)
  {
    FirstSdNamedIsFirst(h.sdNames, h.sdCount, h.isSeqpacketUnix, 0);
    FirstSeqpacketIsLowest(h.sdCount, h.isSeqpacketUnix, 0);
  }

  /** The inherited socket the build looks for: through libsystemd when it is linked, from the environment otherwise. */
  function Inherited(h: Host, systemd: bool): (r: int)
    ensures r == -1 || (ListenFdsStart <= r && h.isSeqpacketUnix(r))
  {
    if systemd then SystemdSocket(h) else EnvSocket(h)
  }

  /** The path of the socket of its own. */
  function SocketPath(xdgRuntimeDir: Option<string>, uid: uint32): (r: string)
    ensures |r| > |SocketName| && r[|r| - |SocketName|..] == SocketName
  {
    if xdgRuntimeDir.Some? && xdgRuntimeDir.value != [] then xdgRuntimeDir.value + SocketName
    else "/run/user/" + Decimal(uid) + SocketName
  }

  /**
   * The path always ends in "/viture.sock"; it lies in $XDG_RUNTIME_DIR when that is set and
   * non-empty, and otherwise in /run/user/ followed by the decimal uid.
   */
  lemma SocketPathShape(xdgRuntimeDir: Option<string>, uid: uint32)
    ensures var p := SocketPath(xdgRuntimeDir, uid);
      |p| >= |SocketName| && p[|p| - |SocketName|..] == SocketName &&
      (xdgRuntimeDir.Some? && xdgRuntimeDir.value != [] ==> p[..|xdgRuntimeDir.value|] == xdgRuntimeDir.value) &&
      (xdgRuntimeDir.None? || xdgRuntimeDir.value == [] ==> p[..10] == "/run/user/" && p[10..|p| - |SocketName|] == Decimal(uid))
  {
    var p := SocketPath(xdgRuntimeDir, uid);
    if xdgRuntimeDir.Some? && xdgRuntimeDir.value != [] {
      assert p == xdgRuntimeDir.value + SocketName;
    } else {
      assert p == "/run/user/" + Decimal(uid) + SocketName;
    }
  }

  /** The fallback path names the user's runtime directory and reads back as the uid. */
  lemma FallbackPathNamesUid(uid: uint32)
    ensures var p := SocketPath(None, uid);
      p[..10] == "/run/user/" && Atoi(p[10..]) == uid
  {
    var p := SocketPath(None, uid);
    var d := Decimal(uid);
    assert p[10..] == d + SocketName;
    LeadingDigitsOfDigits(d);
    assert LeadingDigits(d + SocketName) == d by {
      LeadingDigitsOfPrefix(d, SocketName);
    }
    assert DropSpaces(d + SocketName) == d + SocketName;
    DigitsValueOfDecimal(uid);
  }

  lemma {:induction false} LeadingDigitsOfPrefix(d: string, rest: string)
    requires forall k :: 0 <= k < |d| ==> IsDigit(d[k])
    requires rest == [] || !IsDigit(rest[0])
    ensures LeadingDigits(d + rest) == d
  {
    if d == [] {
      assert d + rest == rest;
    } else {
      assert (d + rest)[1..] == d[1..] + rest;
      LeadingDigitsOfPrefix(d[1..], rest);
    }
  }

  /** snprintf into sun_path: at most its capacity less the terminating NUL. */
  function Address(path: string): (r: string)
    ensures r <= path && |r| < SunPathSize
    ensures |path| < SunPathSize ==> r == path
    ensures |path| >= SunPathSize ==> |r| == SunPathSize - 1
  {
    if |path| < SunPathSize then path else path[..SunPathSize - 1]
  }

  /** cmdsrv_bind_own_socket: the descriptor (or -1) and what it did to the system. */
  function OwnSocket(h: Host): (r: (int, seq<Effect>))
    ensures r.0 >= 0 <==> h.socketFd >= 0 && h.bindOk && h.listenOk
    ensures r.0 >= 0 ==> r.0 == h.socketFd
    ensures r.0 < 0 ==> r.0 == -1
    ensures |r.1| > 0 && r.1[0] == Unlink(SocketPath(h.env("XDG_RUNTIME_DIR"), h.uid))
    ensures h.socketFd >= 0 ==> |r.1| >= 3 && r.1[1] == Bind(h.socketFd, Address(SocketPath(h.env("XDG_RUNTIME_DIR"), h.uid)))
    ensures r.0 >= 0 ==>
      && |r.1| == 5
      && r.1[2] == Chmod(SocketPath(h.env("XDG_RUNTIME_DIR"), h.uid), SocketMode)
      && r.1[3] == Listen(r.0, ListenBacklog)
    ensures r.0 >= 0 ==> r.1[|r.1| - 1] == SetNonblock(r.0)
    ensures h.socketFd >= 0 && r.0 < 0 ==> r.1[|r.1| - 1] == Close(h.socketFd)
  {
    var path := SocketPath(h.env("XDG_RUNTIME_DIR"), h.uid);
    var fd := h.socketFd;
    if fd < 0 then (-1, [Unlink(path)])
    else if !h.bindOk then (-1, [Unlink(path), Bind(fd, Address(path)), Close(fd)])
    else if !h.listenOk then (-1, [Unlink(path), Bind(fd, Address(path)), Chmod(path, SocketMode), Close(fd)])
    else (fd, [Unlink(path), Bind(fd, Address(path)), Chmod(path, SocketMode), Listen(fd, ListenBacklog), SetNonblock(fd)])
  }

  // ---- The listener ----

  /** g_listen_fd and the effect log. */
  class Server {
    var listenFd: int
    var effects: seq<Effect>

    /** The static initialiser: no listener. */
    constructor ()
      ensures listenFd == -1 && effects == []
    {
      listenFd, effects := -1, [];
    }

    /** pick_socket_fd_from_env, with the LISTEN_FDNAMES walk and the first-socket fallback as loops. */
    static method PickSocketFdFromEnv(h: Host) returns (fd: int)
      ensures fd == EnvSocket(h)
    {
      var cFds, cPid := h.env("LISTEN_FDS"), h.env("LISTEN_PID");
      if cFds.None? || cPid.None? {
        return -1;
      }
      if Atoi(cPid.value) != h.pid {
        return -1;
      }
      var n := Atoi(cFds.value);
      if n <= 0 {
        return -1;
      }
      var cNames := h.env("LISTEN_FDNAMES");
      if cNames.Some? && cNames.value != [] {
        fd := FirstNamedLoop(cNames.value, n, h.isSeqpacketUnix);
        if fd >= 0 {
          return fd;
        }
      }
      fd := FirstSeqpacketLoop(n, h.isSeqpacketUnix);
    }

    /** The LISTEN_FDNAMES walk: one colon-separated name per inherited descriptor, stopping after the last name. */
    static method FirstNamedLoop(names: string, n: int, isSeq: int -> bool) returns (fd: int)
      ensures fd == FirstNamed(Fields(names), n, isSeq, 0)
    {
      ghost var walk := NamedWalk(names, 0, n, isSeq, 0);
      assert walk == FirstNamed(Fields(names), n, isSeq, 0) by {
        NamedWalkIsFirstNamed(names, 0, Fields(names), n, isSeq, 0);
        assert FieldsFrom(names, 0) == Fields(names)[0..];
      }
      var start := 0;
      var i := 0;
      while i < n
        invariant 0 <= i && start <= |names|
        invariant walk == NamedWalk(names, start, n, isSeq, i)
        decreases n - i
      {
        var end := Find(names, start);
        var name := if end < 0 then names[start..] else names[start..end];
        if name == PreferredName {
          var cand := ListenFdsStart + i;
          if isSeq(cand) {
            return cand;
          }
        }
        if end < 0 {
          return -1;
        }
        start, i := end + 1, i + 1;
      }
      return -1;
    }

    /** The fallback loop: the lowest of the `n` inherited descriptors that is a sequenced-packet socket. */
    static method FirstSeqpacketLoop(n: int, isSeq: int -> bool) returns (fd: int)
      ensures fd == FirstSeqpacket(n, isSeq, 0)
    {
      var i := 0;
      while i < n
        invariant 0 <= i && (n >= 0 ==> i <= n)
        invariant FirstSeqpacket(n, isSeq, 0) == FirstSeqpacket(n, isSeq, i)
        decreases n - i
      {
        if isSeq(ListenFdsStart + i) {
          return ListenFdsStart + i;
        }
        i := i + 1;
      }
      return -1;
    }

    /** pick_socket_fd_systemd_named_or_first: by name first, then the first socket. */
    static method PickSocketFdSystemd(h: Host) returns (fd: int)
      ensures fd == SystemdSocket(h)
    {
      var n := h.sdCount;
      if n < 0 {
        return -1;
      }
      fd := -1;
      var i := 0;
      while i < n
        invariant 0 <= i <= n
        invariant FirstSdNamed(h.sdNames, n, h.isSeqpacketUnix, 0) == FirstSdNamed(h.sdNames, n, h.isSeqpacketUnix, i)
      {
        if SdName(h.sdNames, i) == Some(PreferredName) {
          if h.isSeqpacketUnix(ListenFdsStart + i) {
            fd := ListenFdsStart + i;
            break;
          }
        }
        i := i + 1;
      }
      if fd < 0 {
        fd := FirstSeqpacketLoop(n, h.isSeqpacketUnix);
      }
    }

    /** cmdsrv_init: an inherited socket if one is found, else a socket of its own; false only when both fail. */
    method Init(h: Host, systemd: bool) returns (ok: bool)
      modifies this
      ensures ok <==> Inherited(h, systemd) >= 0 || OwnSocket(h).0 >= 0
      ensures Inherited(h, systemd) >= 0 ==>
        listenFd == Inherited(h, systemd) && effects == old(effects) + [SetNonblock(listenFd)]
      ensures Inherited(h, systemd) < 0 ==>
        effects == old(effects) + OwnSocket(h).1 &&
        listenFd == (if OwnSocket(h).0 >= 0 then OwnSocket(h).0 else old(listenFd))
    {
      var fd: int;
      if systemd {
        fd := PickSocketFdSystemd(h);
      } else {
        fd := PickSocketFdFromEnv(h);
      }
      if fd >= 0 {
        effects := effects + [SetNonblock(fd)];
        listenFd := fd;
        return true;
      }
      var own := OwnSocket(h);
      effects := effects + own.1;
      if own.0 < 0 {
        return false;
      }
      listenFd := own.0;
      ok := true;
    }

    /** cmdsrv_poll: nothing without a listener; otherwise every pending connection, in order. */
    method Poll(conns: seq<Connection>, installed: Hook -> bool)
      modifies this
      ensures listenFd == old(listenFd)
      ensures effects == old(effects) + (if old(listenFd) < 0 then [] else PollEffects(conns, installed))
    {
      if listenFd < 0 {
        return;
      }
      ghost var before := effects;
      for i := 0 to |conns|
        invariant listenFd == old(listenFd)
        invariant effects == before + PollEffects(conns[..i], installed)
      {
        assert conns[..i + 1][..i] == conns[..i];
        Serve(conns[i], installed);
      }
      assert conns[..|conns|] == conns;
    }

    /** One accepted connection: receive, cut at the NUL, trim, dispatch, close. */
    method Serve(c: Connection, installed: Hook -> bool)
      modifies this`effects
      ensures effects == old(effects) + ConnectionEffects(c, installed)
    {
      var n := RecvLength(c);
      if n > 0 {
        var s := UpToNul(c.datagram.value[..n]);
        s := TrimTrailing(s);
        effects := effects + [Command(HandleCmd(s, installed)), Close(c.fd)];
      } else {
        effects := effects + [Close(c.fd)];
      }
    }

    /** cmdsrv_shutdown: close the listener if one is held; a second call does nothing. */
    method Shutdown()
      modifies this
      ensures listenFd < 0
      ensures old(listenFd) >= 0 ==> listenFd == -1 && effects == old(effects) + [Close(old(listenFd))]
      ensures old(listenFd) < 0 ==> listenFd == old(listenFd) && effects == old(effects)
    {
      if listenFd >= 0 {
        effects := effects + [Close(listenFd)];
        listenFd := -1;
      }
    }
  }

  /** The LISTEN_FDNAMES walk from offset `start`, which holds the name of descriptor `i`. */
  function NamedWalk(names: string, start: nat, n: int, isSeq: int -> bool, i: nat): int
    requires start <= |names|
    decreases n - i
  {
    if i >= n then -1
    else
      var end := Find(names, start);
      var name := if end < 0 then names[start..] else names[start..end];
      if name == PreferredName && isSeq(ListenFdsStart + i) then ListenFdsStart + i
      else if end < 0 then -1
      else NamedWalk(names, end + 1, n, isSeq, i + 1)
  }

  /** The walk finds what the reference search over the split names finds. */
  lemma {:induction false} NamedWalkIsFirstNamed(names: string, start: nat, fields: seq<string>, n: int, isSeq: int -> bool, i: nat)
    requires start <= |names| && i <= |fields| && FieldsFrom(names, start) == fields[i..]
    ensures NamedWalk(names, start, n, isSeq, i) == FirstNamed(fields, n, isSeq, i)
    decreases n - i
  {
    if i < n {
      var end := Find(names, start);
      NamedStep(names, start, end, fields, i);
      if fields[i] == PreferredName && isSeq(ListenFdsStart + i) {
      } else if end < 0 {
        assert FirstNamed(fields, n, isSeq, i + 1) == -1;
      } else {
        NamedWalkIsFirstNamed(names, end + 1, fields, n, isSeq, i + 1);
      }
    }
  }

  /** One round of the LISTEN_FDNAMES walk reads name `i` and leaves the names after it. */
  lemma NamedStep(names: string, start: nat, end: int, fields: seq<string>, i: nat)
    requires start <= |names| && i <= |fields| && FieldsFrom(names, start) == fields[i..]
    requires end == Find(names, start)
    ensures i < |fields|
    ensures fields[i] == (if end < 0 then names[start..] else names[start..end])
    ensures end < 0 ==> |fields| == i + 1
    ensures end >= 0 ==> FieldsFrom(names, end + 1) == fields[i + 1..]
  {
    assert fields[i..][0] == fields[i];
    assert fields[i..][1..] == fields[i + 1..];
  }
}
