/**
 * The host's session with the engine: the counter that names result
 * variables, the connection flag, the command timeout, the cached variable
 * names and the default region, together with the commands written to the
 * engine and the replies still to come.
 *
 * Each read of a reply consumes the next entry of `incoming`, which holds what
 * the reader will see for it (the pipe polls on Unix, the output-file views on
 * Windows). A reply that raises an out-of-memory error resets the connection,
 * which reconnects and reads again; the specification functions below follow
 * that recursion, and the class's methods are proved to match them.
 */
module Session {
  import opened Text
  import opened Outcomes
  import opened Protocol
  import opened Framing

  /** What the reader sees for one reply: its start time and the polls (Unix) or file views (Windows). */
  datatype Wire = Wire(t0: int, polls: seq<Poll>, views: seq<FileRead>)

  /** How an operation ends: a value, an exception, or no verdict before the replies ran out. */
  datatype Outcome<+T> = Done(value: T) | Threw(failure: Failure) | Pending

  /** The frame a reply produces, by the reader of the operating system. */
  function Reply(os: string, cmdTimeout: int, w: Wire): Frame {
    if os == "windows" then RunFile(w.t0, w.views) else Run(Start(cmdTimeout, w.t0), w.polls)
  }

  /** The session's fields, as a value. */
  datatype State = State(
    varCount: nat,
    connected: bool,
    cmdTimeout: int,
    os: string,
    defaultRegion: Option<string>,
    cachedVars: seq<string>,
    sent: seq<string>,
    incoming: seq<Wire>,
    canSpawn: bool,
    outputFile: string)

  /** The fields that reads, connects and disconnects never touch. */
  predicate Settled(s: State, t: State) {
    t.cmdTimeout == s.cmdTimeout && t.os == s.os && t.defaultRegion == s.defaultRegion
    && t.cachedVars == s.cachedVars && t.canSpawn == s.canSpawn && t.outputFile == s.outputFile
  }

  /** Commands are only ever appended to what was written. */
  predicate Grows(s: State, t: State) {
    s.sent <= t.sent
  }

  const DefaultCmdTimeout := 15
  const ExitCmd := "exit()\n"
  const SpawnFailure := PHPSikuliException("Failed to connect to Sikuli")

  /** The command that sends the engine's output to the output file on Windows. */
  function RedirectCmd(path: string): string {
    "sys.stdout = sys.stderr = open(\"" + path + "\", \"w\", 1000)"
  }

  /** The state after `construct`, before it connects. */
  function Initial(uname: string, canSpawn: bool, outputFile: string, incoming: seq<Wire>): State {
    State(0, false, DefaultCmdTimeout, OsName(uname), None, [], [], incoming, canSpawn, outputFile)
  }

  /** Writing one command to the engine's input, with the sentinel that ends its reply. */
  function Write(s: State, cmd: string): (t: State)
    ensures t.sent == s.sent + [cmd + SentinelSuffix]
  {
    s.(sent := s.sent + [cmd + SentinelSuffix])
  }

  /** `disconnect`: `exit()` is written and the flag cleared. */
  function DisconnectS(s: State): State {
    s.(sent := s.sent + [ExitCmd], connected := false)
  }

  function Forward<T, U>(o: Outcome<T>, v: U): Outcome<U> {
    match o
    case Done(_) => Done(v)
    case Threw(f) => Threw(f)
    case Pending => Pending
  }

  /**
   * `_getStreamOutput`: one reply is consumed. An error reply raises; when it
   * reports an out-of-memory error the connection is reset first, and an
   * exception from the reset replaces the reply's.
   */
  function ReadS(s: State): (res: (State, Outcome<string>))
    ensures |res.0.incoming| <= |s.incoming| && Settled(s, res.0)
    ensures Grows(s, res.0)
    ensures res.1.Done? ==> |s.incoming| > 0 && res.0 == s.(incoming := s.incoming[1..])
    decreases |s.incoming|, 0
  {
    if |s.incoming| == 0 then (s, Pending)
    else
      var s1 := s.(incoming := s.incoming[1..]);
      match Reply(s.os, s.cmdTimeout, s.incoming[0])
      case Output(text) => (s1, Done(text))
      case Unfinished => (s1, Pending)
      case Raised(f, reset) =>
        if !reset then (s1, Threw(f))
        else
          var r := ConnectS(DisconnectS(s1));
          (r.0, match r.1 case Done(_) => Threw(f) case Threw(g) => Threw(g) case Pending => Pending)
  }

  /** `sendCmd`: the command is written; on Windows its reply is read at once. */
  function SendCmdS(s: State, cmd: string): (res: (State, Outcome<Option<string>>))
    ensures |res.0.incoming| <= |s.incoming| && Settled(s, res.0)
    ensures Grows(s, res.0)
    ensures res.1.Done? ==> res.0.varCount == s.varCount && res.0.connected == s.connected
    ensures res.1.Done? ==> res.0.sent == s.sent + [cmd + SentinelSuffix]
    ensures res.1.Done? ==> (res.1.value.Some? <==> s.os == "windows")
    decreases |s.incoming|, 1
  {
    var s1 := Write(s, cmd);
    if s.os == "windows" then
      var r := ReadS(s1);
      (r.0, match r.1 case Done(text) => Done(Some(text)) case Threw(f) => Threw(f) case Pending => Pending)
    else (s1, Done(None))
  }

  /** A command followed by a read of its reply (`setSetting`, the setup commands, `clearVars`). */
  function CommandS(s: State, cmd: string): (res: (State, Outcome<string>))
    ensures |res.0.incoming| <= |s.incoming| && Settled(s, res.0)
    ensures Grows(s, res.0)
    ensures res.1.Done? ==> res.0.varCount == s.varCount && res.0.connected == s.connected
    ensures res.1.Done? ==> res.0.sent == s.sent + [cmd + SentinelSuffix]
    decreases |s.incoming|, 2
  {
    var a := SendCmdS(s, cmd);
    if !a.1.Done? then (a.0, Forward(a.1, ""))
    else ReadS(a.0)
  }

  const OcrSetting := "Settings.OcrTextSearch = True"
  const FreshVars := "PHPSikuliVars = {}"

  /**
   * `connect`: nothing when connected; otherwise the counter restarts, the
   * engine is started, and the setup commands are sent, each awaiting its reply.
   */
  function ConnectS(s: State): (res: (State, Outcome<()>))
    ensures |res.0.incoming| <= |s.incoming| && Settled(s, res.0)
    ensures Grows(s, res.0)
    ensures res.1.Done? ==> res.0.connected && (s.connected || res.0.varCount == 0)
    decreases |s.incoming|, 4
  {
    if s.connected then (s, Done(()))
    else
      var s0 := s.(varCount := 0);
      if !s0.canSpawn then (s0, Threw(SpawnFailure))
      else SetupS(s0)
  }

  /** The setup after the engine starts: the banner (or the output redirection), then the two setup commands. */
  function SetupS(s: State): (res: (State, Outcome<()>))
    ensures |res.0.incoming| <= |s.incoming| && Settled(s, res.0)
    ensures Grows(s, res.0)
    ensures res.1.Done? ==> res.0.connected && res.0.varCount == s.varCount
    decreases |s.incoming|, 3
  {
    var a := if s.os == "windows" then (var r := SendCmdS(s, RedirectCmd(s.outputFile)); (r.0, Forward(r.1, "")))
             else ReadS(s);
    if !a.1.Done? then (a.0, Forward(a.1, ()))
    else
      var b := CommandS(a.0, OcrSetting);
      if !b.1.Done? then (b.0, Forward(b.1, ()))
      else
        var c := CommandS(b.0, FreshVars);
        if !c.1.Done? then (c.0, Forward(c.1, ()))
        else (c.0.(connected := true), Done(()))
  }

  /** `resetConnection`. */
  function ResetS(s: State): (res: (State, Outcome<()>))
    ensures |res.0.incoming| <= |s.incoming| && Settled(s, res.0)
    ensures Grows(s, res.0)
  {
    ConnectS(DisconnectS(s))
  }

  /**
   * `callFunc`: an assigning call takes the next variable number; the call
   * line is sent, its reply read, and either the reply or the variable's
   * reference is returned.
   */
  function CallFuncS(s: State, name: string, args: ArgList, obj: Option<string>, assign: bool): (res: (State, Outcome<string>))
    ensures Settled(s, res.0)
    ensures Grows(s, res.0)
  {
    var n := s.varCount + 1;
    var v := if assign then Some(VarRef(n)) else None;
    var s1 := if assign then s.(varCount := n) else s;
    ConcludeS(SendCmdS(s1, CallLine(name, args, obj, v)), s.os, v)
  }

  /**
   * The end of `callFunc` once the line is sent: off Windows the reply is
   * read now. The result is the variable's reference `v` when there is one,
   * else the reply.
   */
  function ConcludeS(a: (State, Outcome<Option<string>>), os: string, v: Option<string>): (res: (State, Outcome<string>))
    ensures Settled(a.0, res.0)
    ensures Grows(a.0, res.0)
  {
    if !a.1.Done? then (a.0, Forward(a.1, ""))
    else if os != "windows" then
      var r := ReadS(a.0);
      (r.0, match r.1 case Done(text) => Done(v.GetOr(text)) case Threw(f) => Threw(f) case Pending => Pending)
    else
      (a.0, Done(v.GetOr(a.1.value.GetOr(""))))
  }

  /** `callFunc` in two steps: the line is sent with the counter taken, then `ConcludeS` ends the call. */
  lemma CallFuncSteps(s: State, name: string, args: ArgList, obj: Option<string>, assign: bool,
                      s1: State, v: Option<string>, line: string)
    requires v == if assign then Some(VarRef(s.varCount + 1)) else None
    requires s1 == if assign then s.(varCount := s.varCount + 1) else s
    requires line == CallLine(name, args, obj, v)
    ensures CallFuncS(s, name, args, obj, assign) == ConcludeS(SendCmdS(s1, line), s.os, v)
  {
  }

  /** `setSikuliCMDTimeout`: the new timeout, and the old one to give back. */
  function SetCmdTimeoutS(s: State, seconds: int): (res: (State, int)) {
    (s.(cmdTimeout := seconds), s.cmdTimeout)
  }

  // ---------------------------------------------------------------------
  // Session properties

  /** Connecting a connected session changes nothing. */
  lemma ConnectWhenConnected(s: State)
    requires s.connected
    ensures ConnectS(s) == (s, Done(()))
  {
  }

  /** A successful call consumes exactly one reply, on either operating system, and writes exactly its line. */
  lemma CallFuncDone(s: State, name: string, args: ArgList, obj: Option<string>, assign: bool)
    requires CallFuncS(s, name, args, obj, assign).1.Done?
    ensures var res := CallFuncS(s, name, args, obj, assign);
            |s.incoming| > 0 && res.0.incoming == s.incoming[1..]
            && res.0.sent == s.sent + [CallLine(name, args, obj, if assign then Some(VarRef(s.varCount + 1)) else None) + SentinelSuffix]
            && res.0.connected == s.connected
            && res.0.varCount == (if assign then s.varCount + 1 else s.varCount)
            && (assign ==> res.1.value == VarRef(s.varCount + 1))
  {
    var n := s.varCount + 1;
    var v := if assign then Some(VarRef(n)) else None;
    var s1 := if assign then s.(varCount := n) else s;
    var a := SendCmdS(s1, CallLine(name, args, obj, v));
    if s.os != "windows" {
      assert a.0 == Write(s1, CallLine(name, args, obj, v));
      var r := ReadS(a.0);
      assert r.1.Done?;
    } else {
      assert ReadS(Write(s1, CallLine(name, args, obj, v))).1.Done?;
    }
  }

  /** A non-assigning call returns the reply text. */
  lemma CallFuncReturnsReply(s: State, name: string, args: ArgList, obj: Option<string>, text: string)
    requires |s.incoming| > 0 && Reply(s.os, s.cmdTimeout, s.incoming[0]) == Output(text)
    ensures CallFuncS(s, name, args, obj, false).1 == Done(text)
  {
    var w := Write(s, CallLine(name, args, obj, None));
    assert w.incoming == s.incoming && w.os == s.os && w.cmdTimeout == s.cmdTimeout;
    assert ReadS(w).1 == Done(text);
  }

  /** Two successful assigning calls in a row issue different names, numbered one after the other. */
  lemma SuccessiveNamesDiffer(s: State, n1: string, a1: ArgList, o1: Option<string>, n2: string, a2: ArgList, o2: Option<string>)
    requires CallFuncS(s, n1, a1, o1, true).1.Done?
    requires CallFuncS(CallFuncS(s, n1, a1, o1, true).0, n2, a2, o2, true).1.Done?
    ensures var first := CallFuncS(s, n1, a1, o1, true);
            var second := CallFuncS(first.0, n2, a2, o2, true);
            first.1.value == VarRef(s.varCount + 1) && second.1.value == VarRef(s.varCount + 2)
            && first.1.value != second.1.value
  {
    var first := CallFuncS(s, n1, a1, o1, true);
    CallFuncDone(s, n1, a1, o1, true);
    CallFuncDone(first.0, n2, a2, o2, true);
    VarRefInjective(s.varCount + 1, s.varCount + 2);
  }

  /** After a successful (re)connect, the first assigning call is named `var_1`. */
  lemma NumberingRestartsOnConnect(s: State, name: string, args: ArgList, obj: Option<string>)
    requires !s.connected && ConnectS(s).1.Done?
    requires CallFuncS(ConnectS(s).0, name, args, obj, true).1.Done?
    ensures CallFuncS(ConnectS(s).0, name, args, obj, true).1.value == VarRef(1)
  {
    var c := ConnectS(s).0;
    assert c.varCount == 0;
    CallFuncDone(c, name, args, obj, true);
  }

  /** An error reply without the out-of-memory mark raises it and leaves the connection alone. */
  lemma ErrorReplyRaises(s: State, f: Failure)
    requires |s.incoming| > 0 && Reply(s.os, s.cmdTimeout, s.incoming[0]) == Raised(f, false)
    ensures ReadS(s) == (s.(incoming := s.incoming[1..]), Threw(f))
  {
  }

  /**
   * An out-of-memory error reply writes `exit()`, reconnects, and then raises
   * the reply's exception, or the reconnect's when that fails.
   */
  lemma OutOfMemoryResets(s: State, f: Failure)
    requires |s.incoming| > 0 && Reply(s.os, s.cmdTimeout, s.incoming[0]) == Raised(f, true)
    ensures var res := ReadS(s);
            |s.sent| < |res.0.sent| && res.0.sent[..|s.sent| + 1] == s.sent + [ExitCmd]
            && (ConnectS(DisconnectS(s.(incoming := s.incoming[1..]))).1.Done? ==>
                  res.1 == Threw(f) && res.0.connected && res.0.varCount == 0)
  {
    var d := DisconnectS(s.(incoming := s.incoming[1..]));
    var c := ConnectS(d);
    assert Grows(d, c.0);
    assert d.sent == s.sent + [ExitCmd];
    assert c.0.sent[..|s.sent| + 1] == c.0.sent[..|d.sent|];
  }

  /** Giving the timeout `setSikuliCMDTimeout` returned back restores the session. */
  lemma SetCmdTimeoutRestores(s: State, seconds: int)
    ensures var (t, previous) := SetCmdTimeoutS(s, seconds);
            SetCmdTimeoutS(t, previous).0 == s && t.cmdTimeout == seconds
  {
  }

  // ---------------------------------------------------------------------
  // The session object

  class Session {
    var varCount: nat
    var connected: bool
    var cmdTimeout: int
    var os: string
    var defaultRegion: Option<string>
    var cachedVars: seq<string>
    /** Everything written to the engine's input, in order. */
    var sent: seq<string>
    /** What the reader will see for each reply still to come. */
    var incoming: seq<Wire>
    /** Whether the engine process starts when asked. */
    const canSpawn: bool
    /** The output file the engine writes to on Windows. */
    const outputFile: string

    function Snapshot(): State
      reads this
    {
      State(varCount, connected, cmdTimeout, os, defaultRegion, cachedVars, sent, incoming, canSpawn, outputFile)
    }

    /** The fields as `construct` leaves them before connecting; `getOS` is computed once from the system name. */
    constructor (uname: string, canSpawn: bool, outputFile: string, incoming: seq<Wire>)
      ensures Snapshot() == Initial(uname, canSpawn, outputFile, incoming)
    {
      varCount := 0;
      connected := false;
      cmdTimeout := DefaultCmdTimeout;
      os := OsName(uname);
      defaultRegion := None;
      cachedVars := [];
      sent := [];
      this.incoming := incoming;
      this.canSpawn := canSpawn;
      this.outputFile := outputFile;
    }

    method Read() returns (r: Outcome<string>)
      modifies this
      ensures (Snapshot(), r) == ReadS(old(Snapshot()))
      decreases |incoming|, 0
    {
      if |incoming| == 0 {
        return Pending;
      }
      var w := incoming[0];
      incoming := incoming[1..];
      var frame: Frame;
      if os == "windows" {
        frame := GetStreamOutputWindows(w.t0, w.views);
      } else {
        frame := GetStreamOutput(cmdTimeout, w.t0, w.polls);
      }
      match frame {
        case Output(text) => r := Done(text);
        case Unfinished => r := Pending;
        case Raised(f, reset) =>
          r := Threw(f);
          if reset {
            var c := ResetConnection();
            if !c.Done? {
              r := match c case Threw(g) => Threw(g) case _ => Pending;
            }
          }
      }
    }

    method SendCmd(cmd: string) returns (r: Outcome<Option<string>>)
      modifies this
      ensures (Snapshot(), r) == SendCmdS(old(Snapshot()), cmd)
      decreases |incoming|, 1
    {
      sent := sent + [cmd + SentinelSuffix];
      if os == "windows" {
        var t := Read();
        r := match t case Done(text) => Done(Some(text)) case Threw(f) => Threw(f) case Pending => Pending;
      } else {
        r := Done(None);
      }
    }

    method Command(cmd: string) returns (r: Outcome<string>)
      modifies this
      ensures (Snapshot(), r) == CommandS(old(Snapshot()), cmd)
      decreases |incoming|, 2
    {
      var a := SendCmd(cmd);
      if !a.Done? {
        return Forward(a, "");
      }
      r := Read();
    }

    method Connect() returns (r: Outcome<()>)
      modifies this
      ensures (Snapshot(), r) == ConnectS(old(Snapshot()))
      decreases |incoming|, 3
    {
      if connected {
        return Done(());
      }
      varCount := 0;
      if !canSpawn {
        return Threw(SpawnFailure);
      }
      var a: Outcome<string>;
      if os == "windows" {
        var w := SendCmd(RedirectCmd(outputFile));
        a := Forward(w, "");
      } else {
        a := Read();
      }
      if !a.Done? {
        return Forward(a, ());
      }
      var b := Command(OcrSetting);
      if !b.Done? {
        return Forward(b, ());
      }
      var c := Command(FreshVars);
      if !c.Done? {
        return Forward(c, ());
      }
      connected := true;
      r := Done(());
    }

    method Disconnect()
      modifies this
      ensures Snapshot() == DisconnectS(old(Snapshot()))
    {
      sent := sent + [ExitCmd];
      connected := false;
    }

    method ResetConnection() returns (r: Outcome<()>)
      modifies this
      ensures (Snapshot(), r) == ResetS(old(Snapshot()))
      decreases |incoming|, 4
    {
      Disconnect();
      r := Connect();
    }

    method SetCmdTimeout(seconds: int) returns (previous: int)
      modifies this
      ensures (Snapshot(), previous) == SetCmdTimeoutS(old(Snapshot()), seconds)
    {
      previous := cmdTimeout;
      cmdTimeout := seconds;
    }

    method SetDefaultRegion(region: Option<string>)
      modifies this
      ensures Snapshot() == old(Snapshot()).(defaultRegion := region)
    {
      defaultRegion := region;
    }

    method CallFunc(name: string, args: ArgList, obj: Option<string>, assign: bool) returns (r: Outcome<string>)
      modifies this
      ensures (Snapshot(), r) == CallFuncS(old(Snapshot()), name, args, obj, assign)
    {
      ghost var s0 := Snapshot();
      var v: Option<string> := None;
      var n := varCount + 1;
      if assign {
        varCount := n;
        v := Some(VarRef(n));
      }
      ghost var s1 := Snapshot();
      assert s1 == if assign then s0.(varCount := n) else s0;
      var cmdArgs := RenderCallArgs(args);
      var line := (if v.Some? then v.value + " = " else "") + (if obj.Some? then obj.value + "." else "")
                  + name + "(" + Join(cmdArgs, ", ") + ")";
      assert line == CallLine(name, args, obj, v);
      CallFuncSteps(s0, name, args, obj, assign, s1, v, line);
      var out := SendCmd(line);
      r := Conclude(out, v);
    }

    /** The end of `callFunc`: off Windows the reply is read now, and the reference or the reply returned. */
    method Conclude(out: Outcome<Option<string>>, v: Option<string>) returns (r: Outcome<string>)
      modifies this
      ensures (Snapshot(), r) == ConcludeS((old(Snapshot()), out), old(os), v)
    {
      if !out.Done? {
        return Forward(out, "");
      }
      var output := out.value.GetOr("");
      if os != "windows" {
        var t := Read();
        if !t.Done? {
          return t;
        }
        output := t.value;
      }
      r := Done(v.GetOr(output));
    }

    method AddCacheVar(ref: string)
      modifies this
      ensures Snapshot() == old(Snapshot()).(cachedVars := CacheAdd(old(cachedVars), ParseRef(ref)))
    {
      var name := ParseRef(ref);
      if name !in cachedVars {
        cachedVars := cachedVars + [name];
      }
    }

    method RemoveCacheVar(ref: string)
      modifies this
      ensures Snapshot() == old(Snapshot()).(cachedVars := CacheUnset(old(cachedVars), ParseRef(ref)))
    {
      var name := ParseRef(ref);
      if name == "" {
        // `isset` is false for the NULL stored under "".
      } else if name in cachedVars {
        cachedVars := CacheRemove(cachedVars, name);
      } else {
        RemoveAbsent(cachedVars, name);
      }
    }

    method ClearVars() returns (r: Outcome<string>)
      modifies this
      ensures (Snapshot(), r) == CommandS(old(Snapshot()), ClearCommand(old(cachedVars)))
    {
      var cmd := ClearVarsText(cachedVars);
      r := Command(TrimBy(cmd, {';'}));
    }

    /** `_extractKeys`. */
    method ExtractKeys(keysStr: Option<string>) returns (r: Option<string>)
      ensures r == ExtractKeysSpec(keysStr, os)
    {
      if IsEmptyValue(keysStr) {
        return None;
      }
      var keys := Split(keysStr.value, '+');
      var str: seq<string> := [];
      var i := 0;
      while i < |keys|
        invariant 0 <= i <= |keys|
        invariant |str| == i
        invariant forall k :: 0 <= k < i ==> str[k] == KeyToken(keys[k], os)
      {
        var key := RewriteKey(keys[i], os);
        ghost var prev := str;
        str := str + [key];
        forall k | 0 <= k < i + 1
          ensures str[k] == KeyToken(keys[k], os)
        {
          if k < i {
            assert str[k] == prev[k];
          }
        }
        i := i + 1;
      }
      assert str == KeyTokens(keys, os);
      r := Some(Join(str, "+"));
    }

    /** One `+`-separated part of a key combination, rewritten. */
    static method RewriteKey(part: string, os: string) returns (key: string)
      ensures key == KeyToken(part, os)
    {
      key := Trim(part);
      if StartsWith(key, "Key.") {
        if key == "Key.CMD" && os == "windows" {
          key := "Key.CTRL";
        }
      } else {
        key := "\"" + key + "\"";
      }
    }

    /** `find`: the result is assigned to a new variable, on the receiver `FindReceiver` picks. */
    method Find(ps: Arg, region: Option<Arg>) returns (r: Outcome<string>)
      modifies this
      ensures (Snapshot(), r) == CallFuncS(old(Snapshot()), "find", [(Index(0), ps)], FindReceiver(region, old(defaultRegion)), true)
    {
      r := CallFunc("find", [(Index(0), ps)], FindReceiver(region, defaultRegion), true);
    }

    /** `exists`: whether the engine's reply is a match. */
    method Exists(ps: Arg, obj: Option<string>, seconds: Arg) returns (r: Outcome<bool>)
      modifies this
      ensures var c := CallFuncS(old(Snapshot()), "exists", [(Index(0), ps), (Index(1), seconds)],
                                 if obj.Some? then obj else old(defaultRegion), false);
              Snapshot() == c.0
              && r == match c.1 case Done(reply) => Done(IsMatchReply(reply)) case Threw(f) => Threw(f) case Pending => Pending
    {
      var receiver := if obj.Some? then obj else defaultRegion;
      var reply := CallFunc("exists", [(Index(0), ps), (Index(1), seconds)], receiver, false);
      r := match reply case Done(text) => Done(StartsWith(text, "Match[")) case Threw(f) => Threw(f) case Pending => Pending;
    }

    /** `wheel`, scrolling the given target (or the default region when none). */
    method Wheel(steps: int, target: Option<string>) returns (r: Outcome<string>)
      modifies this
      ensures (Snapshot(), r) == CallFuncS(old(Snapshot()), "wheel", WheelArgs(steps, target, old(defaultRegion)), None, false)
    {
      r := CallFunc("wheel", WheelArgs(steps, target, defaultRegion), None, false);
    }

    /** `type`: a numeric text is quoted by hand and passed with quoting switched off. */
    method Type(text: string, modifiers: Option<string>, psmrl: Option<string>) returns (r: Outcome<string>)
      modifies this
      ensures (Snapshot(), r) == CallFuncS(old(Snapshot()), "type", TypeArgs(IsNumericString(text), text, ExtractKeysSpec(modifiers, old(os)), psmrl), None, false)
    {
      var keys := ExtractKeys(modifiers);
      r := CallFunc("type", TypeArgs(IsNumericString(text), text, keys, psmrl), None, false);
    }
  }

  /** The arguments of `type`: target, text and keys, with a text that `is_numeric` accepts pre-quoted. */
  function TypeArgs(numeric: bool, text: string, keys: Option<string>, psmrl: Option<string>): ArgList {
    if numeric then
      [(Index(0), RegionArg(psmrl)), (Index(1), Str("'" + text + "'")), (Index(2), RegionArg(keys)), (NoQuotesKey, Bool(true))]
    else
      [(Index(0), RegionArg(psmrl)), (Index(1), Str(text)), (Index(2), RegionArg(keys))]
  }

  /** Quoting is switched off for `type` exactly when the text is numeric. */
  lemma TypeQuoting(numeric: bool, text: string, keys: Option<string>, psmrl: Option<string>)
    ensures HasNoQuotes(TypeArgs(numeric, text, keys, psmrl)) <==> numeric
  {
    var args := TypeArgs(numeric, text, keys, psmrl);
    if numeric {
      assert args[3] == (NoQuotesKey, Bool(true));
    } else {
      assert args == [(Index(0), RegionArg(psmrl)), (Index(1), Str(text)), (Index(2), RegionArg(keys))];
      forall k | 0 <= k < |args|
        ensures args[k].0 != NoQuotesKey
      {
        assert args[k].0.Index?;
      }
    }
  }

  /** The argument loop of `callFunc`: the marker is dropped, NULLs skipped, the rest rendered in order. */
  method RenderCallArgs(args: ArgList) returns (cmdArgs: seq<string>)
    ensures cmdArgs == RenderArgs(CallValues(args), !HasNoQuotes(args))
  {
    var addQuotes := true;
    var rest := args;
    if HasNoQuotes(args) {
      rest := Unset(args, NoQuotesKey);
      addQuotes := false;
    }
    var vs := Values(rest);
    cmdArgs := [];
    var i := 0;
    while i < |vs|
      invariant 0 <= i <= |vs|
      invariant RenderArgs(vs, addQuotes) == cmdArgs + RenderArgs(vs[i..], addQuotes)
    {
      assert vs[i..][1..] == vs[i + 1..];
      if vs[i] != Null {
        cmdArgs := cmdArgs + [Render(vs[i], addQuotes)];
      }
      i := i + 1;
    }
  }

  /** The text `clearVars` accumulates: the copy-outs and the copy-backs, built name by name. */
  method ClearVarsText(cached: seq<string>) returns (cmd: string)
    ensures cmd == ClearText(cached)
    ensures TrimBy(cmd, {';'}) == ClearCommand(cached)
  {
    var varToCache := "";
    var cacheToVar := "";
    var i := 0;
    while i < |cached|
      invariant 0 <= i <= |cached|
      invariant varToCache == Terminated(Saves(cached[..i]))
      invariant cacheToVar == Terminated(Restores(cached[..i]))
    {
      ClearStep(cached, i);
      varToCache := varToCache + Save(cached[i]) + ";";
      cacheToVar := cacheToVar + Restore(cached[i]) + ";";
      i := i + 1;
    }
    assert cached[..i] == cached;
    cmd := OpenHolder + ";" + varToCache + Wipe + ";" + cacheToVar;
    ClearTextParts(cached);
    ClearTextIsCommand(cached);
  }

  /** The accumulated text: the holder, the copy-outs, the wipe, the copy-backs, each followed by `;`. */
  lemma ClearTextParts(cached: seq<string>)
    ensures ClearText(cached) == OpenHolder + ";" + Terminated(Saves(cached)) + Wipe + ";" + Terminated(Restores(cached))
  {
    assert Terminated([OpenHolder]) == OpenHolder + ";" by { assert [OpenHolder][1..] == []; }
    assert Terminated([Wipe]) == Wipe + ";" by { assert [Wipe][1..] == []; }
  }

  /** One more cached name adds its copy-out and its copy-back, each followed by `;`. */
  lemma ClearStep(cached: seq<string>, i: nat)
    requires i < |cached|
    ensures Terminated(Saves(cached[..i + 1])) == Terminated(Saves(cached[..i])) + Save(cached[i]) + ";"
    ensures Terminated(Restores(cached[..i + 1])) == Terminated(Restores(cached[..i])) + Restore(cached[i]) + ";"
  {
    assert Saves(cached[..i + 1]) == Saves(cached[..i]) + [Save(cached[i])];
    assert Restores(cached[..i + 1]) == Restores(cached[..i]) + [Restore(cached[i])];
    TerminatedAppend(Saves(cached[..i]), [Save(cached[i])]);
    TerminatedAppend(Restores(cached[..i]), [Restore(cached[i])]);
  }
}
