/**
 * The browser layer on top of a session: scripts exchanged with the page
 * through two files in a temporary directory, typing with a raised command
 * timeout, the page's position on the screen, and placing and sizing the
 * browser window.
 *
 * The engine calls through which the browser layer reads the window's
 * geometry, switches application, creates regions and locations and drags
 * (`getX`, `getTopLeft`, `switchApp`, `createRegion`, `dragDrop`, ...) are
 * not replayed here: what they report is passed in as parameters, and the
 * drags and regions asked for are recorded in `gui`.
 */
module Browser {
  import opened Text
  import opened Outcomes
  import opened Protocol
  import opened Framing
  import opened Session
  import opened BrowserRules

  const NotResponding := Exception("Browser is not responding!")
  const NotSupported := Exception("Browser is not supported")

  /** Seconds `execJS` waits for the result file. */
  const JsTimeout := 3

  /** `$maxTry`: retries after the first failed write of the command file. */
  const MaxTry := 10

  // ---------------------------------------------------------------------
  // Writing the command file

  /** Whether write attempt `i` succeeds; attempts past the end of `writeOk` fail. */
  predicate Attempt(writeOk: seq<bool>, i: nat) {
    i < |writeOk| && writeOk[i]
  }

  /** The number of attempts made when attempt `i` is the next one. */
  function AttemptsFrom(writeOk: seq<bool>, i: nat): (n: nat)
    requires i <= MaxTry
    ensures i < n <= MaxTry + 1
    decreases MaxTry - i
  {
    if Attempt(writeOk, i) || i == MaxTry then i + 1 else AttemptsFrom(writeOk, i + 1)
  }

  /** The number of `file_put_contents` calls the retry loop makes. */
  function WriteAttempts(writeOk: seq<bool>): nat {
    AttemptsFrom(writeOk, 0)
  }

  /** Whether the command file was written: the last attempt made succeeded. */
  predicate Written(writeOk: seq<bool>) {
    Attempt(writeOk, WriteAttempts(writeOk) - 1)
  }

  lemma {:induction false} AttemptsFromStops(writeOk: seq<bool>, i: nat)
    requires i <= MaxTry
    ensures forall j | i <= j < AttemptsFrom(writeOk, i) - 1 :: !Attempt(writeOk, j)
    ensures Attempt(writeOk, AttemptsFrom(writeOk, i) - 1) <==> exists j | i <= j <= MaxTry :: Attempt(writeOk, j)
    decreases MaxTry - i
  {
    if !(Attempt(writeOk, i) || i == MaxTry) {
      AttemptsFromStops(writeOk, i + 1);
    }
  }

  /**
   * The loop makes at most eleven attempts, stops at the first that succeeds,
   * and the file is written exactly when one of the eleven would succeed.
   */
  lemma WriteRetries(writeOk: seq<bool>)
    ensures 1 <= WriteAttempts(writeOk) <= MaxTry + 1
    ensures forall j | 0 <= j < WriteAttempts(writeOk) - 1 :: !Attempt(writeOk, j)
    ensures Written(writeOk) <==> exists j | 0 <= j <= MaxTry :: Attempt(writeOk, j)
  {
    AttemptsFromStops(writeOk, 0);
  }

  /** The `do ... while ($maxTry-- > 0)` loop that writes the command file. */
  method WriteCommandFile(writeOk: seq<bool>) returns (ok: bool, attempts: nat)
    ensures ok == Written(writeOk) && attempts == WriteAttempts(writeOk)
  {
    var maxTry := MaxTry;
    attempts := 0;
    while true
      invariant 0 <= maxTry <= MaxTry && attempts == MaxTry - maxTry
      invariant AttemptsFrom(writeOk, attempts) == WriteAttempts(writeOk)
      decreases maxTry
    {
      ok := Attempt(writeOk, attempts);
      attempts := attempts + 1;
      if ok {
        break;
      }
      if maxTry <= 0 {
        break;
      }
      maxTry := maxTry - 1;
    }
  }

  // ---------------------------------------------------------------------
  // Waiting for the result file

  /** One check of the result file: the clock, and the file's text if the page has written it. */
  datatype JsPoll = JsPoll(now: int, result: Option<string>)

  /** The wait for the result file: its text, or an exception once more than three seconds have passed. */
  function AwaitResult(t0: int, polls: seq<JsPoll>): Outcome<string>
    decreases |polls|
  {
    if |polls| == 0 then Pending
    else if polls[0].result.Some? then Done(polls[0].result.value)
    else if polls[0].now - t0 > JsTimeout then Threw(NotResponding)
    else AwaitResult(t0, polls[1..])
  }

  /** The checks before `k` all found no file and were within the timeout. */
  ghost predicate QuietUntil(t0: int, polls: seq<JsPoll>, k: int)
    requires 0 <= k <= |polls|
  {
    forall j | 0 <= j < k :: polls[j].result.None? && polls[j].now - t0 <= JsTimeout
  }

  /**
   * The text returned is the first one to appear, before the timeout; the
   * exception is raised at the first check past the timeout, with no file yet.
   */
  lemma {:induction false} AwaitResultCases(t0: int, polls: seq<JsPoll>)
    ensures AwaitResult(t0, polls).Done? ==>
              exists k | 0 <= k < |polls| :: QuietUntil(t0, polls, k) && polls[k].result == Some(AwaitResult(t0, polls).value)
    ensures AwaitResult(t0, polls).Threw? ==>
              AwaitResult(t0, polls).failure == NotResponding
              && exists k | 0 <= k < |polls| :: QuietUntil(t0, polls, k) && polls[k].result.None? && polls[k].now - t0 > JsTimeout
    ensures AwaitResult(t0, polls).Pending? ==> QuietUntil(t0, polls, |polls|)
    decreases |polls|
  {
    if |polls| > 0 {
      if polls[0].result.Some? {
        assert QuietUntil(t0, polls, 0);
      } else if polls[0].now - t0 > JsTimeout {
        assert QuietUntil(t0, polls, 0);
      } else {
        var rest := polls[1..];
        AwaitResultCases(t0, rest);
        if AwaitResult(t0, rest).Done? {
          var k :| 0 <= k < |rest| && QuietUntil(t0, rest, k) && rest[k].result == Some(AwaitResult(t0, rest).value);
          assert polls[k + 1] == rest[k];
          assert QuietUntil(t0, polls, k + 1) by {
            forall j | 0 <= j < k + 1
              ensures polls[j].result.None? && polls[j].now - t0 <= JsTimeout
            {
              if j > 0 {
                assert polls[j] == rest[j - 1];
              }
            }
          }
        } else if AwaitResult(t0, rest).Threw? {
          var k :| 0 <= k < |rest| && QuietUntil(t0, rest, k) && rest[k].result.None? && rest[k].now - t0 > JsTimeout;
          assert polls[k + 1] == rest[k];
          assert QuietUntil(t0, polls, k + 1) by {
            forall j | 0 <= j < k + 1
              ensures polls[j].result.None? && polls[j].now - t0 <= JsTimeout
            {
              if j > 0 {
                assert polls[j] == rest[j - 1];
              }
            }
          }
        } else {
          forall j | 0 <= j < |polls|
            ensures polls[j].result.None? && polls[j].now - t0 <= JsTimeout
          {
            if j > 0 {
              assert polls[j] == rest[j - 1];
            }
          }
        }
      }
    }
  }

  /** The `while (file_exists(...) === FALSE)` loop. */
  method WaitForResult(t0: int, polls: seq<JsPoll>) returns (r: Outcome<string>)
    ensures r == AwaitResult(t0, polls)
  {
    var i := 0;
    while i < |polls|
      invariant 0 <= i <= |polls|
      invariant AwaitResult(t0, polls) == AwaitResult(t0, polls[i..])
    {
      var p := polls[i];
      assert polls[i..][1..] == polls[i + 1..];
      if p.result.Some? {
        return Done(p.result.value);
      }
      if p.now - t0 > JsTimeout {
        return Threw(NotResponding);
      }
      i := i + 1;
    }
    r := Pending;
  }

  /** What `execJS` returns: NULL without waiting when no value is wanted, otherwise the result file read as `JsResult` reads it. */
  function ExecJSResult(noReturnValue: bool, raw: bool, t0: int, polls: seq<JsPoll>, decode: string -> JsValue): Outcome<Option<JsValue>> {
    if noReturnValue then Done(None)
    else
      match AwaitResult(t0, polls)
      case Done(text) => Done(JsResult(text, raw, decode))
      case Threw(f) => Threw(f)
      case Pending => Pending
  }

  /** A value comes back only from a result file that appeared in time and was neither `undefined` nor blank. */
  lemma ExecJSValue(raw: bool, t0: int, polls: seq<JsPoll>, decode: string -> JsValue)
    ensures ExecJSResult(false, raw, t0, polls, decode).Done? && ExecJSResult(false, raw, t0, polls, decode).value.Some? ==>
              exists k | 0 <= k < |polls| :: QuietUntil(t0, polls, k) && polls[k].result.Some?
                && polls[k].result.value != "undefined" && Trim(polls[k].result.value) != ""
                && JsResult(polls[k].result.value, raw, decode) == ExecJSResult(false, raw, t0, polls, decode).value
    ensures ExecJSResult(true, raw, t0, polls, decode) == Done(None)
  {
    AwaitResultCases(t0, polls);
  }

  // ---------------------------------------------------------------------
  // Typing

  /**
   * The browser's `type`: the command timeout is raised for long texts and
   * restored only when the engine's `type` returns.
   */
  function TypeS(s: State, text: string, modifiers: Option<string>, psmrl: Option<string>): (State, Outcome<string>) {
    var t := TypingCmdTimeout(Utf8Length(text));
    var s1 := if t.Some? then SetCmdTimeoutS(s, t.value).0 else s;
    var c := CallFuncS(s1, "type", TypeArgs(IsNumericString(text), text, ExtractKeysSpec(modifiers, s.os), psmrl), None, false);
    if t.Some? && c.1.Done? then (SetCmdTimeoutS(c.0, s.cmdTimeout).0, c.1) else c
  }

  /**
   * A typed text leaves the command timeout as it was when typing succeeds; a
   * long text that raises leaves the raised timeout in place; a short text is
   * the engine's own `type`.
   */
  lemma TypeTimeoutRestored(s: State, text: string, modifiers: Option<string>, psmrl: Option<string>)
    ensures TypeS(s, text, modifiers, psmrl).1.Done? ==> TypeS(s, text, modifiers, psmrl).0.cmdTimeout == s.cmdTimeout
    ensures Utf8Length(text) >= 110 && TypeS(s, text, modifiers, psmrl).1.Threw? ==>
              TypeS(s, text, modifiers, psmrl).0.cmdTimeout == TypingTimeout(Utf8Length(text)) + 10
    ensures Utf8Length(text) < 110 ==>
              TypeS(s, text, modifiers, psmrl) == CallFuncS(s, "type", TypeArgs(IsNumericString(text), text, ExtractKeysSpec(modifiers, s.os), psmrl), None, false)
  {
    TypingCmdTimeoutThreshold(Utf8Length(text));
  }

  /** The length is `strlen`'s: 55 characters outside ASCII already raise the timeout. */
  lemma WideTextRaisesTimeout(text: string)
    requires |text| >= 55 && forall k :: 0 <= k < |text| ==> text[k] as int >= 0x80
    ensures TypingCmdTimeout(Utf8Length(text)).Some?
  {
    Utf8LengthWide(text);
    TypingCmdTimeoutThreshold(Utf8Length(text));
  }

  // ---------------------------------------------------------------------
  // The browser window

  /** What the engine reports about the browser window and the screen. */
  datatype WindowView = WindowView(region: Region, topLeft: Loc, topRight: Loc, bottomRight: Loc, screen: Size)

  /** A request to the engine that the model records rather than replays. */
  datatype GuiOp = DragDrop(drag: Drag) | CreateRegion(region: Region)

  /** The browser's own fields. */
  datatype Fields = Fields(
    window: string,
    browserid: string,
    windowSize: Option<Size>,
    pageTopLeft: Option<Loc>,
    defaults: Defaults,
    gui: seq<GuiOp>)

  /** The window reference is swapped in the engine's cached variables and becomes the default region. */
  function UseWindow(s: State, old_window: string, window: string): State {
    s.(cachedVars := CacheAdd(CacheUnset(s.cachedVars, ParseRef(old_window)), ParseRef(window)), defaultRegion := Some(window))
  }

  /**
   * `position`: drag the title bar so the window's top-left corner lands on the
   * target, then take the window reference `_getBrowserWindow` returns anew.
   */
  function PositionS(b: Fields, s: State, x: Option<int>, y: Option<int>, view: WindowView, newWindow: string): (State, Fields) {
    var plan := PositionDrag(x, y, b.defaults.position, view.topLeft, view.topRight);
    if plan.None? then (s, b)
    else (UseWindow(s, b.window, newWindow), b.(gui := b.gui + [DragDrop(plan.value)], window := newWindow))
  }

  /**
   * `resize`: nothing without a size; a region over the window as it is when it
   * already has the size; otherwise a drag of the bottom-right corner and a
   * region of the new size, which becomes the window.
   */
  function ResizeS(b: Fields, s: State, w: Option<int>, h: Option<int>, view: WindowView, regionRef: string): (State, Fields) {
    var plan := ResizeFor(w, h, b.defaults.size, b.windowSize, view.region, view.bottomRight, view.screen, s.os);
    match plan
    case NoSize => (s, b)
    case Keep(size) =>
      (s.(defaultRegion := Some(regionRef)),
       b.(gui := b.gui + [CreateRegion(Region(view.region.x, view.region.y, size.w, size.h))]))
    case Resize(size, drag) =>
      (UseWindow(s, b.window, regionRef),
       b.(gui := b.gui + [DragDrop(drag), CreateRegion(Region(view.region.x, view.region.y, size.w, size.h))],
          window := regionRef, windowSize := Some(size)))
  }

  /** After a move the window is a cached variable and the default region of searches. */
  lemma PositionCachesWindow(b: Fields, s: State, x: int, y: int, view: WindowView, newWindow: string)
    ensures var (s1, b1) := PositionS(b, s, Some(x), Some(y), view, newWindow);
            b1.window == newWindow && ParseRef(newWindow) in s1.cachedVars && s1.defaultRegion == Some(newWindow)
            && |b1.gui| == |b.gui| + 1
            && b1.gui[|b.gui|] == DragDrop(PositionDrag(Some(x), Some(y), b.defaults.position, view.topLeft, view.topRight).value)
  {
    PositionDragMovesToTarget(x, y, b.defaults.position, view.topLeft, view.topRight);
  }

  /** A second resize to the size just set drags nothing, whatever the window then reports. */
  lemma ResizeTwiceDragsOnce(b: Fields, s: State, w: int, h: int, view: WindowView, view2: WindowView, r1: string, r2: string)
    requires ResizeFor(Some(w), Some(h), b.defaults.size, b.windowSize, view.region, view.bottomRight, view.screen, s.os).Resize?
    ensures var (s1, b1) := ResizeS(b, s, Some(w), Some(h), view, r1);
            b1.windowSize == Some(Size(w, h)) && b1.window == r1 && s1.defaultRegion == Some(r1) && ParseRef(r1) in s1.cachedVars
            && ResizeFor(Some(w), Some(h), b1.defaults.size, b1.windowSize, view2.region, view2.bottomRight, view2.screen, s1.os) == Keep(Size(w, h))
  {
  }

  /** `_setBrowser`: an unknown id raises; a known one becomes the browser, whose window is cached, placed and sized. */
  function SetBrowserS(b: Fields, s: State, browser: string, window: string,
                       posView: WindowView, posWindow: string, sizeView: WindowView, regionRef: string): (State, Fields, Outcome<()>)
  {
    if browser !in SupportedBrowsers then (s, b, Threw(NotSupported))
    else
      var b1 := b.(window := window, browserid := browser);
      var s1 := s.(cachedVars := CacheAdd(s.cachedVars, ParseRef(window)));
      var (s2, b2) := PositionS(b1, s1, None, None, posView, posWindow);
      var (s3, b3) := ResizeS(b2, s2, None, None, sizeView, regionRef);
      (s3, b3, Done(()))
  }

  /** Only the supported ids are accepted, and an accepted one is remembered. */
  lemma SetBrowserAccepts(b: Fields, s: State, browser: string, window: string,
                          posView: WindowView, posWindow: string, sizeView: WindowView, regionRef: string)
    ensures var (s1, b1, r) := SetBrowserS(b, s, browser, window, posView, posWindow, sizeView, regionRef);
            (r.Done? <==> BrowserName(browser).Some?)
            && (r.Done? ==> b1.browserid == browser)
            && (r.Threw? ==> r.failure == NotSupported && s1 == s && b1 == b)
  {
  }

  /** Without a default position or size, choosing a browser only caches its window. */
  lemma SetBrowserWithoutDefaults(b: Fields, s: State, browser: string, window: string,
                                  posView: WindowView, posWindow: string, sizeView: WindowView, regionRef: string)
    requires browser in SupportedBrowsers && b.defaults.position.None? && b.defaults.size.None?
    ensures SetBrowserS(b, s, browser, window, posView, posWindow, sizeView, regionRef)
            == (s.(cachedVars := CacheAdd(s.cachedVars, ParseRef(window))), b.(window := window, browserid := browser), Done(()))
  {
  }

  /** `_getBrowserWindow`'s window index: Chrome-family browsers keep their window at index 1. */
  function WindowNumber(appName: Option<string>): (n: int)
    ensures n == 1 <==> appName in {Some("Google Chrome"), Some("Chromium"), Some("Google Chrome Canary")}
    ensures n == 0 || n == 1
  {
    if appName == Some("Google Chrome") || appName == Some("Chromium") || appName == Some("Google Chrome Canary") then 1 else 0
  }

  const ResultFile := "jsres.tmp"
  const StopPolling := "PHPSikuliBrowser.stopPolling()"
  const ScriptFile := "jsexec.tmp"

  /** A file operation on the temporary directory. */
  datatype FileOp = Unlink(file: string) | Put(file: string, text: string) | Get(file: string)

  /**
   * The file operations of `execJS`: a stale result removed, the script
   * written when an attempt succeeds, and a result that appeared read and removed.
   */
  function ExecJSOps(stale: bool, js: string, noReturnValue: bool, writeOk: seq<bool>, t0: int, polls: seq<JsPoll>): seq<FileOp> {
    (if stale then [Unlink(ResultFile)] else [])
    + (if Written(writeOk) then [Put(ScriptFile, js)] else [])
    + (if !noReturnValue && AwaitResult(t0, polls).Done? then [Get(ResultFile), Unlink(ResultFile)] else [])
  }

  /**
   * A stale result is removed before the script is written, and a result is
   * read only after the script is written and removed right after it is read.
   */
  lemma ExecJSOrder(stale: bool, js: string, noReturnValue: bool, writeOk: seq<bool>, t0: int, polls: seq<JsPoll>)
    ensures var ops := ExecJSOps(stale, js, noReturnValue, writeOk, t0, polls);
            (stale <==> |ops| > 0 && ops[0] == Unlink(ResultFile))
            && (forall k | 0 <= k < |ops| && ops[k] == Put(ScriptFile, js) :: (stale ==> k == 1) && (!stale ==> k == 0))
            && (forall k | 0 <= k < |ops| && ops[k] == Get(ResultFile) :: k + 1 < |ops| && ops[k + 1] == Unlink(ResultFile)
                  && (Written(writeOk) ==> k > 0 && ops[k - 1] == Put(ScriptFile, js)))
            && (noReturnValue ==> Get(ResultFile) !in ops)
  {
  }

  /** The file operations of `stopJSPolling`: the stop request, then the script removed if it is there. */
  function StopJSPollingOps(stale: bool, script: bool, writeOk: seq<bool>): seq<FileOp> {
    ExecJSOps(stale, StopPolling, true, writeOk, 0, [])
    + (if Written(writeOk) || script then [Unlink(ScriptFile)] else [])
  }

  /** The files the browser layer exchanges with the page script. */
  class TmpDir {
    /** `jsres.tmp`: the page's result, if the file exists. */
    var jsres: Option<string>
    /** `jsexec.tmp`: the script for the page, if the file exists. */
    var jsexec: Option<string>
    /** The file operations performed, in order. */
    var log: seq<FileOp>

    /** The constructor empties the directory. */
    constructor ()
      ensures jsres == None && jsexec == None && log == []
    {
      jsres := None;
      jsexec := None;
      log := [];
    }
  }

  class Browser {
    const engine: Session
    const tmp: TmpDir
    var window: string
    var browserid: string
    var windowSize: Option<Size>
    var pageTopLeft: Option<Loc>
    var defaults: Defaults
    var gui: seq<GuiOp>

    function Snapshot(): Fields
      reads this
    {
      Fields(window, browserid, windowSize, pageTopLeft, defaults, gui)
    }

    /** The fields before connecting: an empty temporary directory and the settings applied. */
    constructor (engine: Session, settings: seq<Setting>)
      ensures this.engine == engine && fresh(tmp)
      ensures tmp.jsres == None && tmp.jsexec == None && tmp.log == []
      ensures Snapshot() == Fields("", "", None, None, ApplySettings(Defaults(None, None, None), settings), [])
    {
      this.engine := engine;
      tmp := new TmpDir();
      window := "";
      browserid := "";
      windowSize := None;
      pageTopLeft := None;
      defaults := Defaults(None, None, None);
      gui := [];
      new;
      HandleSettings(settings);
    }

    /** `_handleSettings`: the entries applied in array order. */
    method HandleSettings(settings: seq<Setting>)
      modifies this
      ensures Snapshot() == old(Snapshot()).(defaults := ApplySettings(old(defaults), settings))
    {
      var i := 0;
      while i < |settings|
        invariant 0 <= i <= |settings|
        invariant Snapshot() == old(Snapshot()).(defaults := defaults)
        invariant ApplySettings(old(defaults), settings) == ApplySettings(defaults, settings[i..])
      {
        assert settings[i..][1..] == settings[i + 1..];
        var setting := settings[i];
        i := i + 1;
        match setting
        case FileGroupOwner(g) =>
          defaults := defaults.(fileGroup := Some(g));
        case PositionSetting(x, y) =>
          defaults := defaults.(position := Some(BrowserRules.Position(x, y)));
        case SizeSetting(isArray, w, h) =>
          if isArray && w.Some? && h.Some? {
            defaults := defaults.(size := Some(Size(w.value, h.value)));
          }
        case Unknown(_) =>
      }
    }

    /**
     * `execJS`: remove a stale result, write the script (retrying), and unless no
     * value is wanted wait for the result file, read it and remove it.
     */
    method ExecJS(js: string, noReturnValue: bool, raw: bool, writeOk: seq<bool>, t0: int, polls: seq<JsPoll>,
                  decode: string -> JsValue) returns (r: Outcome<Option<JsValue>>)
      modifies tmp
      ensures tmp.jsres == None
      ensures tmp.jsexec == if Written(writeOk) then Some(js) else old(tmp.jsexec)
      ensures tmp.log == old(tmp.log) + ExecJSOps(old(tmp.jsres).Some?, js, noReturnValue, writeOk, t0, polls)
      ensures r == ExecJSResult(noReturnValue, raw, t0, polls, decode)
    {
      if tmp.jsres.Some? {
        tmp.jsres := None;
        tmp.log := tmp.log + [Unlink(ResultFile)];
      }
      var ok, _ := WriteCommandFile(writeOk);
      if ok {
        tmp.jsexec := Some(js);
        tmp.log := tmp.log + [Put(ScriptFile, js)];
      }
      if noReturnValue {
        return Done(None);
      }
      var found := WaitForResult(t0, polls);
      match found
      case Done(text) =>
        tmp.jsres := Some(text);
        var result := tmp.jsres.value;
        tmp.jsres := None;
        tmp.log := tmp.log + [Get(ResultFile), Unlink(ResultFile)];
        r := Done(JsResult(result, raw, decode));
      case Threw(f) =>
        r := Threw(f);
      case Pending =>
        r := Pending;
    }

    /** `stopJSPolling`: ask the page to stop, then remove both files. */
    method StopJSPolling(writeOk: seq<bool>)
      modifies tmp
      ensures tmp.jsres == None && tmp.jsexec == None
      ensures tmp.log == old(tmp.log) + StopJSPollingOps(old(tmp.jsres).Some?, old(tmp.jsexec).Some?, writeOk)
    {
      var _ := ExecJS(StopPolling, true, false, writeOk, 0, [], _ => JsNull);
      // The page writes nothing in the model, so the result file `execJS` removed stays gone.
      if tmp.jsexec.Some? {
        tmp.jsexec := None;
        tmp.log := tmp.log + [Unlink(ScriptFile)];
      }
    }

    /** `reloadPage`: the page may move, so its remembered position is dropped. */
    method ReloadPage(writeOk: seq<bool>)
      modifies this, tmp
      ensures Snapshot() == old(Snapshot()).(pageTopLeft := None)
      ensures tmp.jsres == None && tmp.jsexec == None
      ensures tmp.log == old(tmp.log) + StopJSPollingOps(old(tmp.jsres).Some?, old(tmp.jsexec).Some?, writeOk)
    {
      pageTopLeft := None;
      StopJSPolling(writeOk);
    }

    /** `type`, with the command timeout raised while a long text is typed. */
    method Type(text: string, modifiers: Option<string>, psmrl: Option<string>) returns (r: Outcome<string>)
      modifies engine
      ensures (engine.Snapshot(), r) == TypeS(old(engine.Snapshot()), text, modifiers, psmrl)
    {
      var t := TypingCmdTimeout(Utf8Length(text));
      var current := engine.cmdTimeout;
      if t.Some? {
        current := engine.SetCmdTimeout(t.value);
      }
      r := engine.Type(text, modifiers, psmrl);
      if t.Some? && r.Done? {
        var _ := engine.SetCmdTimeout(current);
      }
    }

    /** `getPageTopLeft`: the page's position, located once (`found`) and then remembered. */
    method GetPageTopLeft(found: Loc) returns (loc: Loc)
      modifies this
      ensures loc == old(pageTopLeft).GetOr(found)
      ensures Snapshot() == old(Snapshot()).(pageTopLeft := Some(loc))
    {
      if pageTopLeft.None? {
        pageTopLeft := Some(found);
      }
      loc := pageTopLeft.value;
    }

    /** `getRegionOnPage`: the region asked of the engine for a rectangle on the page. */
    method GetRegionOnPage(rect: Rect, found: Loc) returns (region: Region)
      modifies this
      ensures region == RegionOnPage(old(pageTopLeft).GetOr(found), rect)
      ensures Snapshot() == old(Snapshot()).(pageTopLeft := Some(old(pageTopLeft).GetOr(found)),
                                             gui := old(gui) + [CreateRegion(region)])
    {
      var page := GetPageTopLeft(found);
      region := RegionOnPage(page, rect);
      gui := gui + [CreateRegion(region)];
    }

    /** `getPageXRelativeToScreen` and `getPageYRelativeToScreen`. */
    method PagePointOnScreen(p: Loc, found: Loc) returns (q: Loc)
      modifies this
      ensures q == PageToScreen(old(pageTopLeft).GetOr(found), p)
      ensures Snapshot() == old(Snapshot()).(pageTopLeft := Some(old(pageTopLeft).GetOr(found)))
    {
      var page := GetPageTopLeft(found);
      q := PageToScreen(page, p);
    }

    /** `getPageX` and `getPageY`, for a point the engine reports on the screen. */
    method ScreenPointOnPage(p: Loc, found: Loc) returns (q: Loc)
      modifies this
      ensures q == ScreenToPage(old(pageTopLeft).GetOr(found), p)
      ensures Snapshot() == old(Snapshot()).(pageTopLeft := Some(old(pageTopLeft).GetOr(found)))
    {
      var page := GetPageTopLeft(found);
      q := ScreenToPage(page, p);
    }

    /** `_getBrowserWindow`: the application's window (Windows) or its window number `n`. */
    method GetBrowserWindow(browser: string, app: string) returns (r: Outcome<string>)
      modifies engine
      ensures old(engine.os) == "windows" ==> r == Done(app) && engine.Snapshot() == old(engine.Snapshot())
      ensures old(engine.os) != "windows" ==>
                (engine.Snapshot(), r) == CallFuncS(old(engine.Snapshot()), "window",
                                                    [(Index(0), Int(WindowNumber(AppName(browser, old(engine.os)))))], Some(app), true)
    {
      if engine.os != "windows" {
        var n := WindowNumber(AppName(browser, engine.os));
        r := engine.CallFunc("window", [(Index(0), Int(n))], Some(app), true);
      } else {
        r := Done(app);
      }
    }

    /** `position`. */
    method Position(x: Option<int>, y: Option<int>, view: WindowView, newWindow: string)
      modifies this, engine
      ensures (engine.Snapshot(), Snapshot()) == PositionS(old(Snapshot()), old(engine.Snapshot()), x, y, view, newWindow)
    {
      var plan := PositionDrag(x, y, defaults.position, view.topLeft, view.topRight);
      if plan.None? {
        return;
      }
      gui := gui + [DragDrop(plan.value)];
      engine.RemoveCacheVar(window);
      window := newWindow;
      engine.AddCacheVar(window);
      engine.SetDefaultRegion(Some(window));
    }

    /** `resize`. */
    method Resize(w: Option<int>, h: Option<int>, view: WindowView, regionRef: string)
      modifies this, engine
      ensures (engine.Snapshot(), Snapshot()) == ResizeS(old(Snapshot()), old(engine.Snapshot()), w, h, view, regionRef)
    {
      var plan := ResizeFor(w, h, defaults.size, windowSize, view.region, view.bottomRight, view.screen, engine.os);
      match plan
      case NoSize =>
      case Keep(size) =>
        gui := gui + [CreateRegion(Region(view.region.x, view.region.y, size.w, size.h))];
        engine.SetDefaultRegion(Some(regionRef));
      case Resize(size, drag) =>
        gui := gui + [DragDrop(drag), CreateRegion(Region(view.region.x, view.region.y, size.w, size.h))];
        engine.RemoveCacheVar(window);
        window := regionRef;
        engine.AddCacheVar(window);
        windowSize := Some(size);
        engine.SetDefaultRegion(Some(window));
    }

    /** `_setBrowser`, given the window `_getBrowserWindow` returned and what the engine reports for placing and sizing it. */
    method SetBrowser(browser: string, window: string, posView: WindowView, posWindow: string,
                      sizeView: WindowView, regionRef: string) returns (r: Outcome<()>)
      modifies this, engine
      ensures (engine.Snapshot(), Snapshot(), r)
              == SetBrowserS(old(Snapshot()), old(engine.Snapshot()), browser, window, posView, posWindow, sizeView, regionRef)
    {
      if browser !in SupportedBrowsers {
        return Threw(NotSupported);
      }
      this.window := window;
      browserid := browser;
      engine.AddCacheVar(window);
      Position(None, None, posView, posWindow);
      Resize(None, None, sizeView, regionRef);
      r := Done(());
    }

    /**
     * The browser's `resetConnection`: stop the page's polling, reset the
     * session, forget the window size and choose the same browser again.
     */
    method ResetConnection(writeOk: seq<bool>, window: string, posView: WindowView, posWindow: string,
                           sizeView: WindowView, regionRef: string) returns (r: Outcome<()>)
      modifies this, engine, tmp
      ensures tmp.jsres == None && tmp.jsexec == None
      ensures tmp.log == old(tmp.log) + StopJSPollingOps(old(tmp.jsres).Some?, old(tmp.jsexec).Some?, writeOk)
      ensures var (s1, c) := ResetS(old(engine.Snapshot()));
              if c.Done? then
                (engine.Snapshot(), Snapshot(), r)
                == SetBrowserS(old(Snapshot()).(windowSize := None), s1, old(browserid), window, posView, posWindow, sizeView, regionRef)
              else
                engine.Snapshot() == s1 && Snapshot() == old(Snapshot()) && r == c
    {
      StopJSPolling(writeOk);
      var c := engine.ResetConnection();
      if !c.Done? {
        return c;
      }
      windowSize := None;
      r := SetBrowser(browserid, window, posView, posWindow, sizeView, regionRef);
    }
  }
}
