# php-sikuli host side, in Dafny

PHPSikuli drives a SikuliX Jython interpreter from PHP. It writes one Jython
line per call to the interpreter's input, then reads the reply until a `>>>`
sentinel. The reply comes from the stdout and stderr pipes on Unix, and from an
output file on Windows. PHPSikuliBrowser builds on it to drive a web browser.
It exchanges scripts with the page through two files in a temporary
directory, and it places and sizes the browser window.

This project models the host side of those two protocols and proves
properties of the model:

- `Text.dfy`: the PHP string functions the core relies on: `strpos`, `explode`/`implode`, `trim`, `str_replace`, `is_numeric`, and integer to string.
- `Protocol.dfy`: the Jython line `callFunc` builds and its quoting rule.
  - The key combinations `_extractKeys` rewrites.
  - The cached-variable set and the one command `clearVars` sends.
  - `getOS`, and the argument rules of `find`, `exists` and `wheel`.
- `Framing.dfy`: `_getStreamOutput` as a step function over a trace of polls, proved equal to its polling loop.
  - The Windows reader `_getStreamOutputWindows`.
  - `_errorToException`.
- `Session.dfy`: the session object as a class.
  - Fields: `varCount`, `connected`, command timeout, cached variables, default region.
  - The text sent to the engine and the replies still to come.
  - Its methods are proved against specification functions that follow the source's recursion: a read that resets the connection reconnects and reads again.
- `BrowserRules.dfy`: the browser layer's arithmetic, tables and settings.
  - Typing timeout, page coordinates, window placement and resize clamping.
  - Browser name tables and settings.
  - The rule that turns a result file into a value.
- `Browser.dfy`: the browser object as a class over a session.
  - The `execJS` file handshake, with its retry and wait loops.
  - `stopJSPolling`, the timeout-raising `type`, and the page position memo.
  - `position`, `resize`, `_setBrowser` and `_handleSettings`.

Time is an integer clock. Each poll carries its own reading. A trace that ends
before the reader decides gives the outcome `Pending` or `Unfinished`, so no
operation needs a precondition on the trace's length. `strpos` with an empty
needle finds it at offset 0, as in PHP 8.

Two behaviours of the code are easy to misread, and the model states both:

- An argument wrapped in single quotes keeps any quote inside it unescaped. `a'b` becomes `'a'b'` (`Protocol.QuoteNotEscaped`).
- A stderr chunk that arrives while the reader is in normal mode discards everything stdout stored so far. This happens even if stdout stored lines first (`Framing.ErrorDiscards`).

## Model

| member | source | states |
|---|---|---|
| Protocol.RenderArgsKeepsOrder | PHPSikuli.php:1051-1069 | the arguments emitted are exactly the non-NULL values, each rendered, in their original order |
| Protocol.NoQuotesNeverEmitted | PHPSikuli.php:1045-1049 | the `_noQuotes` entry never reaches the line; the values emitted are the non-NULL values of the other entries |
| Protocol.NonNullUnsetNull | PHPSikuli.php:1046-1054 | unsetting a key whose entries are all NULL does not change what is emitted |
| Protocol.UnsetAbsent | PHPSikuli.php:1046-1047 | unsetting an absent key leaves the array unchanged |
| Protocol.QuotingFollowsMarker | PHPSikuli.php:1057-1066 | an argument that is not numeric and has no special prefix is bare exactly when `_noQuotes` is set, else wrapped in single quotes |
| Protocol.VarRefPassedBare | PHPSikuli.php:1060 | a variable reference is passed bare in either quoting mode |
| Protocol.IntPassedBare | PHPSikuli.php:1058 | an integer is emitted as its decimal text, never quoted |
| Protocol.LetterStartNotNumeric | PHPSikuli.php:1058 | a string starting with a letter is not `is_numeric`, so it is quoted unless it has a special prefix |
| Protocol.QuoteNotEscaped | PHPSikuli.php:1057-1066 | a quote inside a quoted argument is kept unescaped, so `a'b` is emitted as `'a'b'` |
| Protocol.VarRefDigits | PHPSikuli.php:1035 | the reference `PHPSikuliVars["var_N"]` holds the counter's decimal digits between `var_` and `"]` |
| Protocol.VarRefInjective | PHPSikuli.php:1035 | different counter values give different references |
| Protocol.ExtractKeysParts | PHPSikuli.php:328-354 | a non-empty combination gives a result with as many `+`-separated parts as the input, each the rewritten input part |
| Protocol.KeyTokenFree | PHPSikuli.php:337-346 | a rewritten part never contains `+`, so rejoining cannot create parts |
| Protocol.CmdBecomesCtrlOnlyOnWindows | PHPSikuli.php:339-341 | `Key.CMD` becomes `Key.CTRL` on Windows and stays `Key.CMD` elsewhere |
| Protocol.OtherKeysIndependentOfOs | PHPSikuli.php:337-346 | every other part is rewritten the same way on every platform |
| Protocol.ParseVarRef | PHPSikuli.php:962-964 | the name captured from an issued reference is `var_N` |
| Protocol.ParseWrapped | PHPSikuli.php:962-964 | the reference to any name without line breaks reads back as that name |
| Protocol.CacheAdd | PHPSikuli.php:966 | adding keeps the cache duplicate-free, contains the name and keeps every earlier name |
| Protocol.CacheRemove | PHPSikuli.php:984-986 | after removal the name is absent and exactly the other names remain |
| Protocol.RemoveAbsent | PHPSikuli.php:984-986 | removing an absent name changes nothing |
| Protocol.CacheUnset | PHPSikuli.php:978-988 | removing a name drops it and keeps exactly the other names, except that the empty name (the NULL key a failed capture makes) is never removed |
| Protocol.AddThenRemove | PHPSikuli.php:960-988 | adding then removing a name that was not cached restores the cache; for the empty name the added entry stays |
| Protocol.RemoveKeepsNoDuplicates | PHPSikuli.php:978-988 | removal keeps the cache duplicate-free |
| Protocol.FindReceiverRule | PHPSikuli.php:110-114 | a NULL region is no region; an integer region and its decimal text pick the same receiver, dropped exactly when the integer is negative; an empty text region is dropped |
| Protocol.IntTextBelowZero | PHPSikuli.php:112 | under PHP 8 comparison an integer's decimal text is below zero exactly when the integer is |
| Protocol.EmptyTextBelowZero | PHPSikuli.php:112 | under PHP 8 comparison the empty text is below zero |
| Protocol.ClearStatements | PHPSikuli.php:1009 | the clear command is the holder, every copy-out, the wipe `PHPSikuliVars = {}`, then every copy-back |
| Protocol.TerminatedAppend | PHPSikuli.php:1004-1007 | accumulating `;`-terminated statements distributes over concatenation |
| Protocol.ClearTextTerminated | PHPSikuli.php:1002-1009 | the accumulated text is the statements joined by `;`, plus a final `;` |
| Protocol.TrimOneSemicolon | PHPSikuli.php:1010 | `trim(..., ';')` removes exactly the one trailing `;` when the text neither starts nor ends with one |
| Protocol.ClearTextIsCommand | PHPSikuli.php:1000-1010 | trimming the accumulated text gives the one clear command |
| Protocol.OsNameWindows | PHPSikuli.php:1236-1259 | the session is on Windows exactly for the system names `windows nt` and `windows`, in any case |
| Protocol.WheelLine | PHPSikuli.php:299-316 | the line `wheel` sends: the region, then the direction and the step count, all bare |
| Protocol.WheelIgnoresTarget | PHPSikuli.php:299-316 | as written, the line names the default region whatever target is given, so `wheel(3, R1)` with default region `R0` scrolls `R0` |
| Protocol.WheelUsesTarget | PHPSikuli.php:299-316 | as intended, the wheel turns on the given target, or on the default region when none is given |
| Framing.ErrorToException | PHPSikuli.php:1411-1419 | `FindFailedException` exactly when the text contains `org.sikuli.script.FindFailed:`, else `SikuliException` |
| Framing.ErrorTextKept | PHPSikuli.php:1413-1418 | the exception's message carries the engine's error text |
| Framing.GetStreamOutput | PHPSikuli.php:1315-1399 | the polling loop returns the frame the step function gives for the same trace |
| Framing.ScanChunk | PHPSikuli.php:1345-1366 | the loop over a chunk's lines leaves the reader as the chunk specification says, stopping at a sentinel |
| Framing.Kept | PHPSikuli.php:1345-1357 | the lines stored from a chunk are clean and no more than its lines |
| Framing.ScanContent | PHPSikuli.php:1345-1366 | a chunk appends exactly its kept lines to what was stored |
| Framing.ScanStops | PHPSikuli.php:1347-1349 | a chunk ends the frame exactly when one of its lines is a sentinel |
| Framing.ScanErrorFlag | PHPSikuli.php:1351-1353 | the error flag survives a chunk exactly when no substitute warning comes before its sentinel |
| Framing.ScanClock | PHPSikuli.php:1356 | the inactivity clock restarts exactly when the chunk stores a line |
| Framing.ScanTimeout | PHPSikuli.php:1359-1364 | without a warning line, the timeout drops to 1 exactly when an error-mode chunk stores a traceback line |
| Framing.SentinelStopsScan | PHPSikuli.php:1347-1349 | the lines after a sentinel are not looked at |
| Framing.StepClean | PHPSikuli.php:1345-1357 | stored content stays free of empty, sentinel and warning lines from turn to turn |
| Framing.FinalClean | PHPSikuli.php:1387-1399 | a normal reply is the stored lines joined by newlines, and those lines are clean |
| Framing.StdoutFirst | PHPSikuli.php:1329-1338 | when both streams are ready, the stderr chunk is not read in that turn |
| Framing.ErrorDiscards | PHPSikuli.php:1340-1343 | the first stderr chunk in normal mode discards what stdout stored |
| Framing.ErrorChunkEntersErrorMode | PHPSikuli.php:1340-1370 | a stderr chunk that stores a line and has no warning leaves the reader in error mode |
| Framing.ErrorIsSticky | PHPSikuli.php:1340-1370 | error mode with stored lines persists through any chunk without a warning line |
| Framing.TracebackShortensTimeout | PHPSikuli.php:1359-1364 | a stored traceback line in error mode sets the timeout to 1 |
| Framing.NormalModeKeepsTimeout | PHPSikuli.php:1359-1364 | in normal mode a chunk never changes the timeout |
| Framing.ClockRestartsOnlyOnStore | PHPSikuli.php:1356 | the inactivity clock restarts in a turn exactly when that turn stores a line |
| Framing.SentinelEndsFrame | PHPSikuli.php:1347-1349 | a `>>>` line ends the frame with what was stored before it; later lines and turns are ignored |
| Framing.ExpiryInErrorMode | PHPSikuli.php:1377-1379 | an idle turn past the timeout in error mode raises the stored text |
| Framing.ExpiryInNormalMode | PHPSikuli.php:1377-1383 | an idle turn past the timeout in normal mode raises "Sikuli did not respond" |
| Framing.IdleWithinTimeout | PHPSikuli.php:1377 | an idle turn within the timeout changes nothing |
| Framing.ErrorFrameClass | PHPSikuli.php:1387-1394 | an error frame raises `FindFailedException` exactly when its text names a failed find |
| Framing.OutOfMemorySwapped | PHPSikuli.php:1390 | as written, a heap-space error does not trigger the reset, while an empty error text does |
| Framing.OutOfMemoryFound | PHPSikuli.php:1390 | as intended, any error text that mentions `java.lang.OutOfMemoryError` triggers the reset |
| Framing.GetStreamOutputWindows | PHPSikuli.php:1273-1300 | the Windows polling loop returns the frame the file-trace function gives |
| Framing.ClassifyFileCases | PHPSikuli.php:1280-1290 | a blank file keeps polling, a file naming `<stdin>` raises, and anything else is a reply |
| Framing.PlainReplyUnchanged | PHPSikuli.php:1280-1290 | a reply without prompts is returned as the trimmed file contents |
| Framing.BlankFileTimesOut | PHPSikuli.php:1276-1295 | the Windows reader gives up after its own 15 ticks, whatever the command timeout |
| Session.ReadS | PHPSikuli.php:1309-1395 | a read keeps the settings, only extends what was sent, and when it succeeds consumes exactly one reply |
| Session.ConnectS | PHPSikuli.php:1121-1191 | a successful connect leaves the session connected, with the counter at 0 unless it was already connected |
| Session.SetupS | PHPSikuli.php:1147-1189 | a successful setup leaves the session connected with its counter unchanged, having only extended what was sent |
| Session.ConnectWhenConnected | PHPSikuli.php:1123-1125 | connecting a connected session changes nothing |
| Session.CallFuncS | PHPSikuli.php:1030-1085 | a call keeps the settings and only extends what was sent |
| Session.ConcludeS | PHPSikuli.php:1073-1083 | ending a call keeps the settings and only extends what was sent |
| Session.CallFuncDone | PHPSikuli.php:1030-1112 | a successful call writes exactly its line plus the sentinel suffix, consumes one reply, bumps the counter only when assigning, and returns `PHPSikuliVars["var_N"]` for the new N |
| Session.CallFuncReturnsReply | PHPSikuli.php:1073-1081 | a non-assigning call returns the reply text |
| Session.SuccessiveNamesDiffer | PHPSikuli.php:1034-1036 | two assigning calls in a row issue consecutive, different names |
| Session.NumberingRestartsOnConnect | PHPSikuli.php:1127 | after a fresh connect the first assigning call is named `var_1` |
| Session.ErrorReplyRaises | PHPSikuli.php:1389-1394 | an error reply that the intended out-of-memory test does not flag raises and leaves the connection alone |
| Session.OutOfMemoryResets | PHPSikuli.php:1390-1394 | an error reply that the intended out-of-memory test flags writes `exit()` first, and after a successful reconnect raises with the counter at 0 |
| Session.SetCmdTimeoutRestores | PHPSikuli.php:942-947 | passing back the returned timeout restores the session |
| Session.Session.constructor | PHPSikuli.php:92-96 | a new session is disconnected, with counter 0, the default timeout 15 and no cached names |
| Session.Session.Read | PHPSikuli.php:1309-1401 | reading changes the session as the read specification says |
| Session.Session.SendCmd | PHPSikuli.php:1095-1112 | sending writes the command with `;print '>>>';\n` appended, and reads the reply on Windows |
| Session.Session.Connect | PHPSikuli.php:1121-1191 | connecting changes the session as the connect specification says |
| Session.Session.Disconnect | PHPSikuli.php:1199-1215 | disconnecting writes `exit()` and clears the connection flag |
| Session.Session.ResetConnection | PHPSikuli.php:1223-1228 | a reset is a disconnect followed by a connect |
| Session.Session.SetCmdTimeout | PHPSikuli.php:942-947 | the new timeout is stored and the old one returned |
| Session.Session.SetDefaultRegion | PHPSikuli.php:524-528 | only the default region changes |
| Session.Session.CallFunc | PHPSikuli.php:1030-1085 | a call changes the session as the call specification says |
| Session.Session.Conclude | PHPSikuli.php:1073-1083 | the end of a call: the reply read off Windows, then the reference or the reply returned, as specified |
| Session.Session.AddCacheVar | PHPSikuli.php:960-966 | only the cache changes, gaining the referenced name |
| Session.Session.RemoveCacheVar | PHPSikuli.php:978-988 | only the cache changes, losing the referenced name unless that name is empty |
| Session.Session.ClearVars | PHPSikuli.php:1000-1013 | the one clear command is sent and its reply read |
| Session.Session.ExtractKeys | PHPSikuli.php:328-354 | the loop computes the key-combination rewriting |
| Session.Session.Find | PHPSikuli.php:108-126 | an assigning `find` call on the receiver `FindReceiver` picks: the default region for an absent or NULL region, none for a region below zero, the given region otherwise |
| Session.Session.Exists | PHPSikuli.php:839-852 | `exists` on the given or default region, true exactly when the reply starts with `Match[` |
| Session.Session.Wheel | PHPSikuli.php:299-318 | `wheel` with the intended target rule, quoting off |
| Session.Session.Type | PHPSikuli.php:442-455 | `type` with the rewritten modifiers, and a numeric text sent pre-quoted with quoting off |
| Session.TypeQuoting | PHPSikuli.php:446-451 | quoting is switched off exactly for a numeric text |
| Session.RenderCallArgs | PHPSikuli.php:1045-1067 | the argument loop computes the rendered non-NULL arguments |
| Session.ClearVarsText | PHPSikuli.php:1002-1010 | the loop builds the clear text, and trimming it gives the clear command |
| Session.ClearTextParts | PHPSikuli.php:1009 | the clear text is holder, copy-outs, wipe and copy-backs, each followed by `;` |
| BrowserRules.TypingTimeout | PHPSikuliBrowser.php:196-197 | the typing time is a tenth of the length, rounded down |
| Text.Utf8Length | PHPSikuliBrowser.php:196 | `strlen` counts UTF-8 bytes: at least one and at most four per character |
| Text.Utf8LengthAscii | PHPSikuliBrowser.php:196 | the byte length equals the character count exactly when every character is ASCII |
| BrowserRules.TypingCmdTimeoutThreshold | PHPSikuliBrowser.php:199-203 | texts shorter than 110 bytes leave the timeout alone; longer ones raise it above 20 |
| BrowserRules.Trunc | PHPSikuliBrowser.php:458-461 | the `(int)` cast truncates toward zero |
| BrowserRules.RegionOnPageExact | PHPSikuliBrowser.php:454-466 | for whole-pixel rectangles the region is the corner shifted by the page position, sized by the corner differences |
| BrowserRules.PageScreenRoundTrip | PHPSikuliBrowser.php:476-534 | page-to-screen and screen-to-page conversions undo each other |
| BrowserRules.PositionDragMovesToTarget | PHPSikuliBrowser.php:926-946 | the drag moves the window by exactly the distance from its top-left corner to the target |
| BrowserRules.PositionDefaults | PHPSikuliBrowser.php:909-939 | with a coordinate missing and no default nothing is dragged; otherwise the default fills each missing x and y (a NULL in the default counting as 0), shifted by the same offsets as the window's corner |
| BrowserRules.Clamp | PHPSikuliBrowser.php:1014-1020 | a coordinate past the screen edge becomes the edge minus 5, otherwise it is kept |
| BrowserRules.ResizeTarget | PHPSikuliBrowser.php:1009-1024 | a size that fits is reached exactly; one that does not is clamped to 5 pixels inside the screen |
| BrowserRules.ResizeSkips | PHPSikuliBrowser.php:969-994 | no size and no default means no effect; a window that already has the size is not dragged |
| BrowserRules.ResizeWindowsCorner | PHPSikuliBrowser.php:998-1003 | on Windows the drag starts 3 pixels inside the reported corner |
| BrowserRules.BrowserName | PHPSikuliBrowser.php:815-823 | a name is found exactly for the eleven supported ids |
| BrowserRules.WindowsProcessNames | PHPSikuliBrowser.php:652-667 | on Windows the canary and nightly builds share their family's application name (`chrome`, `firefox`) |
| BrowserRules.IeIsIexplore | PHPSikuliBrowser.php:652-717 | every supported Internet Explorer version is the application `iexplore` on Windows and is closed by that task name |
| BrowserRules.EdgeCloseCommand | PHPSikuliBrowser.php:652-717 | on Windows Edge is closed with `taskkill /F /IM MicrosoftEdge.exe` |
| BrowserRules.AppNameSupported | PHPSikuliBrowser.php:674-676 | off Windows the application name is known exactly for the supported ids |
| BrowserRules.Lookup | PHPSikuliBrowser.php:1127-1146 | the entry found under a key has that key; none is found only when no entry has it |
| BrowserRules.SettingTouchesOwnKey | PHPSikuliBrowser.php:1128-1145 | a setting changes only the default its key names |
| BrowserRules.ApplySettingsByKey | PHPSikuliBrowser.php:1125-1148 | walking a settings array in order gives the same defaults as reading each key on its own |
| BrowserRules.IncompleteSizeIgnored | PHPSikuliBrowser.php:1138-1143 | a size entry without both width and height is ignored |
| BrowserRules.UnknownSettingsIgnored | PHPSikuliBrowser.php:1127-1146 | unknown keys change nothing |
| BrowserRules.EscapedHasNoLineFeed | PHPSikuliBrowser.php:402-405 | no line feed survives the escaping of a string result |
| BrowserRules.NoLineFeedUnchanged | PHPSikuliBrowser.php:402-405 | a string without line feeds is returned unchanged |
| BrowserRules.CrLfIsOneEscape | PHPSikuliBrowser.php:403-404 | wherever it stands, a CRLF becomes one `\n` escape, not two, and the text on either side is escaped on its own |
| BrowserRules.NullResults | PHPSikuliBrowser.php:396-398 | a result file returns NULL without being decoded exactly when it is `undefined` or made only of characters `trim` strips |
| Browser.WriteRetries | PHPSikuliBrowser.php:366-373 | the script write is attempted at most 11 times, stops at the first success, and succeeds exactly when one of the 11 would |
| Browser.WriteCommandFile | PHPSikuliBrowser.php:366-373 | the `do ... while ($maxTry-- > 0)` loop makes the specified number of attempts and reports the specified success |
| Browser.AwaitResultCases | PHPSikuliBrowser.php:385-392 | the text returned is the first to appear in time; "Browser is not responding!" is raised at the first check past 3 seconds with no file yet |
| Browser.WaitForResult | PHPSikuliBrowser.php:385-392 | the wait loop returns what the wait specification gives |
| Browser.ExecJSValue | PHPSikuliBrowser.php:380-407 | a value comes back only from a result that appeared in time and was neither `undefined` nor blank; fire-and-forget calls return NULL |
| Browser.ExecJSOrder | PHPSikuliBrowser.php:361-396 | a stale result is removed before the script is written; when the script was written, a result is read only after that write; every read is followed at once by the removal of the result file (a failed write still waits for and reads a result); nothing is read when no return value is wanted |
| Browser.TypeTimeoutRestored | PHPSikuliBrowser.php:192-213 | a successful type leaves the command timeout as it was; a text of 110 bytes or more that raises leaves it raised; a shorter text is the engine's own `type` |
| Browser.WideTextRaisesTimeout | PHPSikuliBrowser.php:196-203 | 55 characters outside ASCII are 110 bytes or more and already raise the timeout |
| Browser.PositionCachesWindow | PHPSikuliBrowser.php:909-956 | after a move the new window is cached and is the default region, and exactly the planned drag is recorded |
| Browser.ResizeTwiceDragsOnce | PHPSikuliBrowser.php:980-1038 | after a resize the size is remembered, and a second resize to it drags nothing |
| Browser.SetBrowserAccepts | PHPSikuliBrowser.php:572-590 | only supported ids are accepted and an accepted id is remembered; an unsupported one raises and changes nothing |
| Browser.SetBrowserWithoutDefaults | PHPSikuliBrowser.php:572-596 | without a default position or size, choosing a browser only caches its window |
| Browser.WindowNumber | PHPSikuliBrowser.php:616-627 | the Chrome family's window is number 1, every other browser's number 0 |
| Browser.Browser.constructor | PHPSikuliBrowser.php:106-121 | a new browser has an empty temporary directory and the settings applied |
| Browser.Browser.HandleSettings | PHPSikuliBrowser.php:1125-1148 | the loop applies the settings in array order and changes nothing else |
| Browser.Browser.ExecJS | PHPSikuliBrowser.php:357-411 | no result file is left; the script file holds the script if written; the file operations and the result are as specified |
| Browser.Browser.StopJSPolling | PHPSikuliBrowser.php:419-431 | neither file is left, after the stop request and the removal of the script |
| Browser.Browser.ReloadPage | PHPSikuliBrowser.php:156-162 | the remembered page position is dropped and polling stopped |
| Browser.Browser.Type | PHPSikuliBrowser.php:192-213 | typing changes the session as the typing specification says |
| Browser.Browser.GetPageTopLeft | PHPSikuliBrowser.php:542-561 | the page position is located once and then remembered |
| Browser.Browser.GetRegionOnPage | PHPSikuliBrowser.php:454-466 | the region asked for is the rectangle moved by the page position |
| Browser.Browser.PagePointOnScreen | PHPSikuliBrowser.php:476-500 | a page point is shifted by the page position |
| Browser.Browser.ScreenPointOnPage | PHPSikuliBrowser.php:510-534 | a screen point is shifted back by the page position |
| Browser.Browser.GetBrowserWindow | PHPSikuliBrowser.php:610-642 | on Windows the application itself; elsewhere an assigning `window(n)` call on the application |
| Browser.Browser.Position | PHPSikuliBrowser.php:909-956 | the planned drag is recorded, and the window swapped in the cache and made the default region |
| Browser.Browser.Resize | PHPSikuliBrowser.php:967-1039 | nothing, a region over the window, or a corner drag with the new window cached, remembered and made the default region |
| Browser.Browser.SetBrowser | PHPSikuliBrowser.php:572-600 | an unsupported id raises; otherwise the window is cached, then positioned and resized |
| Browser.Browser.ResetConnection | PHPSikuliBrowser.php:140-148 | polling stops, the session is reset, the size is forgotten and the browser chosen again |

## Left out

- Process spawning and teardown (`popen`, `proc_open`, `fclose`, `proc_close`): a connect takes a flag saying whether the process starts; only the connection flag, the counter and the commands written are kept.
- `stream_select` and `stream_get_contents`: the reader sees a trace of polls, each with the clock and the chunk from each ready stream.
- `microtime`, `sleep` and `usleep`: time is an integer clock read once per poll turn.
- The "Failed to read from stream" branch of `_getStreamOutput`: a poll in the model always names the stream that is ready.
- Emptying the Windows output file before each command: the model's file views are the contents the reader sees.
- `php_uname`: the system name is a constructor parameter; only the `getOS` mapping is modelled.
- `json_decode`: a parameter; only the `undefined`/blank rule and the string escaping are modelled.
- `__construct` of the session: the model has a constructor followed by `Connect`.
- Browser.Browser.constructor: it stops after the settings and the temporary directory. The `parent::__construct()` connect and the `_setBrowser($browser)` call that follow (PHPSikuliBrowser.php:128-130) are left to the caller, as `Connect` on the engine and then `Browser.Browser.SetBrowser`.
- Framing.Finish / Session.ReadS: the reader resets the connection on the intended out-of-memory test (`Framing.OutOfMemoryFound`, the error text contains the marker), not on the swapped `strpos` of PHPSikuli.php:1390. The two differ on an error text such as `java.lang.OutOfMemoryError: Java heap space` (the code as written raises without a reset) and on an empty error text (the code as written resets). Framing.GetStreamOutput, Framing.ExpiryInErrorMode, Session.Session.Read, Session.ErrorReplyRaises and Session.OutOfMemoryResets inherit this; see Findings.
- Session.Session.Find: a numeric string region is below zero when it has a minus sign and a mantissa that is not all zeros; a negative float that underflows to -0.0 (such as `-1e-400`) is not modelled.
- Session.Session.Find: the similarity branch, which checks that `$ps` is a file and wraps it in a pattern, is not modelled, because it depends on the file system.
- Session.Session.Wheel: it sends the corrected target rule, not the unconditional overwrite of `$psmrl` at PHPSikuli.php:308. The code as written is modelled by `Protocol.WheelArgsAsWritten`; see Findings.
- Protocol.ParseRef: only a whole-string `PHPSikuliVars["name"]` reference is parsed, case-sensitively; any other text gives the empty name, which is PHP's NULL array key.
- A read that resets the connection calls the session's own reset. The browser's `resetConnection` override is modelled as `Browser.Browser.ResetConnection`, but the session does not dispatch to it.
- Session.ConnectS: a connect can raise and still leave the session connected. A nested out-of-memory reset inside the connect's own reads reconnects successfully and then raises. So no lemma states "a failed connect leaves the session disconnected".
- GUI pass-through helpers that only forward to `callFunc`: `click`, `keyDown`, `dragDrop`, `getX`, `getTopLeft`, `createRegion`, `createLocation`, `switchApp`, `highlight`, and others. The browser methods take what these report as parameters and record the drags and regions they ask for.
- Browser.Browser.Position, Browser.Browser.Resize, Browser.Browser.SetBrowser, Browser.Browser.ReloadPage and Browser.Browser.GetBrowserWindow: the engine calls these make through the pass-through helpers (`switchApp`, `App`/`focus`/`window`, `getX`, `createLocation`, `dragDrop`, `createRegion`, `keyDown`) are not replayed on the session. Their command lines, their replies and the counter bumps of the assigning ones are missing from the session state these methods promise; only the cache and the default region change there.
- `getMemoryAvailable`, `capture`, `setSetting` and the other one-line wrappers: they add nothing beyond `callFunc`.
- `closeBrowser`, `startBrowser` and `restartBrowser` run shell commands and key sequences. Only the command text (`BrowserRules.CloseCommand`) and the application names are modelled.
- `chmod`, `chgrp` and `mkdir` on the temporary directory: file permissions are not modelled; the file group setting is kept.
- `getPageTopLeft`'s location of the page through a target icon (two `execJS` calls and a `find`): the located position is a parameter.
- `goToURL`, `getBoundingRectangle`, `clickElement`, `getElementRegion`, `getHTML`, `getJSErrors` and `log`: these are compositions of `execJS` and GUI calls with no rules of their own.
- PHPSikuliBrowser.js is not part of this model: its timers and asynchronous callbacks are the page's side of the handshake. The page never writes a result file on its own, so the result file that `stopJSPolling` removes when the page wrote one during `execJS`'s half-second wait (PHPSikuliBrowser.php:423-425) never appears in `StopJSPollingOps`.
- BrowserRules.RegionOnPage: the rectangle's coordinates are exact reals, not PHP doubles, so the rounding of the additions before the `(int)` casts at PHPSikuliBrowser.php:458-461 is not modelled.
- Debug output and `ob_flush`.
- PHP strings are byte strings; the model compares, splits, trims and replaces them character by character, which agrees with byte-wise work for the ASCII markers and separators involved. Only `strlen` in `type` depends on the byte count, and it is modelled as the UTF-8 length.
- Browser.WriteCommandFile: attempts past the end of the given outcomes count as failures.

## Findings

| source | as written | input that shows it | evidently intended | confidence | as-written member | corrected member |
|---|---|---|---|---|---|---|
| PHPSikuli.php:1390 | `strpos('java.lang.OutOfMemoryError', $content)` searches the marker for the error text | error text `java.lang.OutOfMemoryError: Java heap space` does not reset the connection, while an empty error text does | reset when the error text contains the marker | high (not executed) | Framing.OutOfMemorySwapped | Framing.OutOfMemoryFound |
| PHPSikuli.php:308 | `$psmrl = $this->_defaultRegion;` overwrites the target argument unconditionally | `wheel(3, R1)` with default region `R0` sends `wheel(R0, WHEEL_DOWN, 3)` | use the given target and fall back to the default region | medium (not executed) | Protocol.WheelIgnoresTarget | Protocol.WheelUsesTarget |
