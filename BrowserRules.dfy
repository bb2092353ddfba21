/**
 * The arithmetic, tables and parsing the browser extension applies around its
 * engine calls: the typing timeout, page and region coordinates, where the
 * window is dragged to when it is positioned or resized, the browser name
 * tables, the settings given at construction, and how a script's result file
 * becomes a value.
 */
module BrowserRules {
  import opened Text
  import opened Outcomes

  // ---------------------------------------------------------------------
  // Typing timeout

  /** `(int) ((strlen($text) * 10) / 100)`: a tenth of the text length, rounded down. */
  function TypingTimeout(length: nat): (t: nat)
    ensures 10 * t <= length < 10 * (t + 1)
  {
    (length * 10) / 100
  }

  /** The command timeout while typing: ten more than the typing time when that exceeds ten, else unchanged. */
  function TypingCmdTimeout(length: nat): Option<int> {
    var t := TypingTimeout(length);
    if t > 10 then Some(t + 10) else None
  }

  /** Texts shorter than 110 bytes leave the timeout alone; longer ones raise it above 20. */
  lemma TypingCmdTimeoutThreshold(length: nat)
    ensures TypingCmdTimeout(length).None? <==> length < 110
    ensures TypingCmdTimeout(length).Some? ==> TypingCmdTimeout(length).value > 20
  {
  }

  // ---------------------------------------------------------------------
  // Page coordinates

  /** A point on the screen or on the page. */
  datatype Loc = Loc(x: int, y: int)

  /** A region: top-left corner and size. */
  datatype Region = Region(x: int, y: int, w: int, h: int)

  /** An element's bounding rectangle on the page, as the page script reports it. */
  datatype Rect = Rect(x1: real, y1: real, x2: real, y2: real)

  /** PHP's `(int)` cast of a float: truncation toward zero. */
  function Trunc(r: real): (i: int)
    ensures r >= 0.0 ==> i as real <= r < i as real + 1.0
    ensures r < 0.0 ==> i as real - 1.0 < r <= i as real
  {
    if r >= 0.0 then r.Floor else -((-r).Floor)
  }

  lemma TruncOfInt(i: int)
    ensures Trunc(i as real) == i
  {
  }

  /** `getRegionOnPage`: the rectangle moved by the page's screen position, truncated to whole pixels. */
  function RegionOnPage(page: Loc, rect: Rect): Region {
    Region(Trunc(page.x as real + rect.x1), Trunc(page.y as real + rect.y1),
           Trunc(rect.x2 - rect.x1), Trunc(rect.y2 - rect.y1))
  }

  /** For a whole-pixel rectangle the region is exact: corner shifted by the page position, size the difference of corners. */
  lemma RegionOnPageExact(page: Loc, x1: int, y1: int, x2: int, y2: int)
    ensures RegionOnPage(page, Rect(x1 as real, y1 as real, x2 as real, y2 as real))
            == Region(page.x + x1, page.y + y1, x2 - x1, y2 - y1)
  {
    TruncOfInt(page.x + x1);
    TruncOfInt(page.y + y1);
    TruncOfInt(x2 - x1);
    TruncOfInt(y2 - y1);
  }

  /** `getPageXRelativeToScreen` / `getPageYRelativeToScreen`. */
  function PageToScreen(page: Loc, p: Loc): Loc {
    Loc(page.x + p.x, page.y + p.y)
  }

  /** `getPageX` / `getPageY`. */
  function ScreenToPage(page: Loc, p: Loc): Loc {
    Loc(p.x - page.x, p.y - page.y)
  }

  /** The two conversions undo each other. */
  lemma PageScreenRoundTrip(page: Loc, p: Loc)
    ensures ScreenToPage(page, PageToScreen(page, p)) == p
    ensures PageToScreen(page, ScreenToPage(page, p)) == p
  {
  }

  // ---------------------------------------------------------------------
  // Positioning and resizing

  /** A mouse drag from one point to another. */
  datatype Drag = Drag(from: Loc, to: Loc)

  /** A default position whose coordinates may be missing (PHP NULL, which counts as 0 in arithmetic). */
  datatype Position = Position(x: Option<int>, y: Option<int>)

  datatype Size = Size(w: int, h: int)

  /**
   * `position`: the drag that moves the window's title bar so that its top-left
   * corner lands on (x, y); none when a coordinate is missing and no default is set.
   */
  function PositionDrag(x: Option<int>, y: Option<int>, default: Option<Position>, topLeft: Loc, topRight: Loc): Option<Drag> {
    if (x.None? || y.None?) && default.None? then None
    else
      var tx := if x.Some? then x.value else default.value.x.GetOr(0);
      var ty := if y.Some? then y.value else default.value.y.GetOr(0);
      var xOffset := topRight.x - topLeft.x - 250;
      var yOffset := 5;
      Some(Drag(Loc(topLeft.x + xOffset, topLeft.y + yOffset), Loc(tx + xOffset, ty + yOffset)))
  }

  /** The drag moves the window by exactly the distance from its top-left corner to the target. */
  lemma PositionDragMovesToTarget(x: int, y: int, default: Option<Position>, topLeft: Loc, topRight: Loc)
    ensures PositionDrag(Some(x), Some(y), default, topLeft, topRight).Some?
    ensures var d := PositionDrag(Some(x), Some(y), default, topLeft, topRight).value;
            d.to.x - d.from.x == x - topLeft.x && d.to.y - d.from.y == y - topLeft.y
            && d.from.x == topRight.x - 250 && d.from.y == topLeft.y + 5
  {
  }

  /**
   * Without a default, a missing coordinate means no drag; with one, the default
   * fills each missing coordinate, a NULL in the default counting as 0.
   */
  lemma PositionDefaults(x: Option<int>, y: Option<int>, default: Option<Position>, topLeft: Loc, topRight: Loc)
    ensures PositionDrag(x, y, default, topLeft, topRight).None? <==> (x.None? || y.None?) && default.None?
    ensures x.None? && default.Some? ==>
              PositionDrag(x, y, default, topLeft, topRight).value.to.x == default.value.x.GetOr(0) + topRight.x - topLeft.x - 250
    ensures y.None? && default.Some? ==>
              PositionDrag(x, y, default, topLeft, topRight).value.to.y == default.value.y.GetOr(0) + 5
  {
  }

  /** What `resize` does: nothing, only set the default region to the window, or drag a corner. */
  datatype ResizePlan = NoSize | Keep(size: Size) | Resize(size: Size, drag: Drag)

  /** The width and height asked for: the arguments, with missing ones taken from the default size. */
  function WantedSize(w: Option<int>, h: Option<int>, default: Option<Size>): Option<Size> {
    if (w.None? || h.None?) && default.None? then None
    else Some(Size(if w.Some? then w.value else default.value.w, if h.Some? then h.value else default.value.h))
  }

  /** A target coordinate beyond the screen edge is pulled back to five pixels inside it. */
  function Clamp(target: int, screen: int): (c: int)
    ensures c <= target && (c == target || c == screen - 5)
  {
    if target > screen then screen - 5 else target
  }

  /**
   * `resize`: given the remembered size, the window's region and bottom-right
   * corner as the engine reports them, and the screen size.
   */
  function ResizeFor(w: Option<int>, h: Option<int>, default: Option<Size>, remembered: Option<Size>,
                     window: Region, bottomRight: Loc, screen: Size, os: string): ResizePlan
  {
    var wanted := WantedSize(w, h, default);
    if wanted.None? then NoSize
    else
      var size := wanted.value;
      if remembered == Some(size) || (window.w == size.w && window.h == size.h) then Keep(size)
      else
        var corner := if os == "windows" then Loc(bottomRight.x - 3, bottomRight.y - 3) else bottomRight;
        Resize(size, Drag(corner, Loc(Clamp(window.x + size.w, screen.w), Clamp(window.y + size.h, screen.h))))
  }

  /** A size that fits on the screen is reached exactly; one that does not is clamped to 5 pixels inside the edge. */
  lemma ResizeTarget(w: int, h: int, default: Option<Size>, remembered: Option<Size>,
                     window: Region, bottomRight: Loc, screen: Size, os: string)
    requires ResizeFor(Some(w), Some(h), default, remembered, window, bottomRight, screen, os).Resize?
    ensures var d := ResizeFor(Some(w), Some(h), default, remembered, window, bottomRight, screen, os).drag;
            (window.x + w <= screen.w ==> d.to.x == window.x + w)
            && (window.x + w > screen.w ==> d.to.x == screen.w - 5)
            && (window.y + h <= screen.h ==> d.to.y == window.y + h)
            && (window.y + h > screen.h ==> d.to.y == screen.h - 5)
  {
  }

  /** Nothing is dragged when no size is given and no default is set, or when the window already has the size. */
  lemma ResizeSkips(w: Option<int>, h: Option<int>, default: Option<Size>, remembered: Option<Size>,
                    window: Region, bottomRight: Loc, screen: Size, os: string)
    ensures (w.None? || h.None?) && default.None? ==>
              ResizeFor(w, h, default, remembered, window, bottomRight, screen, os) == NoSize
    ensures WantedSize(w, h, default) == Some(Size(window.w, window.h)) ==>
              ResizeFor(w, h, default, remembered, window, bottomRight, screen, os) == Keep(Size(window.w, window.h))
  {
  }

  /** On Windows the drag starts three pixels inside the reported corner. */
  lemma ResizeWindowsCorner(size: Size, window: Region, bottomRight: Loc, screen: Size)
    requires ResizeFor(Some(size.w), Some(size.h), None, None, window, bottomRight, screen, "windows").Resize?
    ensures ResizeFor(Some(size.w), Some(size.h), None, None, window, bottomRight, screen, "windows").drag.from
            == Loc(bottomRight.x - 3, bottomRight.y - 3)
  {
  }

  // ---------------------------------------------------------------------
  // Browser names

  /** The supported browser ids and their display names. */
  const SupportedBrowsers: map<string, string> := map[
    "firefox" := "Firefox",
    "firefoxNightly" := "FirefoxNightly",
    "chrome" := "Google Chrome",
    "chromium" := "Chromium",
    "chromeCanary" := "Google Chrome Canary",
    "safari" := "Safari",
    "ie8" := "Internet Explorer 8",
    "ie9" := "Internet Explorer 9",
    "ie10" := "Internet Explorer 10",
    "ie11" := "Internet Explorer 11",
    "edge" := "Edge"
  ]

  /** `getBrowserName`: the display name, NULL for an unknown id. */
  function BrowserName(id: string): (r: Option<string>)
    ensures r.Some? <==> id in SupportedBrowsers
  {
    if id in SupportedBrowsers then Some(SupportedBrowsers[id]) else None
  }

  /** `_getAppName`: the executable family on Windows, the display name elsewhere. */
  function AppName(id: string, os: string): Option<string> {
    if os == "windows" then
      Some(if id == "chrome" || id == "chromium" || id == "chromeCanary" then "chrome"
           else if id == "firefox" || id == "firefoxNightly" then "firefox"
           else if StartsWith(id, "ie") then "iexplore"
           else id)
    else BrowserName(id)
  }

  /** The process name `closeBrowser` kills on Windows. */
  function TaskName(id: string): string {
    if id == "edge" then "MicrosoftEdge" else if StartsWith(id, "ie") then "iexplore" else id
  }

  /** The shell command `closeBrowser` runs: `pkill` on OS X, `taskkill` on Windows, none elsewhere. */
  function CloseCommand(id: string, os: string): Option<string> {
    if os == "osx" then Some("pkill -15 -i " + id)
    else if os == "windows" then Some("taskkill /F /IM " + TaskName(id) + ".exe")
    else None
  }

  /** The canary and nightly builds run as their family's application on Windows. */
  lemma WindowsProcessNames()
    ensures AppName("chromeCanary", "windows") == Some("chrome") && AppName("firefoxNightly", "windows") == Some("firefox")
  {
  }

  /** Every supported Internet Explorer version is the one application `iexplore` on Windows, and is closed as such. */
  lemma IeIsIexplore()
    ensures forall id :: id in SupportedBrowsers && StartsWith(id, "ie") ==>
              AppName(id, "windows") == Some("iexplore") && TaskName(AppName(id, "windows").value) == "iexplore"
  {
    Differs("edge", "ie", 0);
    Differs("chrome", "ie", 0);
    Differs("chromium", "ie", 0);
    Differs("chromeCanary", "ie", 0);
    Differs("firefox", "ie", 0);
    Differs("firefoxNightly", "ie", 0);
    assert "iexplore"[..2] == "ie";
  }

  /** Edge keeps its id as application name on Windows and is killed as `MicrosoftEdge.exe`. */
  lemma EdgeCloseCommand()
    ensures CloseCommand(AppName("edge", "windows").value, "windows") == Some("taskkill /F /IM MicrosoftEdge.exe")
  {
    Differs("edge", "ie", 0);
    assert "windows" != "osx";
    assert "taskkill /F /IM " + "MicrosoftEdge" + ".exe" == "taskkill /F /IM MicrosoftEdge.exe";
  }

  /** Off Windows the application is known exactly for the supported ids. */
  lemma AppNameSupported(id: string, os: string)
    requires os != "windows"
    ensures AppName(id, os).Some? <==> id in SupportedBrowsers
  {
  }

  // ---------------------------------------------------------------------
  // Settings

  /** One entry of the settings array, by key; values the code does not read are not kept. */
  datatype Setting =
    | FileGroupOwner(group: string)
    | PositionSetting(x: Option<int>, y: Option<int>)
    | SizeSetting(isArray: bool, width: Option<int>, height: Option<int>)
    | Unknown(key: string)

  /** What the settings set: the file group, the default position and the default size. */
  datatype Defaults = Defaults(fileGroup: Option<string>, position: Option<Position>, size: Option<Size>)

  /** `_handleSettings` for one entry. */
  function ApplySetting(d: Defaults, s: Setting): Defaults {
    match s
    case FileGroupOwner(g) => d.(fileGroup := Some(g))
    case PositionSetting(x, y) => d.(position := Some(Position(x, y)))
    case SizeSetting(isArray, w, h) =>
      if isArray && w.Some? && h.Some? then d.(size := Some(Size(w.value, h.value))) else d
    case Unknown(_) => d
  }

  /** `_handleSettings`: the entries applied in order. */
  function ApplySettings(d: Defaults, settings: seq<Setting>): Defaults
    decreases |settings|
  {
    if |settings| == 0 then d else ApplySettings(ApplySetting(d, settings[0]), settings[1..])
  }

  /** The array key an entry was given under. */
  function KeyOf(s: Setting): string {
    match s
    case FileGroupOwner(_) => "fileGroupOwner"
    case PositionSetting(_, _) => "position"
    case SizeSetting(_, _, _) => "size"
    case Unknown(k) => k
  }

  /** A PHP array holds each key once. */
  predicate DistinctKeys(settings: seq<Setting>) {
    forall i, j | 0 <= i < j < |settings| :: KeyOf(settings[i]) != KeyOf(settings[j])
  }

  /** `$settings[$key]`: the entry stored under a key, if any. */
  function Lookup(settings: seq<Setting>, key: string): (r: Option<Setting>)
    ensures r.Some? ==> KeyOf(r.value) == key && r.value in settings
    ensures r.None? ==> forall k | 0 <= k < |settings| :: KeyOf(settings[k]) != key
    decreases |settings|
  {
    if |settings| == 0 then None
    else if KeyOf(settings[0]) == key then Some(settings[0])
    else Lookup(settings[1..], key)
  }

  /** The defaults after an optional entry is applied; no entry changes nothing. */
  function ApplyEntry(d: Defaults, e: Option<Setting>): Defaults {
    if e.Some? then ApplySetting(d, e.value) else d
  }

  /**
   * The settings read key by key, independent of their order: each known key's
   * entry decides its own default.
   */
  function ByKey(d: Defaults, settings: seq<Setting>): Defaults {
    Defaults(ApplyEntry(d, Lookup(settings, "fileGroupOwner")).fileGroup,
             ApplyEntry(d, Lookup(settings, "position")).position,
             ApplyEntry(d, Lookup(settings, "size")).size)
  }

  /** An entry changes only the default its key names. */
  lemma SettingTouchesOwnKey(d: Defaults, s: Setting)
    ensures KeyOf(s) != "fileGroupOwner" ==> ApplySetting(d, s).fileGroup == d.fileGroup
    ensures KeyOf(s) != "position" ==> ApplySetting(d, s).position == d.position
    ensures KeyOf(s) != "size" ==> ApplySetting(d, s).size == d.size
  {
  }

  /** Walking an array with distinct keys in order gives the key-by-key reading. */
  lemma {:induction false} ApplySettingsByKey(d: Defaults, settings: seq<Setting>)
    requires DistinctKeys(settings)
    ensures ApplySettings(d, settings) == ByKey(d, settings)
    decreases |settings|
  {
    if |settings| > 0 {
      var s0 := settings[0];
      var rest := settings[1..];
      var d1 := ApplySetting(d, s0);
      assert DistinctKeys(rest) by {
        forall i, j | 0 <= i < j < |rest|
          ensures KeyOf(rest[i]) != KeyOf(rest[j])
        {
          assert rest[i] == settings[i + 1] && rest[j] == settings[j + 1];
        }
      }
      ApplySettingsByKey(d1, rest);
      forall k | 0 <= k < |rest|
        ensures KeyOf(rest[k]) != KeyOf(s0)
      {
        assert rest[k] == settings[k + 1];
      }
      assert Lookup(rest, KeyOf(s0)).None?;
      SettingTouchesOwnKey(d, s0);
    }
  }

  /** A size entry without both a width and a height is ignored. */
  lemma IncompleteSizeIgnored(d: Defaults, isArray: bool, w: Option<int>, h: Option<int>)
    requires !isArray || w.None? || h.None?
    ensures ApplySetting(d, SizeSetting(isArray, w, h)) == d
  {
  }

  /** Unknown keys change nothing, wherever they appear. */
  lemma {:induction false} UnknownSettingsIgnored(d: Defaults, settings: seq<Setting>)
    requires forall k :: 0 <= k < |settings| ==> settings[k].Unknown?
    ensures ApplySettings(d, settings) == d
    decreases |settings|
  {
    if |settings| > 0 {
      UnknownSettingsIgnored(d, settings[1..]);
    }
  }

  // ---------------------------------------------------------------------
  // Script results

  /** A decoded JSON value: a string, or any other value kept as it was decoded. */
  datatype JsValue = JsNull | JsString(s: string) | JsData(json: string)

  /** `\r\n`, then `\n`, replaced by the two characters `\` and `n`. */
  function EscapeNewlines(s: string): string {
    Replace(Replace(s, "\r\n", "\\n"), "\n", "\\n")
  }

  /**
   * What `execJS` returns for a result file's text: NULL for `undefined` or a
   * blank file; otherwise the decoded value, with a string's newlines escaped
   * unless the raw text was asked for. `decode` stands for `json_decode`.
   */
  function JsResult(text: string, raw: bool, decode: string -> JsValue): Option<JsValue> {
    if text == "undefined" || Trim(text) == "" then None
    else
      var v := decode(text);
      if v.JsString? && !raw then Some(JsString(EscapeNewlines(v.s))) else Some(v)
  }

  /** No line feed survives the escaping. */
  lemma EscapedHasNoLineFeed(s: string)
    ensures '\n' !in EscapeNewlines(s)
  {
    ReplaceRemovesChar(Replace(s, "\r\n", "\\n"), '\n', "\\n");
  }

  /** A string without line feeds is returned unchanged. */
  lemma NoLineFeedUnchanged(s: string)
    requires '\n' !in s
    ensures EscapeNewlines(s) == s
  {
    LastCharMissing(s, "\r\n");
    ReplaceAbsent(s, "\r\n", "\\n");
    LastCharMissing(s, "\n");
    ReplaceAbsent(s, "\n", "\\n");
  }

  /** Text whose last character is missing from `s` does not occur in `s`. */
  lemma {:induction false} LastCharMissing(s: string, p: string)
    requires |p| > 0 && p[|p| - 1] !in s
    ensures !Contains(s, p)
    decreases |s|
  {
    if |p| <= |s| {
      assert s[..|p|][|p| - 1] == s[|p| - 1];
    }
    if |s| > 0 {
      LastCharMissing(s[1..], p);
    }
  }

  /** Each Windows line end becomes one escape, not two, wherever it stands. */
  lemma CrLfIsOneEscape(a: string, b: string)
    ensures EscapeNewlines(a + "\r\n" + b) == EscapeNewlines(a) + "\\n" + EscapeNewlines(b)
  {
    var e := "\\n";
    assert a + "\r\n" + b == a + ("\r\n" + b);
    ReplaceBeforeCrLf(a, b, e);
    var ra := Replace(a, "\r\n", e);
    var rb := Replace(b, "\r\n", e);
    assert '\n' !in e;
    LastCharMissing(e, "\n");
    ReplaceAbsent(e, "\n", e);
    ReplaceCharConcat(ra + e, rb, '\n', e);
    ReplaceCharConcat(ra, e, '\n', e);
  }

  /** `undefined` and blank results are NULL whatever the decoder makes of them. */
  lemma NullResults(text: string, raw: bool, decode: string -> JsValue)
    ensures JsResult(text, raw, decode).None?
        <==> text == "undefined" || forall k :: 0 <= k < |text| ==> text[k] in TrimChars
  {
    TrimEmpty(text, TrimChars);
  }
}
