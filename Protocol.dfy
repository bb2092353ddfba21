/**
 * The command side of the Sikuli protocol: how a call becomes one Jython
 * line (PHPSikuli::callFunc), how a key combination is rewritten
 * (PHPSikuli::_extractKeys), the composite command that clears the engine's
 * variable namespace while keeping cached references (PHPSikuli::clearVars),
 * the cache of reference names, and the small argument rules of find, exists,
 * wheel and getOS.
 */
module Protocol {
  import opened Text
  import opened Outcomes

  // ---------------------------------------------------------------------
  // Arguments

  /** A PHP value passed as a call argument. Floats are given by their decimal text. */
  datatype Arg = Null | Int(i: int) | Bool(b: bool) | Str(s: string)

  /** A key of a PHP array. */
  datatype Key = Index(n: int) | Name(s: string)

  /** An argument array: its entries in insertion order. */
  type ArgList = seq<(Key, Arg)>

  /** The array key that switches quoting off. */
  const NoQuotesKey: Key := Name("_noQuotes")

  /** What PHP writes for a value in string context. */
  function ArgText(a: Arg): string {
    match a
    case Null => ""
    case Int(i) => IntToString(i)
    case Bool(b) => if b then "1" else ""
    case Str(s) => s
  }

  /** `is_numeric`. */
  predicate IsNumeric(a: Arg) {
    match a
    case Int(_) => true
    case Str(s) => IsNumericString(s)
    case _ => false
  }

  /** The argument goes into the line as it is, without quotes. */
  predicate IsBare(a: Arg, addQuotes: bool) {
    || !addQuotes
    || IsNumeric(a)
    || StartsWith(ArgText(a), "var_")
    || StartsWith(ArgText(a), "PHPSikuliVars")
    || StartsWith(ArgText(a), "Key.")
  }

  /** One argument as it appears in the line. Embedded quotes are not escaped. */
  function Render(a: Arg, addQuotes: bool): string {
    if IsBare(a, addQuotes) then ArgText(a) else "'" + ArgText(a) + "'"
  }

  /** `isset($args['_noQuotes'])`: the marker key is present with a non-NULL value. */
  predicate HasNoQuotes(args: ArgList) {
    exists k | 0 <= k < |args| :: args[k].0 == NoQuotesKey && args[k].1 != Null
  }

  /** `unset($args[$key])`. */
  function Unset(args: ArgList, key: Key): (r: ArgList)
    ensures forall k :: 0 <= k < |r| ==> r[k].0 != key
    decreases |args|
  {
    if |args| == 0 then []
    else if args[0].0 == key then Unset(args[1..], key)
    else [args[0]] + Unset(args[1..], key)
  }

  lemma {:induction false} UnsetAbsent(args: ArgList, key: Key)
    requires forall k :: 0 <= k < |args| ==> args[k].0 != key
    ensures Unset(args, key) == args
    decreases |args|
  {
    if |args| > 0 {
      UnsetAbsent(args[1..], key);
      assert [args[0]] + args[1..] == args;
    }
  }

  /** The values of an array, in order (what `foreach` visits). */
  function Values(args: ArgList): (vs: seq<Arg>)
    ensures |vs| == |args|
    ensures forall k :: 0 <= k < |args| ==> vs[k] == args[k].1
  {
    seq(|args|, k requires 0 <= k < |args| => args[k].1)
  }

  /** The values `callFunc` iterates over: the array after the marker key is unset. */
  function CallValues(args: ArgList): seq<Arg> {
    if HasNoQuotes(args) then Values(Unset(args, NoQuotesKey)) else Values(args)
  }

  /** The rendered arguments, skipping NULLs, in the order of `foreach`. */
  function RenderArgs(vs: seq<Arg>, addQuotes: bool): seq<string>
    decreases |vs|
  {
    if |vs| == 0 then []
    else if vs[0] == Null then RenderArgs(vs[1..], addQuotes)
    else [Render(vs[0], addQuotes)] + RenderArgs(vs[1..], addQuotes)
  }

  /** The non-NULL values of a sequence, in order: the reference for what is emitted. */
  function NonNull(vs: seq<Arg>): (r: seq<Arg>)
    ensures forall k :: 0 <= k < |r| ==> r[k] != Null
    decreases |vs|
  {
    if |vs| == 0 then []
    else if vs[0] == Null then NonNull(vs[1..])
    else [vs[0]] + NonNull(vs[1..])
  }

  /** The engine-side reference created by the n-th assigning call of a session. */
  function VarRef(n: nat): string {
    "PHPSikuliVars[\"var_" + IntToString(n) + "\"]"
  }

  /** The line `[var = ][obj.]name(arg, arg, ...)` that `callFunc` sends. */
  function CallLine(name: string, args: ArgList, obj: Option<string>, v: Option<string>): string {
    (if v.Some? then v.value + " = " else "")
    + (if obj.Some? then obj.value + "." else "")
    + name + "(" + Join(RenderArgs(CallValues(args), !HasNoQuotes(args)), ", ") + ")"
  }

  /** The suffix `sendCmd` appends so that the reader sees the end of the response. */
  const SentinelSuffix := ";print '>>>';\n"

  // ---------------------------------------------------------------------
  // Serializer properties

  /** The arguments emitted are the non-NULL ones, each rendered, in their original order. */
  lemma {:induction false} RenderArgsKeepsOrder(vs: seq<Arg>, addQuotes: bool)
    ensures |RenderArgs(vs, addQuotes)| == |NonNull(vs)|
    ensures forall k :: 0 <= k < |NonNull(vs)| ==> RenderArgs(vs, addQuotes)[k] == Render(NonNull(vs)[k], addQuotes)
    decreases |vs|
  {
    if |vs| > 0 {
      RenderArgsKeepsOrder(vs[1..], addQuotes);
    }
  }

  lemma {:induction false} NonNullUnsetNull(args: ArgList, key: Key)
    requires forall k :: 0 <= k < |args| && args[k].0 == key ==> args[k].1 == Null
    ensures NonNull(Values(Unset(args, key))) == NonNull(Values(args))
    decreases |args|
  {
    if |args| > 0 {
      NonNullUnsetNull(args[1..], key);
      assert Values(args)[1..] == Values(args[1..]);
      if args[0].0 != key {
        assert Values([args[0]] + Unset(args[1..], key))[1..] == Values(Unset(args[1..], key));
      }
    }
  }

  /**
   * The `_noQuotes` marker never reaches the line: whether or not it is set,
   * the emitted values are the non-NULL values of the other entries, in order.
   */
  lemma NoQuotesNeverEmitted(args: ArgList)
    ensures NonNull(CallValues(args)) == NonNull(Values(Unset(args, NoQuotesKey)))
  {
    if !HasNoQuotes(args) {
      NonNullUnsetNull(args, NoQuotesKey);
    }
  }

  /** Quoting is off exactly when the marker is set. */
  lemma QuotingFollowsMarker(args: ArgList, a: Arg)
    requires a != Null && !IsNumeric(a)
    requires !StartsWith(ArgText(a), "var_") && !StartsWith(ArgText(a), "PHPSikuliVars") && !StartsWith(ArgText(a), "Key.")
    ensures Render(a, !HasNoQuotes(args)) == (if HasNoQuotes(args) then ArgText(a) else "'" + ArgText(a) + "'")
  {
  }

  /** A reference issued by an earlier assigning call is passed through bare. */
  lemma VarRefPassedBare(n: nat, addQuotes: bool)
    ensures Render(Str(VarRef(n)), addQuotes) == VarRef(n)
  {
    assert VarRef(n)[..13] == "PHPSikuliVars";
  }

  /** Integers are emitted as their decimal text, never quoted. */
  lemma IntPassedBare(i: int, addQuotes: bool)
    ensures Render(Int(i), addQuotes) == IntToString(i)
  {
    IntToStringIsNumeric(i);
  }

  /** A string that starts with a letter is not numeric. */
  lemma LetterStartNotNumeric(s: string)
    requires |s| > 0 && ('a' <= s[0] <= 'z' || 'A' <= s[0] <= 'Z')
    ensures !IsNumericString(s)
  {
    assert s[0] !in NumericSpace;
    assert TrimLeftBy(s, NumericSpace) == s;
    var t := TrimBy(s, NumericSpace);
    assert t == TrimRightBy(s, NumericSpace);
    if |t| > 0 {
      assert t[0] == s[0];
      assert !IsDigit(t[0]);
      assert LeadingDigits(t) == 0;
      assert t[0..] == t;
      assert !IsUnsignedDecimal(t);
    }
  }

  /**
   * No escaping: a quote inside a quoted argument is kept as it is, so `a'b`
   * becomes `'a'b'`, a Jython literal that ends after `a`. The first letter is
   * lower-case and not `v`, so that no special prefix applies.
   */
  lemma QuoteNotEscaped(a: string, b: string)
    requires |a| > 0 && 'a' <= a[0] <= 'z' && a[0] != 'v'
    ensures Render(Str(a + "'" + b), true) == "'" + a + "'" + b + "'"
  {
    var s := a + "'" + b;
    assert s[0] == a[0];
    LetterStartNotNumeric(s);
    Differs(s, "var_", 0);
    Differs(s, "PHPSikuliVars", 0);
    Differs(s, "Key.", 0);
    assert !IsBare(Str(s), true);
    Wrapped("'", a, b);
  }

  /** Wrapping `a q b` in `q` reads as `q a q b q`. */
  lemma Wrapped(q: string, a: string, b: string)
    ensures q + (a + q + b) + q == q + a + q + b + q
  {
    assert q + (a + q + b) == q + a + q + b;
  }

  /** The digits of the counter are the text between `var_` and the closing `"]`. */
  lemma {:induction false} VarRefDigits(n: nat)
    ensures |VarRef(n)| == 21 + |IntToString(n)|
    ensures VarRef(n)[19..|VarRef(n)| - 2] == NatToString(n)
  {
  }

  /** Distinct counter values give distinct references. */
  lemma VarRefInjective(m: nat, n: nat)
    requires m != n
    ensures VarRef(m) != VarRef(n)
  {
    VarRefDigits(m);
    VarRefDigits(n);
    NatToStringInjective(m, n);
  }

  // ---------------------------------------------------------------------
  // Key combinations (_extractKeys)

  /** PHP's `empty()` on a string argument: NULL, "" and "0" are empty. */
  predicate IsEmptyValue(s: Option<string>) {
    s.None? || s.value == "" || s.value == "0"
  }

  /** One `+`-separated part: special keys stay bare, others are double-quoted. */
  function KeyToken(part: string, os: string): string {
    var key := Trim(part);
    if StartsWith(key, "Key.") then
      (if key == "Key.CMD" && os == "windows" then "Key.CTRL" else key)
    else
      "\"" + key + "\""
  }

  function KeyTokens(parts: seq<string>, os: string): (r: seq<string>)
    ensures |r| == |parts|
    ensures forall k :: 0 <= k < |parts| ==> r[k] == KeyToken(parts[k], os)
  {
    seq(|parts|, k requires 0 <= k < |parts| => KeyToken(parts[k], os))
  }

  /** `_extractKeys`: NULL for an empty combination, else the rewritten parts joined by `+`. */
  function ExtractKeysSpec(keysStr: Option<string>, os: string): Option<string> {
    if IsEmptyValue(keysStr) then None
    else Some(Join(KeyTokens(Split(keysStr.value, '+'), os), "+"))
  }

  lemma KeyTokenFree(part: string, os: string)
    requires '+' !in part
    ensures '+' !in KeyToken(part, os)
  {
    TrimSubset(part, TrimChars, '+');
  }

  /**
   * The rewritten combination has exactly as many `+`-separated parts as the
   * input, and each of them is the rewriting of the input part at that place.
   */
  lemma ExtractKeysParts(keysStr: string, os: string)
    requires !IsEmptyValue(Some(keysStr))
    ensures ExtractKeysSpec(Some(keysStr), os).Some?
    ensures Split(ExtractKeysSpec(Some(keysStr), os).value, '+') == KeyTokens(Split(keysStr, '+'), os)
    ensures |Split(ExtractKeysSpec(Some(keysStr), os).value, '+')| == |Split(keysStr, '+')|
  {
    var parts := Split(keysStr, '+');
    SplitPiecesFree(keysStr, '+');
    var tokens := KeyTokens(parts, os);
    forall k | 0 <= k < |tokens|
      ensures '+' !in tokens[k]
    {
      KeyTokenFree(parts[k], os);
    }
    SplitJoin(tokens, '+');
  }

  /** `Key.CMD` turns into `Key.CTRL` on Windows and nowhere else. */
  lemma CmdBecomesCtrlOnlyOnWindows(part: string, os: string)
    requires Trim(part) == "Key.CMD"
    ensures KeyToken(part, os) == (if os == "windows" then "Key.CTRL" else "Key.CMD")
  {
  }

  /** Every other part is rewritten the same way on every platform. */
  lemma OtherKeysIndependentOfOs(part: string, os1: string, os2: string)
    requires Trim(part) != "Key.CMD"
    ensures KeyToken(part, os1) == KeyToken(part, os2)
  {
  }

  // ---------------------------------------------------------------------
  // Cached references (addCacheVar / removeCacheVar / clearVars)

  const RefOpen := "PHPSikuliVars[\""
  const RefClose := "\"]"

  /**
   * The name the pattern `PHPSikuliVars\["(.+)"\]` captures from a whole
   * reference; "" (PHP's NULL as an array key) when the text is not one.
   */
  function ParseRef(ref: string): string {
    if |ref| >= |RefOpen| + 1 + |RefClose| && StartsWith(ref, RefOpen)
       && ref[|ref| - 2..] == RefClose && '\n' !in ref[|RefOpen|..|ref| - 2]
    then ref[|RefOpen|..|ref| - 2]
    else ""
  }

  /** The name captured from an issued reference is `var_N`. */
  lemma ParseVarRef(n: nat)
    ensures ParseRef(VarRef(n)) == "var_" + IntToString(n)
  {
    var name := "var_" + NatToString(n);
    assert VarRef(n) == RefOpen + name + RefClose;
    forall k | 0 <= k < |name|
      ensures name[k] != '\n'
    {
      if k >= 4 {
        assert name[k] == NatToString(n)[k - 4];
      }
    }
    ParseWrapped(name);
  }

  /** A name without line breaks is read back from its reference. */
  lemma ParseWrapped(name: string)
    requires |name| > 0 && '\n' !in name
    ensures ParseRef(RefOpen + name + RefClose) == name
  {
    var r := RefOpen + name + RefClose;
    assert r[..|RefOpen|] == RefOpen;
    assert r[|RefOpen|..|r| - 2] == name;
    assert r[|r| - 2..] == RefClose;
  }

  /** The cache: names in insertion order, each at most once (a PHP array keyed by name). */
  predicate NoDuplicates(cache: seq<string>) {
    forall i, j :: 0 <= i < j < |cache| ==> cache[i] != cache[j]
  }

  /** `$this->_cachedVars[$name] = $name`: a present key keeps its place. */
  function CacheAdd(cache: seq<string>, name: string): (r: seq<string>)
    ensures NoDuplicates(cache) ==> NoDuplicates(r)
    ensures name in r && forall x :: x in cache ==> x in r
  {
    if name in cache then cache else cache + [name]
  }

  /** `unset($this->_cachedVars[$name])`. */
  function CacheRemove(cache: seq<string>, name: string): (r: seq<string>)
    ensures name !in r
    ensures forall x :: x in cache && x != name <==> x in r
    decreases |cache|
  {
    if |cache| == 0 then []
    else if cache[0] == name then CacheRemove(cache[1..], name)
    else [cache[0]] + CacheRemove(cache[1..], name)
  }

  /** Removing an absent name leaves the cache as it was. */
  lemma {:induction false} RemoveAbsent(cache: seq<string>, name: string)
    requires name !in cache
    ensures CacheRemove(cache, name) == cache
    decreases |cache|
  {
    if |cache| > 0 {
      RemoveAbsent(cache[1..], name);
      assert [cache[0]] + cache[1..] == cache;
    }
  }

  /**
   * `removeCacheVar`: the entry goes only when `isset` sees it. The entry a
   * failed capture made is keyed "" and holds NULL, which `isset` reports
   * as unset, so that one is never removed.
   */
  function CacheUnset(cache: seq<string>, name: string): (r: seq<string>)
    ensures name == "" ==> r == cache
    ensures name != "" ==> name !in r && forall x :: x in cache && x != name <==> x in r
  {
    if name == "" then cache else CacheRemove(cache, name)
  }

  /**
   * Adding then removing a name that was not cached restores the cache,
   * except for "": that entry stays behind.
   */
  lemma AddThenRemove(cache: seq<string>, name: string)
    requires name !in cache
    ensures name != "" ==> CacheUnset(CacheAdd(cache, name), name) == cache
    ensures name == "" ==> CacheUnset(CacheAdd(cache, name), name) == cache + [""]
  {
    if name != "" {
      RemoveAfterAdd(cache, name);
    }
  }

  lemma {:induction false} RemoveAfterAdd(cache: seq<string>, name: string)
    requires name !in cache
    ensures CacheRemove(CacheAdd(cache, name), name) == cache
    decreases |cache|
  {
    if |cache| > 0 {
      var added := cache + [name];
      assert added[0] == cache[0] && cache[0] != name;
      calc {
        CacheRemove(CacheAdd(cache, name), name);
        CacheRemove(added, name);
        { assert added[1..] == cache[1..] + [name]; }
        [cache[0]] + CacheRemove(cache[1..] + [name], name);
        { RemoveAfterAdd(cache[1..], name); }
        [cache[0]] + cache[1..];
        cache;
      }
    }
  }

  /** Removal keeps the order and uniqueness of the other names. */
  lemma RemoveKeepsNoDuplicates(cache: seq<string>, name: string)
    requires NoDuplicates(cache)
    ensures NoDuplicates(CacheUnset(cache, name))
  {
    RemoveKeepsUnique(cache, name);
  }

  lemma {:induction false} RemoveKeepsUnique(cache: seq<string>, name: string)
    requires NoDuplicates(cache)
    ensures NoDuplicates(CacheRemove(cache, name))
    decreases |cache|
  {
    if |cache| > 0 {
      RemoveKeepsUnique(cache[1..], name);
      assert cache[0] !in cache[1..];
      assert cache[0] !in CacheRemove(cache[1..], name);
    }
  }

  /** The statement that copies one cached name out before the wipe. */
  function Save(name: string): string {
    "PHPSikuliVarsCached['" + name + "'] = PHPSikuliVars['" + name + "']"
  }

  /** The statement that copies one cached name back after the wipe. */
  function Restore(name: string): string {
    "PHPSikuliVars['" + name + "'] = PHPSikuliVarsCached['" + name + "']"
  }

  /** The copy-out statements, one per cached name, in cache order. */
  function Saves(cached: seq<string>): (r: seq<string>)
    ensures |r| == |cached| && forall k :: 0 <= k < |cached| ==> r[k] == Save(cached[k])
  {
    seq(|cached|, k requires 0 <= k < |cached| => Save(cached[k]))
  }

  /** The copy-back statements, one per cached name, in cache order. */
  function Restores(cached: seq<string>): (r: seq<string>)
    ensures |r| == |cached| && forall k :: 0 <= k < |cached| ==> r[k] == Restore(cached[k])
  {
    seq(|cached|, k requires 0 <= k < |cached| => Restore(cached[k]))
  }

  const OpenHolder := "PHPSikuliVarsCached = {}"
  const Wipe := "PHPSikuliVars = {}"

  /** Each piece `s` followed by `;`, concatenated: how `clearVars` accumulates text. */
  function Terminated(pieces: seq<string>): string
    decreases |pieces|
  {
    if |pieces| == 0 then "" else pieces[0] + ";" + Terminated(pieces[1..])
  }

  /** The statements of the composite clear command, in order. */
  function ClearStatements(cached: seq<string>): (r: seq<string>)
    ensures |r| == 2 * |cached| + 2
    ensures r[0] == OpenHolder && r[|cached| + 1] == Wipe
    ensures forall k :: 0 <= k < |cached| ==> r[1 + k] == Save(cached[k]) && r[|cached| + 2 + k] == Restore(cached[k])
  {
    [OpenHolder]
    + Saves(cached)
    + [Wipe]
    + Restores(cached)
  }

  /** The one command `clearVars` sends: its statements separated by `;`. */
  function ClearCommand(cached: seq<string>): string {
    Join(ClearStatements(cached), ";")
  }

  lemma {:induction false} TerminatedAppend(a: seq<string>, b: seq<string>)
    ensures Terminated(a + b) == Terminated(a) + Terminated(b)
    decreases |a|
  {
    if |a| > 0 {
      TerminatedAppend(a[1..], b);
      assert (a + b)[1..] == a[1..] + b;
    } else {
      assert a + b == b;
    }
  }

  lemma {:induction false} TerminatedIsJoin(pieces: seq<string>)
    requires |pieces| >= 1
    ensures Terminated(pieces) == Join(pieces, ";") + ";"
    decreases |pieces|
  {
    if |pieces| > 1 {
      TerminatedIsJoin(pieces[1..]);
    }
  }

  lemma {:induction false} JoinEnds(pieces: seq<string>)
    requires |pieces| >= 1
    requires forall k :: 0 <= k < |pieces| ==> |pieces[k]| > 0 && pieces[k][0] == 'P' && pieces[k][|pieces[k]| - 1] in "]}"
    ensures |Join(pieces, ";")| > 0
    ensures Join(pieces, ";")[0] == 'P' && Join(pieces, ";")[|Join(pieces, ";")| - 1] in "]}"
    decreases |pieces|
  {
    if |pieces| > 1 {
      JoinEnds(pieces[1..]);
    }
  }

  /** The text `clearVars` accumulates before trimming: every statement followed by `;`. */
  function ClearText(cached: seq<string>): string {
    Terminated([OpenHolder]) + Terminated(Saves(cached))
    + Terminated([Wipe]) + Terminated(Restores(cached))
  }

  lemma ClearTextTerminated(cached: seq<string>)
    ensures ClearText(cached) == Join(ClearStatements(cached), ";") + ";"
  {
    var saves := Saves(cached);
    var restores := Restores(cached);
    var st := ClearStatements(cached);
    assert st == [OpenHolder] + saves + [Wipe] + restores;
    TerminatedAppend([OpenHolder] + saves + [Wipe], restores);
    TerminatedAppend([OpenHolder] + saves, [Wipe]);
    TerminatedAppend([OpenHolder], saves);
    TerminatedIsJoin(st);
  }

  /** Trimming `;` from a text that ends in exactly one `;` drops that one. */
  lemma TrimOneSemicolon(j: string)
    requires |j| > 0 && j[0] != ';' && j[|j| - 1] != ';'
    ensures TrimBy(j + ";", {';'}) == j
  {
    var text := j + ";";
    assert TrimLeftBy(text, {';'}) == text;
    assert text[..|text| - 1] == j;
    assert TrimRightBy(j, {';'}) == j;
  }

  /**
   * What `clearVars` builds — the holder, every save, the wipe, every restore,
   * each followed by `;`, then `trim(..., ';')` — is the clear command.
   */
  lemma ClearTextIsCommand(cached: seq<string>)
    ensures TrimBy(ClearText(cached), {';'}) == ClearCommand(cached)
  {
    ClearTextTerminated(cached);
    var st := ClearStatements(cached);
    JoinEnds(st);
    TrimOneSemicolon(Join(st, ";"));
  }

  // ---------------------------------------------------------------------
  // getOS, find, exists, wheel

  /** `getOS`: the lower-cased system name, with three names mapped. */
  function OsName(uname: string): string {
    var os := Lower(uname);
    if os == "darwin" then "osx"
    else if os == "linux" then "linux"
    else if os == "windows nt" then "windows"
    else os
  }

  /** The session behaves as on Windows for "Windows NT" and also for a system named "Windows". */
  lemma OsNameWindows(uname: string)
    ensures OsName(uname) == "windows" <==> Lower(uname) == "windows nt" || Lower(uname) == "windows"
  {
  }

  /**
   * PHP 8's `$a < 0`. NULL and booleans compare as booleans and are never
   * below zero; a numeric string compares by value; any other string is
   * compared with "0" character by character, so "" and texts starting
   * below '0' are below zero.
   */
  predicate BelowZero(a: Arg) {
    match a
    case Null => false
    case Int(i) => i < 0
    case Bool(_) => false
    case Str(s) => if IsNumericString(s) then NumericBelowZero(s) else |s| == 0 || s[0] < '0'
  }

  /**
   * The receiver of `find`: the default region when the region is NULL or
   * absent, none when it is below zero, the region itself otherwise.
   */
  function FindReceiver(region: Option<Arg>, defaultRegion: Option<string>): Option<string> {
    match region
    case None => defaultRegion
    case Some(a) => if a.Null? then defaultRegion else if BelowZero(a) then None else Some(ArgText(a))
  }

  /**
   * A NULL region is no region; an integer and its decimal text pick the same
   * receiver, dropped exactly when the integer is negative; an empty text is
   * dropped too.
   */
  lemma FindReceiverRule(i: int, defaultRegion: Option<string>)
    ensures FindReceiver(Some(Null), defaultRegion) == FindReceiver(None, defaultRegion) == defaultRegion
    ensures FindReceiver(Some(Int(i)), defaultRegion) == FindReceiver(Some(Str(IntToString(i))), defaultRegion)
    ensures FindReceiver(Some(Int(i)), defaultRegion).None? <==> i < 0
    ensures FindReceiver(Some(Str("")), defaultRegion).None?
  {
    IntTextBelowZero(i);
    EmptyTextBelowZero();
  }

  /** An integer's decimal text is below zero exactly when the integer is. */
  lemma IntTextBelowZero(i: int)
    ensures BelowZero(Str(IntToString(i))) <==> i < 0
  {
    IntToStringIsNumeric(i);
    IntToStringBelowZero(i);
  }

  /** The empty text is not numeric and sorts below "0". */
  lemma EmptyTextBelowZero()
    ensures BelowZero(Str(""))
  {
    assert TrimLeftBy("", NumericSpace) == "";
    assert LeadingDigits("") == 0;
  }

  /** `exists` reports a match when the engine's reply starts with `Match[`. */
  predicate IsMatchReply(reply: string) {
    StartsWith(reply, "Match[")
  }

  /** The wheel direction: down for positive steps, up otherwise. */
  function WheelDirection(steps: int): string {
    if steps > 0 then "WHEEL_DOWN" else "WHEEL_UP"
  }

  function Abs(i: int): nat {
    if i < 0 then -i else i
  }

  function RegionArg(r: Option<string>): Arg {
    if r.Some? then Str(r.value) else Null
  }

  /** The arguments of `wheel` as written: the target argument is overwritten by the default region. */
  function WheelArgsAsWritten(steps: int, target: Option<string>, defaultRegion: Option<string>): ArgList {
    [(NoQuotesKey, Bool(true)), (Index(0), RegionArg(defaultRegion)), (Index(1), Str(WheelDirection(steps))), (Index(2), Int(Abs(steps)))]
  }

  /** The arguments of `wheel` as intended: the given target, or the default region when none. */
  function WheelArgs(steps: int, target: Option<string>, defaultRegion: Option<string>): ArgList {
    var region := if target.Some? then target else defaultRegion;
    [(NoQuotesKey, Bool(true)), (Index(0), RegionArg(region)), (Index(1), Str(WheelDirection(steps))), (Index(2), Int(Abs(steps)))]
  }

  /** The values `wheel` passes: its marker is dropped, leaving region, direction and step count. */
  lemma WheelValues(region: Option<string>, steps: int, args: ArgList)
    requires args == [(NoQuotesKey, Bool(true)), (Index(0), RegionArg(region)), (Index(1), Str(WheelDirection(steps))), (Index(2), Int(Abs(steps)))]
    ensures HasNoQuotes(args)
    ensures CallValues(args) == [RegionArg(region), Str(WheelDirection(steps)), Int(Abs(steps))]
  {
    assert args[0].0 == NoQuotesKey;
    UnsetAbsent(args[1..], NoQuotesKey);
    assert Unset(args, NoQuotesKey) == args[1..];
  }

  /** Direction and step count, unquoted, are rendered as they are. */
  lemma WheelTail(dir: string, n: nat)
    ensures RenderArgs([Str(dir), Int(n)], false) == [dir, IntToString(n)]
  {
    var vs := [Str(dir), Int(n)];
    assert vs[1..] == [Int(n)];
    assert vs[1..][1..] == [];
    assert RenderArgs([Int(n)], false) == [IntToString(n)];
  }

  lemma WheelLine(region: Option<string>, steps: int, args: ArgList)
    requires args == [(NoQuotesKey, Bool(true)), (Index(0), RegionArg(region)), (Index(1), Str(WheelDirection(steps))), (Index(2), Int(Abs(steps)))]
    ensures CallLine("wheel", args, None, None)
            == "wheel(" + (if region.Some? then region.value + ", " else "") + WheelDirection(steps) + ", " + IntToString(Abs(steps)) + ")"
  {
    WheelValues(region, steps, args);
    var vs := CallValues(args);
    var dir := WheelDirection(steps);
    var n := IntToString(Abs(steps));
    WheelTail(dir, Abs(steps));
    assert vs[1..] == [Str(dir), Int(Abs(steps))];
    var mid := RenderArgs(vs[1..], false);
    assert mid[1..] == [n];
    assert Join(mid, ", ") == dir + ", " + n;
    var body := Join(RenderArgs(vs, false), ", ");
    if region.Some? {
      assert RenderArgs(vs, false) == [region.value] + mid;
      assert ([region.value] + mid)[1..] == mid;
      assert body == region.value + ", " + (dir + ", " + n);
    } else {
      assert RenderArgs(vs, false) == mid;
    }
  }

  /**
   * As written, a wheel turn on an explicit target still scrolls the default
   * region: the line names the default region whatever the target is, so
   * `wheel(3, R1)` with default region `R0` sends `wheel(R0, WHEEL_DOWN, 3)`.
   */
  lemma WheelIgnoresTarget(steps: int, target: Option<string>, defaultRegion: Option<string>)
    ensures CallLine("wheel", WheelArgsAsWritten(steps, target, defaultRegion), None, None)
            == "wheel(" + (if defaultRegion.Some? then defaultRegion.value + ", " else "") + WheelDirection(steps) + ", " + IntToString(Abs(steps)) + ")"
  {
    WheelLine(defaultRegion, steps, WheelArgsAsWritten(steps, target, defaultRegion));
  }

  /** As intended, the wheel turns on the given target and falls back to the default region. */
  lemma WheelUsesTarget(steps: int, target: Option<string>, defaultRegion: Option<string>)
    ensures var region := if target.Some? then target else defaultRegion;
            CallLine("wheel", WheelArgs(steps, target, defaultRegion), None, None)
            == "wheel(" + (if region.Some? then region.value + ", " else "") + WheelDirection(steps) + ", " + IntToString(Abs(steps)) + ")"
  {
    var region := if target.Some? then target else defaultRegion;
    WheelLine(region, steps, WheelArgs(steps, target, defaultRegion));
  }
}
