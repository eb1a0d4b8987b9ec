/** The cost and token usage report (scripts/costs.mjs): the command line,
    the reporting window, the model key used for pricing, and the pass over
    the session logs that adds up token counts, in total and per model, and
    puts every counted message into one cost bucket.

    The dollar amounts are floating point and are not modelled: a cost sum
    is replaced by the number of amounts added to it. */
module Costs {
  import opened Wrappers
  import opened Strings
  import opened Seqs
  import Grouping

  // ---------------------------------------------------------------------
  // The command line

  /** What `parseArgs` returns. `None` stands for `undefined`: a `--tz` or
      `--root` given as the last argument takes no value. */
  datatype Args = Args(
    tz: Option<string>,
    fetchPrices: bool,
    root: Option<string>,
    mode: string,
    start: Option<string>,
    end: Option<string>,
    json: bool)

  const DefaultRoot: string := "/data/.clawdbot/agents"

  const UsageText: string := "Usage: costs.mjs range YYYY-MM-DD YYYY-MM-DD [--tz Europe/Berlin]"

  /** The options that take the next argument as their value. */
  predicate TakesValue(a: string) {
    a == "--tz" || a == "--root"
  }

  predicate IsFlag(a: string) {
    TakesValue(a) || a == "--fetch-prices" || a == "--json"
  }

  /** Argument `i` is consumed as the value of the option before it: that
      argument is `--tz` or `--root` and is not itself a value. */
  predicate IsValue(argv: seq<string>, i: nat)
    decreases i
  {
    0 < i <= |argv| && TakesValue(argv[i - 1]) && !IsValue(argv, i - 1)
  }

  /** Argument `i` is the option `flag` itself, not the value of another
      option. */
  predicate IsOption(argv: seq<string>, i: nat, flag: string) {
    i < |argv| && argv[i] == flag && !IsValue(argv, i)
  }

  /** Argument `i` is neither an option nor an option's value. */
  predicate IsPositional(argv: seq<string>, i: nat) {
    i < |argv| && !IsValue(argv, i) && !IsFlag(argv[i])
  }

  /** The positional arguments among the first `n`, in order. */
  function Positional(argv: seq<string>, n: nat): seq<string>
    requires n <= |argv|
  {
    if n == 0 then []
    else Positional(argv, n - 1) + (if IsPositional(argv, n - 1) then [argv[n - 1]] else [])
  }

  /** `argv[i]`, `undefined` past the end. */
  function At(argv: seq<string>, i: nat): Option<string> {
    if i < |argv| then Some(argv[i]) else None
  }

  /** The value given to the last occurrence of the option `flag` among the
      first `n` arguments, or `def` when there is none (see
      `LastValueSpec`). */
  function LastValue(argv: seq<string>, flag: string, def: Option<string>, n: nat): Option<string>
    requires n <= |argv|
  {
    if n == 0 then def
    else if IsOption(argv, n - 1, flag) then At(argv, n)
    else LastValue(argv, flag, def, n - 1)
  }

  /** Without the option, the default. */
  lemma {:induction false} LastValueAbsent(argv: seq<string>, flag: string, def: Option<string>, n: nat)
    requires n <= |argv|
    requires forall i :: 0 <= i < n ==> !IsOption(argv, i, flag)
    ensures LastValue(argv, flag, def, n) == def
    decreases n
  {
    if n > 0 {
      LastValueAbsent(argv, flag, def, n - 1);
    }
  }

  /** With the option, the argument right after its last occurrence. */
  lemma {:induction false} LastValueSpec(argv: seq<string>, flag: string, def: Option<string>, n: nat, i: nat)
    requires i < n <= |argv|
    requires IsOption(argv, i, flag)
    requires forall j :: i < j < n ==> !IsOption(argv, j, flag)
    ensures LastValue(argv, flag, def, n) == At(argv, i + 1)
    decreases n
  {
    if n - 1 > i {
      LastValueSpec(argv, flag, def, n - 1, i);
    }
  }

  /** What the pass of `parseArgs` has gathered after the first `n`
      arguments. */
  ghost predicate Scanned(argv: seq<string>, n: nat, defaultTz: string,
    rest: seq<string>, tz: Option<string>, root: Option<string>, json: bool, fetchPrices: bool)
    requires n <= |argv|
  {
    && rest == Positional(argv, n)
    && tz == LastValue(argv, "--tz", Some(defaultTz), n)
    && root == LastValue(argv, "--root", Some(DefaultRoot), n)
    && (json <==> exists j :: 0 <= j < n && IsOption(argv, j, "--json"))
    && (fetchPrices <==> exists j :: 0 <= j < n && IsOption(argv, j, "--fetch-prices"))
  }

  /** `parseArgs`: one pass over the arguments, in which `--tz` and `--root`
      take the next argument, `--fetch-prices` and `--json` set a flag, and
      everything else is kept in order; then the first kept argument is the
      mode ("today" when there is none or it is empty), and the mode "range"
      needs two non-empty dates after it. */
  method ParseArgs(argv: seq<string>, defaultTz: string) returns (r: Result<Args, string>)
    ensures var rest := Positional(argv, |argv|);
      var mode := if rest != [] && rest[0] != "" then rest[0] else "today";
      && (r.Failure? <==> mode == "range" && (At(rest, 1) in {None, Some("")} || At(rest, 2) in {None, Some("")}))
      && (r.Failure? ==> r.error == UsageText)
      && (r.Success? ==>
        && r.value.mode == mode
        && r.value.start == (if mode == "range" then At(rest, 1) else None)
        && r.value.end == (if mode == "range" then At(rest, 2) else None))
    ensures r.Success? ==>
      && r.value.tz == LastValue(argv, "--tz", Some(defaultTz), |argv|)
      && r.value.root == LastValue(argv, "--root", Some(DefaultRoot), |argv|)
      && (r.value.json <==> exists i :: 0 <= i < |argv| && IsOption(argv, i, "--json"))
      && (r.value.fetchPrices <==> exists i :: 0 <= i < |argv| && IsOption(argv, i, "--fetch-prices"))
  {
    var tz, root := Some(defaultTz), Some(DefaultRoot);
    var fetchPrices, json := false, false;
    var rest: seq<string> := [];
    var i := 0;
    while i < |argv|
      invariant 0 <= i <= |argv| + 1
      invariant i < |argv| ==> !IsValue(argv, i)
      invariant Scanned(argv, if i <= |argv| then i else |argv|, defaultTz, rest, tz, root, json, fetchPrices)
      decreases |argv| + 1 - i
    {
      var a := argv[i];
      if a == "--tz" || a == "--root" {
        ValueOptionStep(argv, i, defaultTz, rest, tz, root, json, fetchPrices);
        if a == "--tz" {
          tz := At(argv, i + 1);
        } else {
          root := At(argv, i + 1);
        }
        i := i + 1;
      } else {
        PlainStep(argv, i, defaultTz, rest, tz, root, json, fetchPrices);
        if a == "--fetch-prices" {
          fetchPrices := true;
        } else if a == "--json" {
          json := true;
        } else {
          rest := rest + [a];
        }
      }
      i := i + 1;
    }
    var mode := if rest != [] && rest[0] != "" then rest[0] else "today";
    var start, end: Option<string> := None, None;
    if mode == "range" {
      start, end := At(rest, 1), At(rest, 2);
      if start in {None, Some("")} || end in {None, Some("")} {
        return Failure(UsageText);
      }
    }
    r := Success(Args(tz, fetchPrices, root, mode, start, end, json));
  }

  /** An argument that is no value and takes none: a flag sets itself,
      anything else is kept. */
  lemma PlainStep(argv: seq<string>, i: nat, defaultTz: string,
    rest: seq<string>, tz: Option<string>, root: Option<string>, json: bool, fetchPrices: bool)
    requires i < |argv| && !IsValue(argv, i) && !TakesValue(argv[i])
    requires Scanned(argv, i, defaultTz, rest, tz, root, json, fetchPrices)
    ensures i + 1 < |argv| ==> !IsValue(argv, i + 1)
    ensures Scanned(argv, i + 1, defaultTz,
      if IsFlag(argv[i]) then rest else rest + [argv[i]], tz, root,
      json || argv[i] == "--json", fetchPrices || argv[i] == "--fetch-prices")
  {
    assert IsOption(argv, i, argv[i]);
  }

  /** `--tz` or `--root` (not itself a value) takes the argument after it,
      which is consumed. */
  lemma ValueOptionStep(argv: seq<string>, i: nat, defaultTz: string,
    rest: seq<string>, tz: Option<string>, root: Option<string>, json: bool, fetchPrices: bool)
    requires i < |argv| && !IsValue(argv, i) && TakesValue(argv[i])
    requires Scanned(argv, i, defaultTz, rest, tz, root, json, fetchPrices)
    ensures i + 2 < |argv| ==> !IsValue(argv, i + 2)
    ensures Scanned(argv, if i + 2 <= |argv| then i + 2 else |argv|, defaultTz, rest,
      if argv[i] == "--tz" then At(argv, i + 1) else tz,
      if argv[i] == "--root" then At(argv, i + 1) else root,
      json, fetchPrices)
  {
    assert IsOption(argv, i, argv[i]);
    var tz', root' := if argv[i] == "--tz" then At(argv, i + 1) else tz, if argv[i] == "--root" then At(argv, i + 1) else root;
    assert Scanned(argv, i + 1, defaultTz, rest, tz', root', json, fetchPrices);
    if i + 1 < |argv| {
      ValueStep(argv, i + 1);
    }
  }

  /** The value of an option is consumed: it is no option and not
      positional, and the argument after it is not a value. */
  lemma ValueStep(argv: seq<string>, i: nat)
    requires 0 < i <= |argv| && TakesValue(argv[i - 1]) && !IsValue(argv, i - 1)
    ensures IsValue(argv, i)
    ensures i < |argv| ==> forall flag :: !IsOption(argv, i, flag)
    ensures !IsPositional(argv, i)
    ensures i + 1 <= |argv| ==> !IsValue(argv, i + 1)
  {
  }

  // ---------------------------------------------------------------------
  // The reporting window

  /** Milliseconds in a day. */
  const DayMs: int := 86400000

  /** The half-open window `[startMs, endMs)` of time stamps counted. */
  datatype Window = Window(startMs: int, endMs: int)

  /** `rangeUtcMs`. The clock reading `now`, the local date of a moment
      (`ymdInTz`) and the moment a local date starts (`startOfDayUtcMs`)
      are given; they depend on the time-zone database. A date that is
      missing (only possible when the window is computed without
      `parseArgs`) fails, as the date arithmetic on `undefined` throws. */
  function RangeUtcMs(
    mode: string, tz: Option<string>, start: Option<string>, end: Option<string>,
    now: int, ymdInTz: (int, Option<string>) -> string, startOfDay: (string, Option<string>) -> int): (r: Result<Window, string>)
    ensures mode == "ever" ==> r == Success(Window(0, now))
    ensures mode == "today" ==> r == Success(Window(startOfDay(ymdInTz(now, tz), tz), now))
    ensures mode == "yesterday" ==>
      && r.Success? && r.value.endMs == startOfDay(ymdInTz(now, tz), tz)
      && r.value.endMs - r.value.startMs == DayMs
    ensures mode in {"week", "last7"} ==>
      r.Success? && r.value.endMs == now && r.value.endMs - r.value.startMs == 7 * DayMs
    ensures mode == "range" ==>
      && (r.Success? <==> start.Some? && end.Some?)
      && (r.Success? ==> r.value.startMs == startOfDay(start.value, tz) && r.value.endMs == startOfDay(end.value, tz) + DayMs)
    ensures mode !in {"ever", "today", "yesterday", "week", "last7", "range"} ==> r.Failure?
  {
    if mode == "ever" then Success(Window(0, now))
    else
      var todayYmd := ymdInTz(now, tz);
      if mode == "today" then Success(Window(startOfDay(todayYmd, tz), now))
      else if mode == "yesterday" then Success(Window(startOfDay(todayYmd, tz) - DayMs, startOfDay(todayYmd, tz)))
      else if mode == "week" || mode == "last7" then Success(Window(now - 7 * DayMs, now))
      else if mode == "range" then
        match (start, end)
        case (Some(s), Some(e)) => Success(Window(startOfDay(s, tz), startOfDay(e, tz) + DayMs))
        case _ => Failure("Cannot read the dates of the range")
      else Failure("Unknown mode: " + mode + ". Use today|yesterday|week|ever|range YYYY-MM-DD YYYY-MM-DD")
  }

  /** Yesterday's window ends where today's begins, so no moment of the two
      days is counted twice or left out. */
  lemma YesterdayMeetsToday(tz: Option<string>, now: int, ymdInTz: (int, Option<string>) -> string, startOfDay: (string, Option<string>) -> int)
    ensures var y, t := RangeUtcMs("yesterday", tz, None, None, now, ymdInTz, startOfDay),
        RangeUtcMs("today", tz, None, None, now, ymdInTz, startOfDay);
      y.Success? && t.Success? && y.value.endMs == t.value.startMs
  {
  }

  // ---------------------------------------------------------------------
  // The model key

  /** A non-empty run of decimal digits (`\d+`). */
  predicate IsNumber(s: string) {
    s != [] && AllDigits(s)
  }

  /** `s` ends with `-<digits>-<digits>` (the pattern `-(\d+)-(\d+)$`). */
  ghost predicate HasVersionTail(s: string) {
    exists j, i :: 0 <= j < i < |s| && s[j] == '-' && s[i] == '-' && IsNumber(s[j + 1..i]) && IsNumber(s[i + 1..])
  }

  /** The position of the `-` between the two numbers of a version tail,
      or -1 when `s` has none (see `DotVersionSpec`). */
  function VersionDash(s: string): int {
    var i := LastIndexOf(s, '-');
    if i > 0 && IsNumber(s[i + 1..]) && EndsInDashNumber(s[..i]) then i else -1
  }

  /** `s` ends with `-<digits>`. */
  predicate EndsInDashNumber(s: string) {
    var j := LastIndexOf(s, '-');
    j != -1 && IsNumber(s[j + 1..])
  }

  /** `s.replace(/-(\d+)-(\d+)$/u, "-$1.$2")` (see `DotVersionSpec`). */
  function DotVersion(s: string): string {
    var i := VersionDash(s);
    if i < 0 then s else s[..i] + "." + s[i + 1..]
  }

  /** A key ending in `-<digits>-<digits>` gets its last `-` turned into a
      `.`, and nothing else changes; any other key stays as it is. */
  lemma DotVersionSpec(s: string)
    ensures HasVersionTail(s) ==>
      var i := LastIndexOf(s, '-');
      0 <= i && s[i] == '-' && DotVersion(s) == s[..i] + "." + s[i + 1..]
    ensures !HasVersionTail(s) ==> DotVersion(s) == s
  {
    if HasVersionTail(s) {
      TailGivesDash(s);
    } else {
      DashGivesTail(s);
    }
  }

  lemma DashGivesTail(s: string)
    ensures VersionDash(s) >= 0 ==> HasVersionTail(s)
  {
    if VersionDash(s) >= 0 {
      VersionDashParts(s);
      var i := VersionDash(s);
      var j := LastIndexOf(s[..i], '-');
      assert j != -1 && IsNumber(s[..i][j + 1..]);
      TailWitness(s, j, i);
    }
  }

  /** What a version dash found by `VersionDash` is made of. */
  lemma VersionDashParts(s: string)
    requires VersionDash(s) >= 0
    ensures var i := VersionDash(s);
      i == LastIndexOf(s, '-') && 0 < i < |s| && IsNumber(s[i + 1..]) && EndsInDashNumber(s[..i])
  {
  }

  lemma TailWitness(s: string, j: int, i: int)
    requires 0 <= j < i < |s| && s[..i][j] == '-' && s[i] == '-'
    requires IsNumber(s[..i][j + 1..]) && IsNumber(s[i + 1..])
    ensures HasVersionTail(s)
  {
    assert s[..i][j + 1..] == s[j + 1..i];
    assert s[j] == '-';
  }

  /** The two last dashes with digits after each make a version dash. */
  lemma VersionDashOf(s: string, i: nat, j: nat)
    requires LastIndexOf(s, '-') == i && 0 < i < |s| && IsNumber(s[i + 1..])
    requires LastIndexOf(s[..i], '-') == j && IsNumber(s[..i][j + 1..])
    ensures VersionDash(s) == i
  {
    assert EndsInDashNumber(s[..i]);
  }

  lemma TailGivesDash(s: string)
    requires HasVersionTail(s)
    ensures VersionDash(s) == LastIndexOf(s, '-') >= 0
  {
    var j, i :| 0 <= j < i < |s| && s[j] == '-' && s[i] == '-' && IsNumber(s[j + 1..i]) && IsNumber(s[i + 1..]);
    TailAt(s, j, i);
  }

  /** The dashes of a version tail are the last two of the key. */
  lemma TailAt(s: string, j: nat, i: nat)
    requires j < i < |s| && s[j] == '-' && s[i] == '-' && IsNumber(s[j + 1..i]) && IsNumber(s[i + 1..])
    ensures VersionDash(s) == LastIndexOf(s, '-') == i
  {
    LastDash(s, i);
    var pre := s[..i];
    assert pre[j] == '-';
    assert pre[j + 1..] == s[j + 1..i];
    LastDash(pre, j);
    VersionDashOf(s, i, j);
  }

  lemma NoDashInNumber(s: string)
    requires IsNumber(s)
    ensures '-' !in s
  {
  }

  /** A `-` followed only by digits is the last `-`. */
  lemma LastDash(s: string, k: nat)
    requires k < |s| && s[k] == '-' && IsNumber(s[k + 1..])
    ensures LastIndexOf(s, '-') == k
  {
    var i := LastIndexOf(s, '-');
    NoDashInNumber(s[k + 1..]);
    NotAfter(s, k + 1, '-');
    NotAfter(s, i + 1, '-');
  }

  /** A character missing from a suffix is at none of its positions. */
  lemma NotAfter(s: string, i: nat, c: char)
    requires i <= |s| && c !in s[i..]
    ensures forall j :: i <= j < |s| ==> s[j] != c
  {
    forall j | i <= j < |s| ensures s[j] != c {
      assert s[i..][j - i] == s[j];
    }
  }

  /** A rewritten key no longer ends in `-<digits>-<digits>`, so rewriting
      it again changes nothing. */
  lemma DotVersionIdempotent(s: string)
    ensures DotVersion(DotVersion(s)) == DotVersion(s)
  {
    var i := VersionDash(s);
    if i >= 0 {
      NoDashInNumber(s[i + 1..]);
      NotAfter(s, i + 1, '-');
      DottedHasNoDashAfter(s, i);
      NoTailBeforeDot(DotVersion(s), i);
    }
  }

  /** Turning the last `-` into a `.` leaves no `-` from there on. */
  lemma DottedHasNoDashAfter(s: string, i: nat)
    requires i < |s| && forall j :: i + 1 <= j < |s| ==> s[j] != '-'
    ensures var d := s[..i] + "." + s[i + 1..];
      |d| == |s| && d[i] == '.' && forall j :: i <= j < |d| ==> d[j] != '-'
  {
    var d := s[..i] + "." + s[i + 1..];
    forall j | i <= j < |d| ensures d[j] != '-' {
      assert d[j] == if j == i then '.' else s[j];
    }
  }

  /** A key with a `.` after its last `-` has no version tail. */
  lemma NoTailBeforeDot(d: string, i: nat)
    requires i < |d| && d[i] == '.'
    requires forall j :: i <= j < |d| ==> d[j] != '-'
    ensures VersionDash(d) < 0
  {
    var k := LastIndexOf(d, '-');
    if k > 0 {
      assert k < i;
      assert d[k + 1..][i - k - 1] == '.';
    }
  }

  /** `normalizeModelKey`: no key for an empty model; for OpenRouter the
      model itself, with the version tail of an `anthropic/` model dotted;
      for any other provider `provider/model`. */
  function NormalizeModelKey(provider: string, model: string): (r: Option<string>)
    ensures r.None? <==> model == ""
    ensures r.Some? && provider != "openrouter" ==> r.value == provider + "/" + model
    ensures r.Some? && provider == "openrouter" && !StartsWith(model, "anthropic/") ==> r.value == model
    ensures r.Some? && provider == "openrouter" && StartsWith(model, "anthropic/") ==> r.value == DotVersion(model)
  {
    if model == "" then None
    else if provider == "openrouter" then
      Some(if StartsWith(model, "anthropic/") then DotVersion(model) else model)
    else Some(provider + "/" + model)
  }

  // ---------------------------------------------------------------------
  // The session log rows

  /** The `usage` object of a message. A count that is absent, or anything
      else `|| 0` turns into 0, is 0; `totalTokens` is 0 when absent.
      Whether `usage.cost.total` is a positive number is all that is kept
      of the known cost. */
  datatype Usage = Usage(input: int, output: int, cacheRead: int, cacheWrite: int, totalTokens: int, knownCostPositive: bool)

  /** The `message` of a row. A string field that is absent or empty is
      ""; `timestamp` is `None` when it is not a number and `usage` is
      `None` when it is absent or falsy. */
  datatype Message = Message(role: string, timestamp: Option<int>, usage: Option<Usage>, provider: string, model: string, modelId: string)

  /** One parsed line of a session log. A line that is not an object has
      `kind` "". */
  datatype Row = Row(kind: string, message: Option<Message>, provider: string, modelId: string)

  datatype Tokens = Tokens(input: int, output: int, cacheRead: int, cacheWrite: int, total: int)

  /** The cost bucket of a counted message. */
  datatype Bucket = KnownCost | EstimatedCost | MissingPricing

  /** A counted message as the aggregation sees it. */
  datatype Counted = Counted(provider: string, key: string, tokens: Tokens, bucket: Bucket)

  /** A message's tokens: its total is `totalTokens` when that is not 0,
      and the sum of the four counts otherwise. */
  function TokensOf(u: Usage): (t: Tokens)
    ensures t.input == u.input && t.output == u.output && t.cacheRead == u.cacheRead && t.cacheWrite == u.cacheWrite
    ensures u.totalTokens != 0 ==> t.total == u.totalTokens
    ensures u.totalTokens == 0 ==> t.total == u.input + u.output + u.cacheRead + u.cacheWrite
  {
    var tot := if u.totalTokens != 0 then u.totalTokens else u.input + u.output + u.cacheRead + u.cacheWrite;
    Tokens(u.input, u.output, u.cacheRead, u.cacheWrite, tot)
  }

  /** `a || b || "unknown"` on strings. */
  function FirstOf(a: string, b: string): (r: string)
    ensures r != ""
  {
    if a != "" then a else if b != "" then b else "unknown"
  }

  /** The bucket a message's cost goes to: the known cost when it is
      positive, else an estimate when the price cache has both prices of
      the model key, else the tokens without a price. `priced` is the set
      of keys whose two prices are finite numbers. */
  function BucketOf(u: Usage, key: string, priced: set<string>): Bucket {
    if u.knownCostPositive then KnownCost
    else if key in priced then EstimatedCost
    else MissingPricing
  }

  /** A row the report counts: an assistant message whose timestamp is a
      number inside the window and that has a usage object. */
  predicate Qualifies(row: Row, w: Window) {
    && row.kind == "message" && row.message.Some? && row.message.value.role == "assistant"
    && row.message.value.timestamp.Some?
    && w.startMs <= row.message.value.timestamp.value < w.endMs
    && row.message.value.usage.Some?
  }

  /** What a row adds to the report, if it is counted. */
  function CountRow(row: Row, w: Window, priced: set<string>): (r: Option<Counted>)
    ensures r.Some? <==> Qualifies(row, w)
    ensures r.Some? ==>
      var msg := row.message.value;
      var provider := FirstOf(msg.provider, row.provider);
      var model := if msg.model != "" then msg.model else FirstOf(msg.modelId, row.modelId);
      && r.value.provider == provider
      && (r.value.key == match NormalizeModelKey(provider, model) case Some(k) => k case None => "unknown")
      && r.value.tokens == TokensOf(msg.usage.value)
      && r.value.bucket == BucketOf(msg.usage.value, r.value.key, priced)
  {
    if row.kind != "message" || row.message.None? then None
    else
      var msg := row.message.value;
      if msg.role != "assistant" || msg.timestamp.None? then None
      else if msg.timestamp.value < w.startMs || msg.timestamp.value >= w.endMs then None
      else if msg.usage.None? then None
      else
        var provider := FirstOf(msg.provider, row.provider);
        var model := if msg.model != "" then msg.model else FirstOf(msg.modelId, row.modelId);
        var key := match NormalizeModelKey(provider, model) case Some(k) => k case None => "unknown";
        Some(Counted(provider, key, TokensOf(msg.usage.value), BucketOf(msg.usage.value, key, priced)))
  }

  /** The counted messages of the rows of one file, in order. */
  function RowsCounted(rows: seq<Row>, w: Window, priced: set<string>): seq<Counted> {
    if rows == [] then []
    else
      var last := rows[|rows| - 1];
      RowsCounted(rows[..|rows| - 1], w, priced) + (match CountRow(last, w, priced) case Some(c) => [c] case None => [])
  }

  /** The counted messages of all files, file after file; a file that
      cannot be read (`None`) adds nothing. */
  function FilesCounted(files: seq<Option<seq<Row>>>, w: Window, priced: set<string>): seq<Counted> {
    if files == [] then []
    else
      var last := files[|files| - 1];
      FilesCounted(files[..|files| - 1], w, priced) + (match last case Some(rows) => RowsCounted(rows, w, priced) case None => [])
  }

  // ---------------------------------------------------------------------
  // Adding up

  /** `messages`, `tokens` and `cost` of the report and of each model
      entry. `knownAdds` and `estimatedAdds` count the amounts added to the
      known and the estimated dollar sums. */
  datatype Cost = Cost(knownAdds: int, estimatedAdds: int, missingPricingTokens: int)
  datatype Tally = Tally(messages: int, tokens: Tokens, cost: Cost)

  datatype ModelUsage = ModelUsage(provider: string, model: string, tally: Tally)

  /** What `aggregateUsage` returns (`messagesCounted`, `tokens` and `cost`
      are `totals`). */
  datatype Report = Report(
    startMs: int, endMs: int, tz: Option<string>, filesScanned: nat,
    totals: Tally, byModel: map<string, ModelUsage>)

  const NoTokens: Tokens := Tokens(0, 0, 0, 0, 0)
  const Zero: Tally := Tally(0, NoTokens, Cost(0, 0, 0))

  function AddTokens(a: Tokens, b: Tokens): Tokens {
    Tokens(a.input + b.input, a.output + b.output, a.cacheRead + b.cacheRead, a.cacheWrite + b.cacheWrite, a.total + b.total)
  }

  function Plus(a: Tally, b: Tally): Tally {
    Tally(a.messages + b.messages, AddTokens(a.tokens, b.tokens),
      Cost(a.cost.knownAdds + b.cost.knownAdds, a.cost.estimatedAdds + b.cost.estimatedAdds,
        a.cost.missingPricingTokens + b.cost.missingPricingTokens))
  }

  /** What one counted message adds: one message, its tokens, and one
      amount to its bucket (for a message without a price, its input and
      output tokens). */
  function Contribution(c: Counted): Tally {
    Tally(1, c.tokens, Cost(
      if c.bucket == KnownCost then 1 else 0,
      if c.bucket == EstimatedCost then 1 else 0,
      if c.bucket == MissingPricing then c.tokens.input + c.tokens.output else 0))
  }

  /** The sum of the contributions of some messages. */
  function Sum(cs: seq<Counted>): (t: Tally)
    ensures t.messages == |cs|
  {
    if cs == [] then Zero
    else Plus(Sum(cs[..|cs| - 1]), Contribution(cs[|cs| - 1]))
  }

  function KeyOf(c: Counted): string {
    c.key
  }

  /** The entry of a model key: the provider of the first message with that
      key, and the sum over the messages with that key. */
  function ModelEntry(cs: seq<Counted>, k: string): ModelUsage {
    var g := Grouping.Group(cs, KeyOf, k);
    ModelUsage(if g == [] then "unknown" else g[0].provider, k, Sum(g))
  }

  /** The model entries after counting `cs` in order: each message adds
      to its key's entry, which its first message creates with its
      provider (see `ByModelGroups`). */
  function ByModel(cs: seq<Counted>): map<string, ModelUsage> {
    if cs == [] then map[]
    else
      var m, c := ByModel(cs[..|cs| - 1]), cs[|cs| - 1];
      var prev := if c.key in m then m[c.key] else ModelUsage(c.provider, c.key, Zero);
      m[c.key := ModelUsage(prev.provider, c.key, Plus(prev.tally, Contribution(c)))]
  }

  /** There is one entry per model key that occurs, and it holds the
      provider of the key's first message and the sum over the key's
      messages. */
  lemma {:induction false} ByModelGroups(cs: seq<Counted>)
    ensures forall k :: k in ByModel(cs) <==> k in Grouping.Keys(cs, KeyOf)
    ensures forall k :: k in ByModel(cs) ==> ByModel(cs)[k] == ModelEntry(cs, k)
    decreases |cs|
  {
    if cs != [] {
      var init, c := cs[..|cs| - 1], cs[|cs| - 1];
      assert cs == init + [c];
      ByModelGroups(init);
      Grouping.KeysSnoc(init, c, KeyOf);
      forall k | k in ByModel(cs) ensures ByModel(cs)[k] == ModelEntry(cs, k) {
        ModelEntrySnoc(init, c, k);
        if k == c.key && k !in Grouping.Keys(init, KeyOf) {
          PlusZero(Contribution(c));
        }
      }
    }
  }

  /** The report over the messages the files hold in the window. */
  function UsageReport(files: seq<Option<seq<Row>>>, w: Window, tz: Option<string>, priced: set<string>): Report {
    var cs := FilesCounted(files, w, priced);
    Report(w.startMs, w.endMs, tz, |files|, Sum(cs), ByModel(cs))
  }

  /** `aggregateUsage`: for each readable file and each row in it, skip the
      row unless it is a counted message; then add its counts to the totals
      and to its model's entry, created on first use, and its cost to one
      bucket. */
  method AggregateUsage(files: seq<Option<seq<Row>>>, w: Window, tz: Option<string>, priced: set<string>) returns (r: Report)
    ensures r == UsageReport(files, w, tz, priced)
  {
    var totals := Zero;
    var byModel: map<string, ModelUsage> := map[];
    ghost var seen: seq<Counted> := [];
    var fi := 0;
    while fi < |files|
      invariant 0 <= fi <= |files|
      invariant seen == FilesCounted(files[..fi], w, priced)
      invariant totals == Sum(seen) && byModel == ByModel(seen)
    {
      assert files[..fi + 1][..fi] == files[..fi];
      match files[fi] {
        case None =>
        case Some(rows) =>
          totals, byModel := AddRows(rows, w, priced, totals, byModel, seen);
          seen := seen + RowsCounted(rows, w, priced);
      }
      fi := fi + 1;
    }
    assert files[..fi] == files;
    r := Report(w.startMs, w.endMs, tz, |files|, totals, byModel);
  }

  /** The inner loop of `aggregateUsage`, over the rows of one file. */
  method AddRows(rows: seq<Row>, w: Window, priced: set<string>, totals: Tally, byModel: map<string, ModelUsage>, ghost seen: seq<Counted>)
    returns (totals': Tally, byModel': map<string, ModelUsage>)
    requires totals == Sum(seen) && byModel == ByModel(seen)
    ensures var all := seen + RowsCounted(rows, w, priced);
      totals' == Sum(all) && byModel' == ByModel(all)
  {
    totals', byModel' := totals, byModel;
    var ri := 0;
    assert seen + RowsCounted(rows[..0], w, priced) == seen;
    while ri < |rows|
      invariant 0 <= ri <= |rows|
      invariant var all := seen + RowsCounted(rows[..ri], w, priced);
        totals' == Sum(all) && byModel' == ByModel(all)
    {
      ghost var all := seen + RowsCounted(rows[..ri], w, priced);
      RowsCountedStep(rows, ri, w, priced, seen);
      match CountRow(rows[ri], w, priced) {
        case None =>
        case Some(c) =>
          totals', byModel' := AddMessage(totals', byModel', c, all);
      }
      ri := ri + 1;
    }
    assert rows[..ri] == rows;
  }

  /** One more row adds its counted message, if it is one. */
  lemma RowsCountedStep(rows: seq<Row>, ri: nat, w: Window, priced: set<string>, seen: seq<Counted>)
    requires ri < |rows|
    ensures var all, counted := seen + RowsCounted(rows[..ri], w, priced), CountRow(rows[ri], w, priced);
      && (counted.None? ==> seen + RowsCounted(rows[..ri + 1], w, priced) == all)
      && (counted.Some? ==> seen + RowsCounted(rows[..ri + 1], w, priced) == all + [counted.value])
  {
    assert rows[..ri + 1][..ri] == rows[..ri];
    var all := seen + RowsCounted(rows[..ri], w, priced);
    match CountRow(rows[ri], w, priced) {
      case None =>
        assert seen + RowsCounted(rows[..ri + 1], w, priced) == all;
      case Some(c) =>
        assert seen + RowsCounted(rows[..ri + 1], w, priced) == all + [c];
    }
  }

  /** The body of the loop for a counted message: the totals and the
      model's entry (created with the message's provider when the key is
      new) grow by the message's counts, and one cost bucket by its
      amount. */
  method AddMessage(totals: Tally, byModel: map<string, ModelUsage>, c: Counted, ghost seen: seq<Counted>)
    returns (totals': Tally, byModel': map<string, ModelUsage>)
    requires totals == Sum(seen) && byModel == ByModel(seen)
    ensures totals' == Sum(seen + [c]) && byModel' == ByModel(seen + [c])
  {
    var inTok, outTok := c.tokens.input, c.tokens.output;
    var m := if c.key in byModel then byModel[c.key] else ModelUsage(c.provider, c.key, Zero);
    ghost var before := m.tally;
    totals' := totals.(messages := totals.messages + 1, tokens := AddTokens(totals.tokens, c.tokens));
    m := m.(tally := m.tally.(messages := m.tally.messages + 1, tokens := AddTokens(m.tally.tokens, c.tokens)));
    match c.bucket {
      case KnownCost =>
        totals' := totals'.(cost := totals'.cost.(knownAdds := totals'.cost.knownAdds + 1));
        m := m.(tally := m.tally.(cost := m.tally.cost.(knownAdds := m.tally.cost.knownAdds + 1)));
      case EstimatedCost =>
        totals' := totals'.(cost := totals'.cost.(estimatedAdds := totals'.cost.estimatedAdds + 1));
        m := m.(tally := m.tally.(cost := m.tally.cost.(estimatedAdds := m.tally.cost.estimatedAdds + 1)));
      case MissingPricing =>
        totals' := totals'.(cost := totals'.cost.(missingPricingTokens := totals'.cost.missingPricingTokens + inTok + outTok));
        m := m.(tally := m.tally.(cost := m.tally.cost.(missingPricingTokens := m.tally.cost.missingPricingTokens + inTok + outTok)));
    }
    assert totals' == Plus(totals, Contribution(c));
    assert m.tally == Plus(before, Contribution(c));
    byModel' := byModel[c.key := m];
    ByModelGroups(seen);
    SumSnoc(seen, c);
    ByModelSnoc(seen, c);
  }

  lemma SumSnoc(cs: seq<Counted>, c: Counted)
    ensures Sum(cs + [c]) == Plus(Sum(cs), Contribution(c))
  {
    assert (cs + [c])[..|cs|] == cs;
  }

  /** One more message changes only its own key's entry. */
  lemma ByModelSnoc(cs: seq<Counted>, c: Counted)
    ensures var old_ := ByModel(cs);
      var prev := if c.key in old_ then old_[c.key] else ModelUsage(c.provider, c.key, Zero);
      ByModel(cs + [c]) == old_[c.key := ModelUsage(prev.provider, c.key, Plus(prev.tally, Contribution(c)))]
  {
    assert (cs + [c])[..|cs|] == cs;
  }

  lemma ModelEntrySnoc(cs: seq<Counted>, c: Counted, k: string)
    ensures k != c.key ==> ModelEntry(cs + [c], k) == ModelEntry(cs, k)
    ensures k == c.key && k !in Grouping.Keys(cs, KeyOf) ==> ModelEntry(cs + [c], k) == ModelUsage(c.provider, k, Plus(Zero, Contribution(c)))
    ensures k == c.key && k in Grouping.Keys(cs, KeyOf) ==>
      var e := ModelEntry(cs, k);
      ModelEntry(cs + [c], k) == ModelUsage(e.provider, k, Plus(e.tally, Contribution(c)))
  {
    if k != c.key {
      OtherEntrySnoc(cs, c, k);
    } else if k !in Grouping.Keys(cs, KeyOf) {
      NewEntrySnoc(cs, c);
    } else {
      OldEntrySnoc(cs, c);
    }
  }

  lemma OtherEntrySnoc(cs: seq<Counted>, c: Counted, k: string)
    requires k != c.key
    ensures ModelEntry(cs + [c], k) == ModelEntry(cs, k)
  {
    var g := Grouping.Group(cs, KeyOf, k);
    Grouping.GroupSnoc(cs, c, KeyOf, k);
    assert g + [] == g;
  }

  lemma NewEntrySnoc(cs: seq<Counted>, c: Counted)
    requires c.key !in Grouping.Keys(cs, KeyOf)
    ensures ModelEntry(cs + [c], c.key) == ModelUsage(c.provider, c.key, Plus(Zero, Contribution(c)))
  {
    Grouping.GroupOfOtherKey(cs, KeyOf, c.key);
    Grouping.GroupSnoc(cs, c, KeyOf, c.key);
    assert Grouping.Group(cs + [c], KeyOf, c.key) == [c];
    SumSnoc([], c);
    assert [] + [c] == [c];
  }

  lemma OldEntrySnoc(cs: seq<Counted>, c: Counted)
    requires c.key in Grouping.Keys(cs, KeyOf)
    ensures var e := ModelEntry(cs, c.key);
      ModelEntry(cs + [c], c.key) == ModelUsage(e.provider, c.key, Plus(e.tally, Contribution(c)))
  {
    var g := Grouping.Group(cs, KeyOf, c.key);
    Grouping.GroupSnoc(cs, c, KeyOf, c.key);
    Grouping.GroupOfKey(cs, KeyOf, c.key);
    SumSnoc(g, c);
    assert (g + [c])[0] == g[0];
  }

  // ---------------------------------------------------------------------
  // What the report promises

  /** The sum of the model entries of `keys` in `byModel` (a key without an
      entry adds nothing). */
  function SumEntries(keys: seq<string>, byModel: map<string, ModelUsage>): Tally {
    if keys == [] then Zero
    else
      var k := keys[|keys| - 1];
      Plus(SumEntries(keys[..|keys| - 1], byModel), if k in byModel then byModel[k].tally else Zero)
  }

  /** The sum over the groups of `keys`. */
  function SumGroups(keys: seq<string>, cs: seq<Counted>): Tally {
    if keys == [] then Zero
    else Plus(SumGroups(keys[..|keys| - 1], cs), Sum(Grouping.Group(cs, KeyOf, keys[|keys| - 1])))
  }

  // ---------------------------------------------------------------------
  // The report against the rows

  /** The token total a row reports: `usage.totalTokens`, or the sum of
      its four counts when that is 0; 0 for a row without usage. */
  function RowTotal(row: Row): int {
    if row.message.None? || row.message.value.usage.None? then 0
    else
      var u := row.message.value.usage.value;
      if u.totalTokens != 0 then u.totalTokens else u.input + u.output + u.cacheRead + u.cacheWrite
  }

  /** The number of rows of one file that qualify. */
  function QualifyingCount(rows: seq<Row>, w: Window): nat {
    if rows == [] then 0
    else QualifyingCount(rows[..|rows| - 1], w) + (if Qualifies(rows[|rows| - 1], w) then 1 else 0)
  }

  /** The sum of the token totals of the rows of one file that qualify. */
  function QualifyingTotal(rows: seq<Row>, w: Window): int {
    if rows == [] then 0
    else QualifyingTotal(rows[..|rows| - 1], w) + (if Qualifies(rows[|rows| - 1], w) then RowTotal(rows[|rows| - 1]) else 0)
  }

  /** `QualifyingCount` over the readable files. */
  function CountInFiles(files: seq<Option<seq<Row>>>, w: Window): nat {
    if files == [] then 0
    else CountInFiles(files[..|files| - 1], w) + match files[|files| - 1] case Some(rows) => QualifyingCount(rows, w) case None => 0
  }

  /** `QualifyingTotal` over the readable files. */
  function TotalInFiles(files: seq<Option<seq<Row>>>, w: Window): int {
    if files == [] then 0
    else TotalInFiles(files[..|files| - 1], w) + match files[|files| - 1] case Some(rows) => QualifyingTotal(rows, w) case None => 0
  }

  /** The report counts exactly the qualifying rows of the readable files,
      and its total-token counter is the sum of their token totals. */
  lemma ReportCountsRows(files: seq<Option<seq<Row>>>, w: Window, tz: Option<string>, priced: set<string>)
    ensures var r := UsageReport(files, w, tz, priced);
      && r.totals.messages == CountInFiles(files, w)
      && r.totals.tokens.total == TotalInFiles(files, w)
  {
    FilesMatch(files, w, priced);
  }

  lemma {:induction false} FilesMatch(files: seq<Option<seq<Row>>>, w: Window, priced: set<string>)
    ensures |FilesCounted(files, w, priced)| == CountInFiles(files, w)
    ensures Sum(FilesCounted(files, w, priced)).tokens.total == TotalInFiles(files, w)
    decreases |files|
  {
    if files != [] {
      var init := files[..|files| - 1];
      FilesMatch(init, w, priced);
      match files[|files| - 1] {
        case None =>
          assert FilesCounted(files, w, priced) == FilesCounted(init, w, priced) + [] == FilesCounted(init, w, priced);
        case Some(rows) =>
          RowsMatch(rows, w, priced);
          assert FilesCounted(files, w, priced) == FilesCounted(init, w, priced) + RowsCounted(rows, w, priced);
          SumAppendTotal(FilesCounted(init, w, priced), RowsCounted(rows, w, priced));
      }
    }
  }

  lemma {:induction false} RowsMatch(rows: seq<Row>, w: Window, priced: set<string>)
    ensures |RowsCounted(rows, w, priced)| == QualifyingCount(rows, w)
    ensures Sum(RowsCounted(rows, w, priced)).tokens.total == QualifyingTotal(rows, w)
    decreases |rows|
  {
    if rows != [] {
      var init, last := rows[..|rows| - 1], rows[|rows| - 1];
      RowsMatch(init, w, priced);
      match CountRow(last, w, priced) {
        case None =>
          assert RowsCounted(rows, w, priced) == RowsCounted(init, w, priced) + [] == RowsCounted(init, w, priced);
        case Some(c) =>
          assert RowsCounted(rows, w, priced) == RowsCounted(init, w, priced) + [c];
          SumSnoc(RowsCounted(init, w, priced), c);
          assert c.tokens.total == RowTotal(last);
      }
    }
  }

  /** The total-token counter of a sum adds up over concatenation. */
  lemma {:induction false} SumAppendTotal(a: seq<Counted>, b: seq<Counted>)
    ensures Sum(a + b).tokens.total == Sum(a).tokens.total + Sum(b).tokens.total
    decreases |b|
  {
    if b == [] {
      assert a + b == a;
    } else {
      var init, c := b[..|b| - 1], b[|b| - 1];
      assert a + b == (a + init) + [c];
      assert b == init + [c];
      SumAppendTotal(a, init);
      SumSnoc(a + init, c);
      SumSnoc(init, c);
      assert Sum(a + b) == Plus(Sum(a + init), Contribution(c));
      assert Sum(b) == Plus(Sum(init), Contribution(c));
    }
  }

  /** Every counter of the totals is the sum of that counter over the model
      entries: the message count, the five token counts, and the three
      cost buckets. */
  lemma TotalsAreSumOfModels(files: seq<Option<seq<Row>>>, w: Window, tz: Option<string>, priced: set<string>)
    ensures var r, cs := UsageReport(files, w, tz, priced), FilesCounted(files, w, priced);
      r.totals == SumEntries(Grouping.Keys(cs, KeyOf), r.byModel)
  {
    var cs := FilesCounted(files, w, priced);
    var keys := Grouping.Keys(cs, KeyOf);
    SumByKeys(cs);
    EntriesAreGroups(keys, cs);
  }

  lemma {:induction false} EntriesAreGroups(keys: seq<string>, cs: seq<Counted>)
    requires forall i :: 0 <= i < |keys| ==> keys[i] in Grouping.Keys(cs, KeyOf)
    ensures SumEntries(keys, ByModel(cs)) == SumGroups(keys, cs)
    decreases |keys|
  {
    if keys != [] {
      EntriesAreGroups(keys[..|keys| - 1], cs);
      ByModelGroups(cs);
    }
  }

  /** The sum over all messages is the sum over the groups of their keys. */
  lemma {:induction false} SumByKeys(cs: seq<Counted>)
    ensures Sum(cs) == SumGroups(Grouping.Keys(cs, KeyOf), cs)
    decreases |cs|
  {
    if cs != [] {
      var init, c := cs[..|cs| - 1], cs[|cs| - 1];
      assert cs == init + [c];
      var ks := Grouping.Keys(init, KeyOf);
      SumByKeys(init);
      SumSnoc(init, c);
      Grouping.KeysSnoc(init, c, KeyOf);
      SumGroupsSnoc(ks, init, c);
      if c.key !in ks {
        PlusZero(SumGroups(ks, init));
        SumGroupsNewKey(init, c);
      }
    }
  }

  /** The group of a key that is new with the last message is that
      message alone. */
  lemma SumGroupsNewKey(init: seq<Counted>, c: Counted)
    requires c.key !in Grouping.Keys(init, KeyOf)
    ensures var ks := Grouping.Keys(init, KeyOf);
      SumGroups(ks + [c.key], init + [c]) == Plus(SumGroups(ks, init + [c]), Contribution(c))
  {
    var ks := Grouping.Keys(init, KeyOf);
    Grouping.GroupOfOtherKey(init, KeyOf, c.key);
    Grouping.GroupSnoc(init, c, KeyOf, c.key);
    assert Grouping.Group(init + [c], KeyOf, c.key) == [c];
    SumSnoc([], c);
    assert [] + [c] == [c];
    PlusZero(Contribution(c));
    assert (ks + [c.key])[..|ks|] == ks;
  }

  lemma PlusZero(a: Tally)
    ensures Plus(a, Zero) == a && Plus(Zero, a) == a
  {
  }

  lemma PlusSwap(a: Tally, b: Tally, c: Tally)
    ensures Plus(Plus(a, b), c) == Plus(Plus(a, c), b)
    ensures Plus(Plus(a, b), c) == Plus(a, Plus(b, c))
  {
  }

  /** One more message adds its contribution to the sum over the groups of
      distinct keys that hold its key, and nothing otherwise. */
  lemma {:induction false} SumGroupsSnoc(keys: seq<string>, cs: seq<Counted>, c: Counted)
    requires Distinct(keys)
    ensures SumGroups(keys, cs + [c]) == Plus(SumGroups(keys, cs), if c.key in keys then Contribution(c) else Zero)
    decreases |keys|
  {
    if keys == [] {
      PlusZero(Zero);
    } else {
      var init, last := keys[..|keys| - 1], keys[|keys| - 1];
      assert keys == init + [last];
      assert last !in init;
      SumGroupsSnoc(init, cs, c);
      var g := Grouping.Group(cs, KeyOf, last);
      Grouping.GroupSnoc(cs, c, KeyOf, last);
      var e := if c.key in init then Contribution(c) else Zero;
      assert SumGroups(keys, cs + [c]) == Plus(Plus(SumGroups(init, cs), e), Sum(Grouping.Group(cs + [c], KeyOf, last)));
      if last == c.key {
        SumSnoc(g, c);
        PlusZero(SumGroups(init, cs));
        PlusSwap(SumGroups(init, cs), Sum(g), Contribution(c));
      } else {
        assert g + [] == g;
        PlusSwap(SumGroups(init, cs), e, Sum(g));
      }
    }
  }

  /** How many messages went to a bucket. */
  function InBucket(cs: seq<Counted>, b: Bucket): nat {
    if cs == [] then 0
    else InBucket(cs[..|cs| - 1], b) + (if cs[|cs| - 1].bucket == b then 1 else 0)
  }

  /** Every counted message lands in exactly one bucket: the known and the
      estimated amounts added are the messages of those buckets, and
      together with the messages without a price they are all messages. */
  lemma {:induction false} BucketsPartition(cs: seq<Counted>)
    ensures Sum(cs).cost.knownAdds == InBucket(cs, KnownCost)
    ensures Sum(cs).cost.estimatedAdds == InBucket(cs, EstimatedCost)
    ensures InBucket(cs, KnownCost) + InBucket(cs, EstimatedCost) + InBucket(cs, MissingPricing) == Sum(cs).messages
    decreases |cs|
  {
    if cs != [] {
      BucketsPartition(cs[..|cs| - 1]);
    }
  }
}
