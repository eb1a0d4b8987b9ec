/** The reply side of the newsletter triage (scripts/newsletter-triage.mjs):
    the reply grammar, the ids a reply selects, the de-duplicating rule-list
    update, and the `reply`/`apply` commands acting on the rule file, the
    saved proposal and the mail mover. */
module TriageReply {
  import opened Wrappers
  import opened Strings
  import opened Seqs
  import opened TriageScoring

  // ---------------------------------------------------------------------
  // The reply grammar

  /** What `parseReply` returns. */
  datatype Reply = MoveAll | MoveSome(nums: seq<nat>) | Not(n: nat) | Always(n: nat) | Unknown

  /** What follows the keyword `w` at the start of `t`, when a space comes
      right after the keyword (the `^w\s+` of the reply patterns). */
  function AfterKeyword(t: string, w: string): Option<string> {
    if |w| < |t| && t[..|w|] == w && IsSpace(t[|w|]) then Some(t[|w|..]) else None
  }

  predicate DigitOrSpace(c: char) {
    IsDigit(c) || IsSpace(c)
  }

  /** `Number(w)` on a word: its value when it is a string of digits. */
  function NumberOf(w: string): Option<nat> {
    if w != [] && AllDigits(w) then Some(DigitsValue(w)) else None
  }

  /** `.map(Number).filter(n => Number.isFinite(n) && n > 0)` over the
      words. */
  function Positives(ws: seq<string>): (nums: seq<nat>)
    decreases |ws|
  {
    if ws == [] then []
    else
      var first := match NumberOf(ws[0]) case Some(v) => if v > 0 then [v] else [] case None => [];
      first + Positives(ws[1..])
  }

  /** The reply patterns tried in order on normalised text: `move all`,
      `move` followed by digits and spaces, `not N`, `always N`; anything
      else is unknown. */
  function Classify(t: string): Reply {
    match AfterKeyword(t, "move")
    case Some(rest) =>
      if TrimStart(rest) == "all" then MoveAll
      else if |rest| >= 2 && forall i :: 0 <= i < |rest| ==> DigitOrSpace(rest[i]) then
        MoveSome(Positives(Words(rest)))
      else Unknown
    case None =>
      match AfterKeyword(t, "not")
      case Some(rest) =>
        var d := TrimStart(rest);
        if d != [] && AllDigits(d) then Not(DigitsValue(d)) else Unknown
      case None =>
        match AfterKeyword(t, "always")
        case Some(rest) =>
          var d := TrimStart(rest);
          if d != [] && AllDigits(d) then Always(DigitsValue(d)) else Unknown
        case None => Unknown
  }

  /** `parseReply`: the patterns applied to the normalised text. */
  function ParseReply(text: string): Reply {
    Classify(Norm(text))
  }

  /** The numbers of a `move` reply are all positive. */
  lemma {:induction false} PositivesArePositive(ws: seq<string>)
    ensures forall k :: 0 <= k < |Positives(ws)| ==> Positives(ws)[k] > 0
    decreases |ws|
  {
    if ws != [] {
      PositivesArePositive(ws[1..]);
    }
  }

  /** A reply reads the same whatever its case and surrounding spaces. */
  lemma ParseReplyOfNormal(text: string)
    ensures ParseReply(Norm(text)) == ParseReply(text)
  {
    NormIdempotent(text);
  }

  /** A reply as a user would type it; `Unknown` as the empty reply. */
  function Render(r: Reply): string {
    match r
    case MoveAll => "move all"
    case MoveSome(nums) => "move" + " " + Unwords(Map(nums, NatToDigits))
    case Not(n) => "not" + " " + NatToDigits(n)
    case Always(n) => "always" + " " + NatToDigits(n)
    case Unknown => ""
  }

  /** The replies `Render` can write: a `move` needs at least one number,
      and only positive ones survive parsing. */
  predicate Renderable(r: Reply) {
    r.MoveSome? ==> r.nums != [] && forall k :: 0 <= k < |r.nums| ==> r.nums[k] > 0
  }

  /** Parsing a rendered reply gives the reply back. */
  lemma ParseRender(r: Reply)
    requires Renderable(r)
    ensures ParseReply(Render(r)) == r
  {
    RenderIsNormal(r);
    match r
    case MoveAll =>
      AfterKeywordOf("move", "all");
      assert "move" + " " + "all" == "move all";
      assert TrimStart(" all") == "all";
    case MoveSome(nums) =>
      ClassifyMoveSome(nums);
    case Not(n) =>
      ClassifyNumbered("not", n);
      AfterOtherKeyword(Render(r), "move");
    case Always(n) =>
      ClassifyNumbered("always", n);
      AfterOtherKeyword(Render(r), "move");
      AfterOtherKeyword(Render(r), "not");
    case Unknown =>
  }

  lemma AfterKeywordOf(w: string, body: string)
    ensures AfterKeyword(w + " " + body, w) == Some(" " + body)
  {
    var t := w + " " + body;
    assert t[..|w|] == w;
    assert t[|w|..] == " " + body;
  }

  lemma AfterOtherKeyword(t: string, w: string)
    requires t != [] && w != [] && t[0] != w[0]
    ensures AfterKeyword(t, w) == None
  {
  }

  /** `w N` with `N` written in digits reads back as `N` after the
      keyword `w`. */
  lemma ClassifyNumbered(w: string, n: nat)
    ensures var rest := " " + NatToDigits(n);
      && AfterKeyword(w + " " + NatToDigits(n), w) == Some(rest)
      && TrimStart(rest) == NatToDigits(n)
  {
    var d := NatToDigits(n);
    AfterKeywordOf(w, d);
    assert (" " + d)[1..] == d;
  }

  lemma ClassifyMoveSome(nums: seq<nat>)
    requires nums != [] && forall k :: 0 <= k < |nums| ==> nums[k] > 0
    ensures Classify(Render(MoveSome(nums))) == MoveSome(nums)
  {
    var ds := Map(nums, NatToDigits);
    var u := Unwords(ds);
    var rest := " " + u;
    MoveBody(nums);
    AfterKeywordOf("move", u);
    assert TrimStart(rest) == u by {
      assert rest[1..] == u;
    }
    assert u != "all" by {
      assert IsDigit(u[0]);
    }
    WordsSkipSpace(rest);
    assert rest[1..] == u;
    PositivesOfDigits(nums);
  }

  /** The numbers of a `move` reply, written out and separated by spaces:
      digits and spaces only, starting and ending with a digit, and its
      words are the numbers written out. */
  lemma MoveBody(nums: seq<nat>)
    requires nums != []
    ensures var u := Unwords(Map(nums, NatToDigits));
      && u != [] && IsDigit(u[0]) && IsDigit(u[|u| - 1])
      && (forall i :: 0 <= i < |u| ==> DigitOrSpace(u[i]))
      && Words(u) == Map(nums, NatToDigits)
  {
    var ds := Map(nums, NatToDigits);
    assert forall k :: 0 <= k < |ds| ==> ds[k] == NatToDigits(nums[k]);
    JoinEnds(ds, ' ');
    JoinKeeps(ds, ' ', DigitOrSpace);
    var u, last := Unwords(ds), ds[|ds| - 1];
    assert u[0] == ds[0][0];
    assert u[|u| - 1] == last[|last| - 1];
    WordsUnwords(ds);
  }

  /** The words of positive numbers written out read back as those
      numbers. */
  lemma {:induction false} PositivesOfDigits(nums: seq<nat>)
    requires forall k :: 0 <= k < |nums| ==> nums[k] > 0
    ensures Positives(Map(nums, NatToDigits)) == nums
    decreases |nums|
  {
    if nums != [] {
      var ds := Map(nums, NatToDigits);
      assert ds[1..] == Map(nums[1..], NatToDigits);
      PositivesOfDigits(nums[1..]);
      assert nums == [nums[0]] + nums[1..];
    }
  }

  /** A rendered reply is already normalised. */
  lemma RenderIsNormal(r: Reply)
    requires Renderable(r)
    ensures Norm(Render(r)) == Render(r)
  {
    match r
    case MoveAll => MoveAllIsNormal();
    case MoveSome(nums) => MoveSomeIsNormal(nums);
    case Not(n) => NumberedIsNormal("not", n);
    case Always(n) => NumberedIsNormal("always", n);
    case Unknown => NormalIsNorm("");
  }

  lemma MoveAllIsNormal()
    ensures Norm("move all") == "move all"
  {
    PhraseIsNormal("move", "all");
    assert "move" + " " + "all" == "move all";
  }

  lemma MoveSomeIsNormal(nums: seq<nat>)
    requires nums != []
    ensures var t := "move" + " " + Unwords(Map(nums, NatToDigits)); Norm(t) == t
  {
    MoveBody(nums);
    PhraseIsNormal("move", Unwords(Map(nums, NatToDigits)));
  }

  lemma NumberedIsNormal(w: string, n: nat)
    requires w != [] && !IsSpace(w[0]) && forall i :: 0 <= i < |w| ==> NoCapital(w[i])
    ensures Norm(w + " " + NatToDigits(n)) == w + " " + NatToDigits(n)
  {
    PhraseIsNormal(w, NatToDigits(n));
  }

  predicate NoCapital(c: char) {
    !('A' <= c <= 'Z')
  }

  /** A keyword, a space and a body without capitals or surrounding
      spaces is its own normal form. */
  lemma PhraseIsNormal(w: string, body: string)
    requires w != [] && !IsSpace(w[0]) && forall i :: 0 <= i < |w| ==> NoCapital(w[i])
    requires body != [] && !IsSpace(body[|body| - 1])
    requires forall i :: 0 <= i < |body| ==> IsDigit(body[i]) || IsSpace(body[i]) || NoCapital(body[i])
    ensures Norm(w + " " + body) == w + " " + body
  {
    var s := w + " " + body;
    forall i | 0 <= i < |s| ensures NoCapital(s[i]) {
      if i > |w| {
        assert s[i] == body[i - |w| - 1];
      }
    }
    assert s[|s| - 1] == body[|body| - 1];
    NormalIsNorm(s);
  }

  /** A string without surrounding spaces and capital letters is its own
      normal form. */
  lemma NormalIsNorm(s: string)
    requires s == [] || (!IsSpace(s[0]) && !IsSpace(s[|s| - 1]))
    requires forall i :: 0 <= i < |s| ==> NoCapital(s[i])
    ensures Norm(s) == s
  {
    TrimOfTrimmed(s);
    assert Lower(s) == s;
  }

  // ---------------------------------------------------------------------
  // Selecting the messages to move

  /** `rules.thresholds.defaultMoveMin ?? 65`, for a rule file that has a
      `thresholds` object (without one, the read throws: see
      `ReplyEffect`). */
  function MoveMin(t: Thresholds): int {
    match t.defaultMoveMin
    case Some(m) => m
    case None => 65
  }

  /** The ids `move all` moves: those of the items whose confidence reaches
      the move threshold, in list order. */
  function MoveAllIds(items: seq<Candidate>, t: Thresholds): seq<string> {
    Map(Filter(items, (it: Candidate) => it.confidence >= MoveMin(t)), (it: Candidate) => it.id)
  }

  lemma MoveAllIdsMembers(items: seq<Candidate>, t: Thresholds, id: string)
    ensures id in MoveAllIds(items, t) <==>
      exists j :: 0 <= j < |items| && items[j].confidence >= MoveMin(t) && id == items[j].id
  {
    MapFilterMembers(items, (it: Candidate) => it.confidence >= MoveMin(t), (it: Candidate) => it.id, id);
  }

  /** `items[n - 1]`: the item at a 1-based position, if there is one. */
  function ItemAt(items: seq<Candidate>, n: nat): (r: Option<Candidate>)
    ensures r.Some? <==> 1 <= n <= |items|
    ensures r.Some? ==> r.value == items[n - 1]
  {
    if 1 <= n <= |items| then Some(items[n - 1]) else None
  }

  predicate IsFound(o: Option<Candidate>) {
    o.Some?
  }

  function IdOf(o: Option<Candidate>): string {
    match o
    case Some(it) => it.id
    case None => ""
  }

  /** `nums.map(n => items[n - 1])`. */
  function Lookup(items: seq<Candidate>, nums: seq<nat>): seq<Option<Candidate>> {
    seq(|nums|, k requires 0 <= k < |nums| => ItemAt(items, nums[k]))
  }

  /** The ids `move n...` moves:
      `nums.map(n => items[n - 1]).filter(Boolean).map(it => it.id)`. */
  function PickIds(items: seq<Candidate>, nums: seq<nat>): seq<string> {
    Map(Filter(Lookup(items, nums), IsFound), IdOf)
  }

  /** One more number adds the id at that position, or nothing when the
      position is out of range. */
  lemma PickIdsSnoc(items: seq<Candidate>, nums: seq<nat>, n: nat)
    ensures PickIds(items, nums + [n]) ==
      PickIds(items, nums) + if 1 <= n <= |items| then [items[n - 1].id] else []
  {
    var found := Lookup(items, nums);
    assert Lookup(items, nums + [n]) == found + [ItemAt(items, n)];
    FilterSnoc(found, ItemAt(items, n), IsFound);
    if 1 <= n <= |items| {
      MapSnoc(Filter(found, IsFound), ItemAt(items, n), IdOf);
    }
  }

  /** With every position in range, the ids are those at the positions, in
      the order of the reply and with repetitions kept. */
  lemma PickIdsInRange(items: seq<Candidate>, nums: seq<nat>)
    requires forall k :: 0 <= k < |nums| ==> 1 <= nums[k] <= |items|
    ensures |PickIds(items, nums)| == |nums|
    ensures forall k :: 0 <= k < |nums| ==> PickIds(items, nums)[k] == items[nums[k] - 1].id
  {
    var found := Lookup(items, nums);
    FilterAll(found, IsFound);
    forall k | 0 <= k < |nums| ensures PickIds(items, nums)[k] == items[nums[k] - 1].id {
      assert PickIds(items, nums)[k] == IdOf(found[k]);
    }
  }

  // ---------------------------------------------------------------------
  // Editing a rule list

  predicate NonEmpty(s: string) {
    s != ""
  }

  /** `Array.from(new Set([...(list || []), addr])).filter(Boolean)`. */
  function AddAddress(list: seq<string>, addr: string): seq<string> {
    Filter(Dedup(list + [addr]), NonEmpty)
  }

  /** The new list holds the old entries and the address, minus the empty
      string. */
  lemma AddAddressMembers(list: seq<string>, addr: string, x: string)
    ensures x in AddAddress(list, addr) <==> (x in list || x == addr) && x != ""
  {
    FilterMembership(Dedup(list + [addr]), NonEmpty, x);
    if x in list + [addr] {
      var i :| 0 <= i < |list + [addr]| && (list + [addr])[i] == x;
    }
  }

  /** The new list has no repetitions. */
  lemma AddAddressDistinct(list: seq<string>, addr: string)
    ensures Distinct(AddAddress(list, addr))
  {
    FilterDistinct(Dedup(list + [addr]), NonEmpty);
  }

  /** On a list without repetitions and empty entries, the address is
      appended when it is new and not empty, and the list is otherwise left
      as it was. */
  lemma AddAddressAppends(list: seq<string>, addr: string)
    requires Distinct(list) && "" !in list
    ensures AddAddress(list, addr) == if addr in list || addr == "" then list else list + [addr]
  {
    DedupSnoc(list, addr);
    DedupOfDistinct(list);
    assert forall i :: 0 <= i < |list| ==> NonEmpty(list[i]);
    if addr in list {
      FilterAll(list, NonEmpty);
    } else {
      FilterSnoc(list, addr, NonEmpty);
      FilterAll(list, NonEmpty);
    }
  }

  /** Adding the same address twice is adding it once. */
  lemma AddAddressIdempotent(list: seq<string>, addr: string)
    ensures AddAddress(AddAddress(list, addr), addr) == AddAddress(list, addr)
  {
    var once := AddAddress(list, addr);
    AddAddressDistinct(list, addr);
    AddAddressMembers(list, addr, "");
    AddAddressMembers(list, addr, addr);
    AddAddressAppends(once, addr);
  }

  /** Which list of the rule file a `not`/`always` reply extends. */
  datatype RuleList = BlockList | AllowList

  /** The callback `updateRuleFile` is given: the rule file with `addr`
      added to `block.addresses` or `allow.addresses`. */
  function WithAddress(file: Rules, which: RuleList, addr: string): Rules {
    match which
    case BlockList => file.(block := file.block.(addresses := AddAddress(file.block.addresses, addr)))
    case AllowList => file.(allow := file.allow.(addresses := AddAddress(file.allow.addresses, addr)))
  }

  /** Only the chosen address list changes, and it changes as
      `AddAddress` says. */
  lemma WithAddressFrame(file: Rules, which: RuleList, addr: string)
    ensures var f := WithAddress(file, which, addr);
      && f.subjectKeywords == file.subjectKeywords && f.thresholds == file.thresholds
      && f.sourceFolder == file.sourceFolder && f.targetFolder == file.targetFolder
      && f.block.domains == file.block.domains && f.block.keywords == file.block.keywords
      && f.allow.domains == file.allow.domains
      && (which == BlockList ==> f.allow == file.allow && f.block.addresses == AddAddress(file.block.addresses, addr))
      && (which == AllowList ==> f.block == file.block && f.allow.addresses == AddAddress(file.allow.addresses, addr))
  {
  }

  // ---------------------------------------------------------------------
  // The command line

  /** `getArg(name)` without its default: the argument after the first
      occurrence of `name`, if there is one. */
  function GetArg(argv: seq<string>, name: string): (v: Option<string>)
    ensures v.Some? ==> exists i :: 0 <= i < |argv| - 1 && argv[i] == name && name !in argv[..i] && v.value == argv[i + 1]
    ensures v.None? <==> name !in argv || IndexOf(argv, name) == |argv| - 1
  {
    var i := IndexOf(argv, name);
    if i == -1 || i + 1 == |argv| then None else Some(argv[i + 1])
  }

  function OrElse(v: Option<string>, def: string): string {
    match v
    case Some(x) => x
    case None => def
  }

  /** `argv[0] || "propose"`. */
  function CommandOf(argv: seq<string>): string {
    if argv == [] || argv[0] == "" then "propose" else argv[0]
  }

  function AccountOf(argv: seq<string>): string {
    OrElse(GetArg(argv, "--account"), "wasc")
  }

  /** The rules the run works with: the rule file, with its source folder
      replaced by a non-empty `--source` argument. */
  function RulesFor(argv: seq<string>, file: Rules): Rules {
    match GetArg(argv, "--source")
    case Some(src) => if src != "" then file.(sourceFolder := src) else file
    case None => file
  }

  /** `Number(s)` for the forms modelled here: blank reads as 0, and an
      optional sign followed by decimal digits reads as its value; `None`
      stands for `NaN`. */
  function JsNumber(s: string): Option<int> {
    var t := Trim(s);
    if t == "" then Some(0)
    else if AllDigits(t) then Some(DigitsValue(t))
    else if |t| >= 2 && (t[0] == '-' || t[0] == '+') && AllDigits(t[1..]) then
      Some(if t[0] == '-' then -(DigitsValue(t[1..]) as int) else DigitsValue(t[1..]))
    else None
  }

  /** A number written in decimal reads back as itself, and so does its
      negation. */
  lemma JsNumberOfDigits(n: nat)
    ensures JsNumber(NatToDigits(n)) == Some(n)
    ensures JsNumber("-" + NatToDigits(n)) == Some(-(n as int))
  {
    var d := NatToDigits(n);
    TrimOfTrimmed(d);
    var m := "-" + d;
    assert m[1..] == d;
    assert !IsSpace(m[|m| - 1]) by { assert m[|m| - 1] == d[|d| - 1]; }
    TrimOfTrimmed(m);
  }

  /** `Number(getArg("--max", "20"))`, with `NaN` read as 0: `slice(-NaN)`
      keeps the whole list, as `slice(-0)` does. */
  function MaxItems(argv: seq<string>): int {
    match JsNumber(OrElse(GetArg(argv, "--max"), "20"))
    case Some(n) => n
    case None => 0
  }

  /** `argv.slice(1).join(" ").trim()`: the reply text. */
  function ReplyText(argv: seq<string>): string {
    if argv == [] then "" else Trim(Unwords(argv[1..]))
  }

  /** Trimming the reply text first changes nothing, since parsing trims
      it again. */
  lemma ReplyTextTrimIsRedundant(argv: seq<string>)
    requires argv != []
    ensures ParseReply(ReplyText(argv)) == ParseReply(Unwords(argv[1..]))
  {
    var s := Unwords(argv[1..]);
    TrimSpec(s);
    TrimOfTrimmed(Trim(s));
  }

  predicate IsIdArg(a: string) {
    a != "" && AllDigits(a)
  }

  /** The ids `apply` moves: `argv.filter(a => /^\d+$/.test(a))`, taken over
      all the arguments, the values of options included. */
  function ApplyIds(argv: seq<string>): seq<string> {
    Filter(argv, IsIdArg)
  }

  /** Every argument made of digits alone is an id, as often as it occurs,
      and nothing else is. */
  lemma ApplyIdsSpec(argv: seq<string>)
    ensures forall a :: multiset(ApplyIds(argv))[a] == if IsIdArg(a) then multiset(argv)[a] else 0
    ensures forall k :: 0 <= k < |ApplyIds(argv)| ==> IsIdArg(ApplyIds(argv)[k])
  {
    FilterMultiset(argv, IsIdArg);
    forall k | 0 <= k < |ApplyIds(argv)| ensures IsIdArg(ApplyIds(argv)[k]) {
      FilterMembership(argv, IsIdArg, ApplyIds(argv)[k]);
    }
  }

  // ---------------------------------------------------------------------
  // What a command does

  /** One call of the mail mover. */
  datatype Move = Move(account: string, source: string, target: string, ids: seq<string>)

  /** What a run writes: a line on standard output or on standard error,
      or the proposal text for a list of candidates (its layout is not
      modelled). */
  datatype Output = Stdout(text: string) | Stderr(text: string) | Proposal(items: seq<Candidate>, rules: Rules)

  /** The exit code, the output, the rule file afterwards and the mover
      calls made. */
  datatype Effect = Effect(code: int, out: Output, ruleFile: Rules, moved: seq<Move>)

  function MovedMessage(n: nat, source: string, target: string): string {
    "Moved " + NatToDigits(n) + " message(s) from " + source + " \U{2192} " + target + "."
  }

  function LearnedMessage(which: RuleList, addr: string): string {
    match which
    case BlockList => "Okay \U{2014} added " + addr + " to blocklist."
    case AllowList => "Nice \U{2014} added " + addr + " to allowlist."
  }

  const NotUnderstood: string := "I didn't understand. Try: `move all`, `move 1 3`, `not 2`, or `always 4`."

  /** The uncaught `TypeError` of reading `defaultMoveMin` from a rule file
      without a `thresholds` object; Node reports it and exits 1. */
  const NoThresholds: string := "TypeError: Cannot read properties of undefined (reading 'defaultMoveMin')"

  /** `applyMove`: an empty id list calls no mover. */
  function MoveEffect(account: string, rules: Rules, ids: seq<string>, file: Rules): Effect {
    if ids == [] then Effect(0, Stdout("(nothing to move)"), file, [])
    else
      Effect(0, Stdout(MovedMessage(|ids|, rules.sourceFolder, rules.targetFolder)), file,
        [Move(account, rules.sourceFolder, rules.targetFolder, ids)])
  }

  /** `not n` / `always n`: the normalised sender of item `n` joins the
      chosen address list; an item number out of range exits 1. */
  function LearnEffect(which: RuleList, items: seq<Candidate>, n: nat, file: Rules): Effect {
    match ItemAt(items, n)
    case None => Effect(1, Stdout("Unknown item number."), file, [])
    case Some(it) =>
      var addr := Norm(it.from.addr);
      Effect(0, Stdout(LearnedMessage(which, addr)), WithAddress(file, which, addr), [])
  }

  /** The `reply` command on the text of the reply. */
  function ReplyEffect(text: string, account: string, rules: Rules, file: Rules, items: seq<Candidate>): Effect {
    match ParseReply(text)
    case MoveAll =>
      (match rules.thresholds
       case None => Effect(1, Stderr(NoThresholds), file, [])
       case Some(t) => MoveEffect(account, rules, MoveAllIds(items, t), file))
    case MoveSome(nums) => MoveEffect(account, rules, PickIds(items, nums), file)
    case Not(n) => LearnEffect(BlockList, items, n, file)
    case Always(n) => LearnEffect(AllowList, items, n, file)
    case Unknown => Effect(2, Stdout(NotUnderstood), file, [])
  }

  /** A reply that is not understood exits 2; a `not`/`always` with a
      position out of range (0 included), and a `move all` on a rule file
      without a `thresholds` object, exit 1; every other reply exits 0.
      The failing replies change nothing. */
  lemma ReplyExitCodes(text: string, account: string, rules: Rules, file: Rules, items: seq<Candidate>)
    ensures var e, r := ReplyEffect(text, account, rules, file, items), ParseReply(text);
      var fails := ((r.Not? || r.Always?) && !(1 <= r.n <= |items|)) || (r.MoveAll? && rules.thresholds.None?);
      && (e.code == 2 <==> r.Unknown?)
      && (e.code == 1 <==> fails)
      && (e.code == 0 <==> !r.Unknown? && !fails)
      && (e.code != 0 ==> e.ruleFile == file && e.moved == [])
  {
  }

  /** Only `move` replies call the mover, once, with a non-empty id list, and
      they leave the rule file alone; a `move` that selects nothing calls no
      mover. */
  lemma ReplyMoves(text: string, account: string, rules: Rules, file: Rules, items: seq<Candidate>)
    ensures var e, r := ReplyEffect(text, account, rules, file, items), ParseReply(text);
      && (e.moved != [] ==> (r.MoveAll? || r.MoveSome?) && |e.moved| == 1 && e.moved[0].ids != [])
      && (r.MoveAll? ==> e.ruleFile == file)
      && (r.MoveAll? && rules.thresholds.None? ==> e.moved == [])
      && (r.MoveAll? && rules.thresholds.Some? ==>
            var ids := MoveAllIds(items, rules.thresholds.value);
            e.moved == if ids == [] then [] else [Move(account, rules.sourceFolder, rules.targetFolder, ids)])
      && (r.MoveSome? ==> e.ruleFile == file && e.moved == if PickIds(items, r.nums) == [] then [] else
            [Move(account, rules.sourceFolder, rules.targetFolder, PickIds(items, r.nums))])
  {
  }

  /** A valid `not n` adds the sender of item `n`, normalised, to the block
      list and a valid `always n` to the allow list; nothing else in the
      rule file changes, and a second identical reply changes nothing
      more. */
  lemma ReplyLearns(text: string, account: string, rules: Rules, file: Rules, items: seq<Candidate>)
    requires var r := ParseReply(text); (r.Not? || r.Always?) && 1 <= r.n <= |items|
    ensures var e, r := ReplyEffect(text, account, rules, file, items), ParseReply(text);
      var addr, which := Norm(items[r.n - 1].from.addr), if r.Not? then BlockList else AllowList;
      && e.code == 0 && e.moved == []
      && e.ruleFile == WithAddress(file, which, addr)
      && ReplyEffect(text, account, rules, e.ruleFile, items).ruleFile == e.ruleFile
  {
    var r := ParseReply(text);
    LearnTwice(if r.Not? then BlockList else AllowList, items, r.n, file);
  }

  lemma LearnTwice(which: RuleList, items: seq<Candidate>, n: nat, file: Rules)
    requires 1 <= n <= |items|
    ensures var once := LearnEffect(which, items, n, file).ruleFile;
      LearnEffect(which, items, n, once).ruleFile == once
  {
    var addr := Norm(items[n - 1].from.addr);
    match which
    case BlockList => AddAddressIdempotent(file.block.addresses, addr);
    case AllowList => AddAddressIdempotent(file.allow.addresses, addr);
  }

  // ---------------------------------------------------------------------
  // The files and the mover

  /** The session state `propose` writes and `reply` reads (its timestamp
      and rule-file path are not modelled). */
  datatype State = State(account: string, sourceFolder: string, targetFolder: string, items: seq<Candidate>)

  /** The world a run of the script sees: the rule file, the session state
      file, and the calls made to the mail mover so far. */
  class Workspace {
    var ruleFile: Rules
    var state: State
    var moves: seq<Move>

    constructor (ruleFile: Rules, state: State)
      ensures this.ruleFile == ruleFile && this.state == state && moves == []
    {
      this.ruleFile := ruleFile;
      this.state := state;
      moves := [];
    }

    /** `applyMove`. */
    method ApplyMove(account: string, rules: Rules, ids: seq<string>) returns (out: Output)
      modifies this
      ensures var e := MoveEffect(account, rules, ids, old(ruleFile));
        out == e.out && moves == old(moves) + e.moved
      ensures ruleFile == old(ruleFile) && state == old(state)
    {
      if |ids| == 0 {
        return Stdout("(nothing to move)");
      }
      moves := moves + [Move(account, rules.sourceFolder, rules.targetFolder, ids)];
      out := Stdout(MovedMessage(|ids|, rules.sourceFolder, rules.targetFolder));
    }

    /** `updateRuleFile` with the callback of `not`/`always`: the rule file
      is read afresh, one address list is extended, and the file is
      written back. */
    method UpdateRuleFile(which: RuleList, addr: string)
      modifies this
      ensures ruleFile == WithAddress(old(ruleFile), which, addr)
      ensures state == old(state) && moves == old(moves)
    {
      var r := ruleFile;
      match which {
        case BlockList =>
          r := r.(block := r.block.(addresses := AddAddress(r.block.addresses, addr)));
        case AllowList =>
          r := r.(allow := r.allow.(addresses := AddAddress(r.allow.addresses, addr)));
      }
      ruleFile := r;
    }

    /** The `reply` command. */
    method Reply(text: string, account: string, rules: Rules) returns (code: int, out: Output)
      modifies this
      ensures var e := ReplyEffect(text, account, rules, old(ruleFile), old(state.items));
        && code == e.code && out == e.out
        && ruleFile == e.ruleFile && moves == old(moves) + e.moved
      ensures state == old(state)
    {
      var items := state.items;
      var parsed := ParseReply(text);
      match parsed
      case MoveAll =>
        if rules.thresholds.None? {
          return 1, Stderr(NoThresholds);
        }
        out := ApplyMove(account, rules, MoveAllIds(items, rules.thresholds.value));
        code := 0;
      case MoveSome(nums) =>
        out := ApplyMove(account, rules, PickIds(items, nums));
        code := 0;
      case Not(n) =>
        code, out := Learn(BlockList, items, n);
      case Always(n) =>
        code, out := Learn(AllowList, items, n);
      case Unknown =>
        code, out := 2, Stdout(NotUnderstood);
    }

    /** The `not`/`always` branch of the `reply` command. */
    method Learn(which: RuleList, items: seq<Candidate>, n: nat) returns (code: int, out: Output)
      modifies this
      ensures var e := LearnEffect(which, items, n, old(ruleFile));
        code == e.code && out == e.out && ruleFile == e.ruleFile
      ensures state == old(state) && moves == old(moves)
    {
      if !(1 <= n <= |items|) {
        return 1, Stdout("Unknown item number.");
      }
      var it := items[n - 1];
      var addr := Norm(it.from.addr);
      UpdateRuleFile(which, addr);
      code, out := 0, Stdout(LearnedMessage(which, addr));
    }

    /** One run of the script with the given arguments (without the program
      name) and, for `propose`, the envelopes the mail listing returns. */
    method Run(argv: seq<string>, inbox: seq<Envelope>) returns (code: int, out: Output)
      modifies this
      ensures var cmd, rules := CommandOf(argv), RulesFor(argv, old(ruleFile));
        cmd == "propose" ==>
          && ruleFile == old(ruleFile) && moves == old(moves)
          && state.account == AccountOf(argv) && state.sourceFolder == rules.sourceFolder
          && state.targetFolder == rules.targetFolder
          && TopRanked(state.items, Proposed(inbox, rules), MaxItems(argv))
          && (if state.items != [] && rules.thresholds.None?
              then code == 1 && out == Stderr(NoThresholds)
              else code == 0 && out == Proposal(state.items, rules))
      ensures var cmd, rules := CommandOf(argv), RulesFor(argv, old(ruleFile));
        cmd == "reply" ==>
          var e := ReplyEffect(ReplyText(argv), AccountOf(argv), rules, old(ruleFile), old(state.items));
          && code == e.code && out == e.out && state == old(state)
          && ruleFile == e.ruleFile && moves == old(moves) + e.moved
      ensures var cmd, rules := CommandOf(argv), RulesFor(argv, old(ruleFile));
        cmd == "apply" ==>
          var e := MoveEffect(AccountOf(argv), rules, ApplyIds(argv), old(ruleFile));
          && code == 0 && out == e.out && state == old(state)
          && ruleFile == old(ruleFile) && moves == old(moves) + e.moved
      ensures var cmd := CommandOf(argv);
        cmd != "propose" && cmd != "reply" && cmd != "apply" ==>
          && code == 2 && out == Stderr("Unknown command: " + cmd)
          && ruleFile == old(ruleFile) && state == old(state) && moves == old(moves)
    {
      var cmd := CommandOf(argv);
      var account := AccountOf(argv);
      var rules := RulesFor(argv, ruleFile);
      if cmd == "propose" {
        var items := BuildCandidates(inbox, rules, MaxItems(argv));
        state := State(account, rules.sourceFolder, rules.targetFolder, items);
        if items != [] && rules.thresholds.None? {
          return 1, Stderr(NoThresholds);
        }
        return 0, Proposal(items, rules);
      }
      if cmd == "reply" {
        code, out := Reply(ReplyText(argv), account, rules);
        return;
      }
      if cmd == "apply" {
        out := ApplyMove(account, rules, ApplyIds(argv));
        return 0, out;
      }
      return 2, Stderr("Unknown command: " + cmd);
    }
  }
}
