/** The newsletter triage scorer and candidate builder
    (scripts/newsletter-triage.mjs): string normalisation, the rule-based
    confidence score, and the ranked, capped proposal list. */
module TriageScoring {
  import opened Wrappers
  import opened Strings
  import opened Seqs
  import Sorting

  /** The `from` object of a mail envelope; an absent field reads as "". */
  datatype Sender = Sender(addr: string, name: string)

  /** One envelope of the mail listing; never changed here. */
  datatype Envelope = Envelope(id: string, date: string, from: Sender, subject: string)

  datatype AllowRules = AllowRules(domains: seq<string>, addresses: seq<string>)
  datatype BlockRules = BlockRules(domains: seq<string>, addresses: seq<string>, keywords: seq<string>)
  datatype Thresholds = Thresholds(minPropose: Option<int>, defaultMoveMin: Option<int>)

  /** The rule file: an absent list reads as empty. An absent (or `null`)
      `thresholds` object is `None`, and `Some(Thresholds(None, None))` is
      `thresholds: {}`; inside it an absent threshold is `None`. */
  datatype Rules = Rules(
    allow: AllowRules,
    block: BlockRules,
    subjectKeywords: seq<string>,
    thresholds: Option<Thresholds>,
    sourceFolder: string,
    targetFolder: string)

  /** What the scorer returns for one envelope. */
  datatype Scored = Scored(confidence: int, blocked: bool, reasons: seq<Reason>)

  /** One proposed move, as kept in the session state. */
  datatype Candidate = Candidate(
    id: string,
    date: string,
    from: Sender,
    sender: string,
    subject: string,
    confidence: int,
    reasons: seq<Reason>)

  // ---------------------------------------------------------------------
  // String helpers

  /** `norm`: trimmed and lower-cased (see `NormShape`). */
  function Norm(s: string): string {
    Lower(Trim(s))
  }

  /** A normalised string has no surrounding space and no capital letter. */
  lemma NormShape(s: string)
    ensures |Norm(s)| <= |s|
    ensures Norm(s) == [] || (!IsSpace(Norm(s)[0]) && !IsSpace(Norm(s)[|Norm(s)| - 1]))
    ensures forall i :: 0 <= i < |Norm(s)| ==> !('A' <= Norm(s)[i] <= 'Z')
  {
    TrimSpec(s);
    LowerShape(Trim(s));
  }

  /** Normalising twice is normalising once. */
  lemma NormIdempotent(s: string)
    ensures Norm(Norm(s)) == Norm(s)
  {
    var n := Norm(s);
    NormShape(s);
    TrimOfTrimmed(n);
    assert Lower(n) == n;
  }

  /** `domainOf`: the text after the last `@` of the normalised address, or
      "" when there is no `@` (see `DomainOfSpec`). */
  function DomainOf(addr: string): string {
    var a := Norm(addr);
    var i := LastIndexOf(a, '@');
    if i == -1 then "" else a[i + 1..]
  }

  /** The domain holds no `@`, and it is empty when the address has none. */
  lemma DomainOfSpec(addr: string)
    ensures '@' !in DomainOf(addr)
    ensures '@' !in Norm(addr) ==> DomainOf(addr) == ""
  {
  }

  /** When the address has an `@`, the domain is what follows its last one. */
  lemma DomainOfSuffix(addr: string)
    requires '@' in Norm(addr)
    ensures var a, r := Norm(addr), DomainOf(addr);
      |r| < |a| && a[|a| - |r| - 1] == '@' && a[|a| - |r|..] == r
  {
    var a := Norm(addr);
    var i := LastIndexOf(a, '@');
    assert DomainOf(addr) == a[i + 1..];
  }

  /** The address pattern `^([^@]+)@([^@]+)$`: the user and host parts when
      the address holds exactly one `@` with text on both sides (see
      `AddressPartsSpec`). */
  function AddressParts(addr: string): Option<(string, string)> {
    var i := LastIndexOf(addr, '@');
    if i == -1 || i == 0 || i == |addr| - 1 || '@' in addr[..i] then None
    else Some((addr[..i], addr[i + 1..]))
  }

  /** The pattern matches exactly when there is one `@`, neither first nor
      last; the parts are then non-empty, free of `@`, and rebuild the
      address around the `@`. */
  lemma AddressPartsSpec(addr: string)
    ensures AddressParts(addr).Some? <==> Count(addr, '@') == 1 && addr[0] != '@' && addr[|addr| - 1] != '@'
    ensures AddressParts(addr).Some? ==>
      var (user, host) := AddressParts(addr).value;
      && user != "" && host != "" && '@' !in user && '@' !in host
      && addr == user + "@" + host
  {
    var i := LastIndexOf(addr, '@');
    if i != -1 {
      SplitAround(addr, i);
      assert [addr[i]] == "@";
      CountAppend(addr[..i] + "@", addr[i + 1..], '@');
      CountAppend(addr[..i], "@", '@');
    }
  }

  /** `sh` is the last two dot-separated labels of `host`: a suffix of it,
      starting right after a dot or at the start, holding exactly one dot. */
  ghost predicate LastTwoLabels(host: string, sh: string) {
    && |sh| <= |host|
    && host[|host| - |sh|..] == sh
    && (|sh| == |host| || host[|host| - |sh| - 1] == '.')
    && Count(sh, '.') == 1
  }

  /** `host.split(".").slice(-2).join(".")` when the host has a dot (see
      `ShortHostSpec`). */
  function ShortHost(host: string): Option<string> {
    var parts := Split(host, '.');
    var n := |parts|;
    if n < 2 then None else Some(Join(parts[n - 2..], '.'))
  }

  /** There is a short host exactly when the host has a dot, and it is
      then the host's last two labels. */
  lemma ShortHostSpec(host: string)
    ensures ShortHost(host).Some? <==> '.' in host
    ensures ShortHost(host).Some? ==> LastTwoLabels(host, ShortHost(host).value)
  {
    var parts := Split(host, '.');
    var n := |parts|;
    if n < 2 {
      assert host == parts[0];
    } else {
      var last2 := parts[n - 2..];
      var sh := Join(last2, '.');
      assert last2[0] == parts[n - 2] && last2[1..] == [parts[n - 1]];
      assert Join(last2[1..], '.') == parts[n - 1];
      assert sh == last2[0] + ['.'] + Join(last2[1..], '.');
      assert sh == parts[n - 2] + "." + parts[n - 1];
      CountAppend(parts[n - 2] + ".", parts[n - 1], '.');
      CountAppend(parts[n - 2], ".", '.');
      assert n == 2 || host == Join(parts[..n - 2], '.') + "." + sh by {
        if n > 2 {
          JoinSplitsAt(parts, '.', n - 2);
        }
      }
    }
  }

  /** `senderShort`: the display form of a sender (see `SenderShortPlain`,
      `SenderShortPlatform` and `SenderShortHost`). */
  function SenderShort(from: Sender): string {
    var addr := Norm(from.addr);
    if addr == "" then
      var name := Norm(from.name);
      if name == "" then "unknown" else name
    else
      match AddressParts(addr)
      case None => addr
      case Some((user, host)) =>
        if host == "substack.com" then user + "@substack"
        else if host == "mail.beehiiv.com" then user + "@beehiiv"
        else
          match ShortHost(host)
          case Some(sh) => user + "@" + sh
          case None => addr
  }

  /** The sender's name (or "unknown") when there is no address, and the
      address itself when it is not `user@host`. */
  lemma SenderShortPlain(from: Sender)
    ensures var addr, r := Norm(from.addr), SenderShort(from);
      && (addr == "" ==> r == (if Norm(from.name) == "" then "unknown" else Norm(from.name)))
      && (addr != "" && AddressParts(addr).None? ==> r == addr)
  {
  }

  /** The platform short forms for Substack and beehiiv addresses. */
  lemma SenderShortPlatform(from: Sender)
    requires AddressParts(Norm(from.addr)).Some?
    ensures var (user, host) := AddressParts(Norm(from.addr)).value;
      && (host == "substack.com" ==> SenderShort(from) == user + "@substack")
      && (host == "mail.beehiiv.com" ==> SenderShort(from) == user + "@beehiiv")
  {
    AddressPartsSpec(Norm(from.addr));
  }

  /** For any other `user@host`: `user@` and the host's last two labels
      when the host has a dot, and the address itself when it has none. */
  lemma SenderShortHost(from: Sender)
    requires AddressParts(Norm(from.addr)).Some?
    requires AddressParts(Norm(from.addr)).value.1 !in {"substack.com", "mail.beehiiv.com"}
    ensures var addr, r := Norm(from.addr), SenderShort(from);
      var (user, host) := AddressParts(addr).value;
      && ('.' in host ==> |r| > |user| + 1 && r[..|user| + 1] == user + "@" && LastTwoLabels(host, r[|user| + 1..]))
      && ('.' !in host ==> r == addr)
  {
    var addr := Norm(from.addr);
    AddressPartsSpec(addr);
    var (user, host) := AddressParts(addr).value;
    ShortHostSpec(host);
    if '.' in host {
      var sh := ShortHost(host).value;
      assert SenderShort(from) == user + "@" + sh;
      assert (user + "@" + sh)[|user| + 1..] == sh;
      assert (user + "@" + sh)[..|user| + 1] == user + "@";
    }
  }

  /** `containsAny`: whether some needle, normalised, occurs in the
      normalised haystack (see `ContainsAnyIff`). */
  function ContainsAny(hay: string, needles: seq<string>): bool
    decreases |needles|
  {
    if needles == [] then false
    else Contains(Norm(hay), Norm(needles[0])) || ContainsAny(hay, needles[1..])
  }

  lemma {:induction false} ContainsAnyIff(hay: string, needles: seq<string>)
    ensures ContainsAny(hay, needles) <==> exists i :: 0 <= i < |needles| && Contains(Norm(hay), Norm(needles[i]))
    decreases |needles|
  {
    if needles != [] {
      ContainsAnyIff(hay, needles[1..]);
      assert forall i :: 1 <= i < |needles| ==> needles[1..][i - 1] == needles[i];
    }
  }

  // ---------------------------------------------------------------------
  // The score, as a table of checks

  /** The reasons the scorer gives; `Text` is how each one is written. */
  datatype Reason =
    | BlockedAddress | BlockedDomain | BlockedKeyword
    | AllowAddress | AllowDomain | SubjectSignal | PlatformSignal | NameSignal

  function Text(r: Reason): string {
    match r
    case BlockedAddress => "blocked: address"
    case BlockedDomain => "blocked: domain"
    case BlockedKeyword => "blocked: keyword"
    case AllowAddress => "allow: address"
    case AllowDomain => "allow: domain"
    case SubjectSignal => "signal: subject"
    case PlatformSignal => "signal: newsletter platform"
    case NameSignal => "signal: sender name"
  }

  /** The outcomes of the five non-blocking checks. */
  datatype Checks = Checks(allowAddress: bool, allowDomain: bool, subject: bool, platform: bool, senderName: bool)

  /** The position of a check in the order the checks are made (the block
      reasons come before all checks). */
  function Rank(r: Reason): int {
    match r
    case AllowAddress => 0
    case AllowDomain => 1
    case SubjectSignal => 2
    case PlatformSignal => 3
    case NameSignal => 4
    case _ => -1
  }

  /** Whether the check that gives reason `r` held. */
  predicate Fired(r: Reason, c: Checks) {
    match r
    case AllowAddress => c.allowAddress
    case AllowDomain => c.allowDomain
    case SubjectSignal => c.subject
    case PlatformSignal => c.platform
    case NameSignal => c.senderName
    case _ => false
  }

  predicate IsPlatform(dom: string) {
    dom == "substack.com" || dom == "mail.beehiiv.com"
  }

  /** Address, name and subject as the keyword checks see them. */
  function Blob(e: Envelope): string {
    Norm(e.from.addr) + " " + Norm(e.from.name) + " " + Norm(e.subject)
  }

  /** The first hard-block rule that matches, in the order address, domain,
      keyword. */
  function BlockReason(e: Envelope, rules: Rules): Option<Reason> {
    var addr := Norm(e.from.addr);
    var dom := DomainOf(addr);
    if addr in rules.block.addresses then Some(BlockedAddress)
    else if dom != "" && dom in rules.block.domains then Some(BlockedDomain)
    else if ContainsAny(Blob(e), rules.block.keywords) then Some(BlockedKeyword)
    else None
  }

  /** The outcomes of the five checks for one envelope. */
  function Signals(e: Envelope, rules: Rules): Checks {
    var addr := Norm(e.from.addr);
    var name := Norm(e.from.name);
    var dom := DomainOf(addr);
    Checks(
      addr in rules.allow.addresses,
      dom != "" && dom in rules.allow.domains,
      ContainsAny(Norm(e.subject), rules.subjectKeywords),
      IsPlatform(dom),
      Contains(name, "newsletter") || Contains(name, "digest"))
  }

  function Clamp(x: int): int {
    if x < 0 then 0 else if x > 100 then 100 else x
  }

  /** The allow floor plus the signal bonuses, clamped: it lies in [0,100];
      an allowed address sets a floor of 95, else an allowed domain a floor
      of 65; without either it is the sum of the bonuses 15, 10 and 5 of
      the signals that held. */
  function Confidence(c: Checks): (n: int)
    ensures 0 <= n <= 100
    ensures c.allowAddress ==> n >= 95
    ensures !c.allowAddress && c.allowDomain ==> n >= 65
    ensures !c.allowAddress && !c.allowDomain ==>
      n == (if c.subject then 15 else 0) + (if c.platform then 10 else 0) + (if c.senderName then 5 else 0)
  {
    var floor := if c.allowAddress then 95 else if c.allowDomain then 65 else 0;
    var bonus := (if c.subject then 15 else 0) + (if c.platform then 10 else 0) + (if c.senderName then 5 else 0);
    Clamp(floor + bonus)
  }

  /** `[x]` when `b` holds, else nothing. */
  function If<T>(b: bool, x: T): seq<T> {
    if b then [x] else []
  }

  /** The reasons of the checks that held, check by check (see
      `ReasonsExact` and `ReasonsOrdered`). */
  function Reasons(c: Checks): seq<Reason> {
    If(c.allowAddress, AllowAddress) + If(c.allowDomain, AllowDomain)
      + If(c.subject, SubjectSignal) + If(c.platform, PlatformSignal) + If(c.senderName, NameSignal)
  }

  /** The score table, given the first block rule that matched and the five
      checks' outcomes (see `Confidence` and `ReasonsExact`). */
  function ScoreOf(block: Option<Reason>, c: Checks): (s: Scored)
    ensures s.blocked <==> block.Some?
    ensures s.blocked ==> s.confidence == 0 && s.reasons == [block.value]
  {
    match block
    case Some(reason) => Scored(0, true, [reason])
    case None => Scored(Confidence(c), false, Reasons(c))
  }

  /** The reasons name exactly the checks that held, and no block rule. */
  lemma ReasonsExact(c: Checks)
    ensures forall r :: r in Reasons(c) <==> Rank(r) >= 0 && Fired(r, c)
  {
  }

  /** The reasons come in check order, each once. */
  lemma ReasonsOrdered(c: Checks)
    ensures RankIncreasing(Reasons(c))
  {
    var s1 := If(c.allowAddress, AllowAddress);
    var s2 := s1 + If(c.allowDomain, AllowDomain);
    var s3 := s2 + If(c.subject, SubjectSignal);
    var s4 := s3 + If(c.platform, PlatformSignal);
    assert Ascending(s1) && LastRank(s1) <= 0;
    AscendingAppend(s1, c.allowDomain, AllowDomain);
    AscendingAppend(s2, c.subject, SubjectSignal);
    AscendingAppend(s3, c.platform, PlatformSignal);
    AscendingAppend(s4, c.senderName, NameSignal);
    AscendingPairwise(Reasons(c));
  }

  predicate RankIncreasing(s: seq<Reason>) {
    forall i, j :: 0 <= i < j < |s| ==> Rank(s[i]) < Rank(s[j])
  }

  /** Each reason ranks above the one before it. */
  predicate Ascending(s: seq<Reason>)
    decreases |s|
  {
    |s| <= 1 || (Rank(s[|s| - 2]) < Rank(s[|s| - 1]) && Ascending(s[..|s| - 1]))
  }

  /** The rank of the last reason, -1 when there is none. */
  function LastRank(s: seq<Reason>): int {
    if s == [] then -1 else Rank(s[|s| - 1])
  }

  /** Appending a reason of a later check keeps the order. */
  lemma AscendingAppend(s: seq<Reason>, b: bool, x: Reason)
    requires Ascending(s) && LastRank(s) < Rank(x)
    ensures Ascending(s + If(b, x)) && LastRank(s + If(b, x)) <= Rank(x)
  {
    if b {
      assert (s + [x])[..|s|] == s;
    } else {
      assert s + [] == s;
    }
  }

  /** Adjacent reasons in order means any two are. */
  lemma {:induction false} AscendingPairwise(s: seq<Reason>)
    requires Ascending(s)
    ensures RankIncreasing(s)
    decreases |s|
  {
    if |s| > 1 {
      var init := s[..|s| - 1];
      AscendingPairwise(init);
      forall i, j | 0 <= i < j < |s| ensures Rank(s[i]) < Rank(s[j]) {
        if j == |s| - 1 && i < |s| - 2 {
          assert Rank(init[i]) < Rank(init[|s| - 2]);
        } else if j < |s| - 1 {
          assert Rank(init[i]) < Rank(init[j]);
        }
      }
    }
  }

  /** The score of one envelope. */
  function Score(e: Envelope, rules: Rules): Scored {
    ScoreOf(BlockReason(e, rules), Signals(e, rules))
  }

  /** `scoreEmail`: the hard blocks first, each returning at once; then the
      five checks, raising the confidence and appending their reasons one
      at a time, and the clamp. */
  method ScoreEmail(e: Envelope, rules: Rules) returns (s: Scored)
    ensures s == Score(e, rules)
  {
    var fromAddr := Norm(e.from.addr);
    var fromName := Norm(e.from.name);
    var subj := Norm(e.subject);
    var dom := DomainOf(fromAddr);

    if fromAddr in rules.block.addresses {
      return Scored(0, true, [BlockedAddress]);
    }
    if dom != "" && dom in rules.block.domains {
      return Scored(0, true, [BlockedDomain]);
    }
    if ContainsAny(fromAddr + " " + fromName + " " + subj, rules.block.keywords) {
      return Scored(0, true, [BlockedKeyword]);
    }
    assert BlockReason(e, rules) == None;
    var c := Checks(
      fromAddr in rules.allow.addresses,
      dom != "" && dom in rules.allow.domains,
      ContainsAny(subj, rules.subjectKeywords),
      dom == "substack.com" || dom == "mail.beehiiv.com",
      Contains(fromName, "newsletter") || Contains(fromName, "digest"));
    assert c == Signals(e, rules);
    s := Tally(c);
  }

  /** The confidence and reasons of an envelope that no block rule matched:
      the checks raise the confidence and append their reasons one at a
      time, then the confidence is clamped. */
  method Tally(c: Checks) returns (s: Scored)
    ensures s == ScoreOf(None, c)
  {
    var confidence := 0;
    var reasons: seq<Reason> := [];
    if c.allowAddress {
      confidence := if confidence > 95 then confidence else 95;
      reasons := reasons + [AllowAddress];
    }
    assert reasons == If(c.allowAddress, AllowAddress);
    if c.allowDomain {
      confidence := if confidence > 65 then confidence else 65;
      reasons := reasons + [AllowDomain];
    }
    ghost var floor := confidence;
    assert reasons == If(c.allowAddress, AllowAddress) + If(c.allowDomain, AllowDomain);
    if c.subject {
      confidence := confidence + 15;
      reasons := reasons + [SubjectSignal];
    }
    assert reasons == If(c.allowAddress, AllowAddress) + If(c.allowDomain, AllowDomain)
      + If(c.subject, SubjectSignal);
    if c.platform {
      confidence := confidence + 10;
      reasons := reasons + [PlatformSignal];
    }
    assert reasons == If(c.allowAddress, AllowAddress) + If(c.allowDomain, AllowDomain)
      + If(c.subject, SubjectSignal) + If(c.platform, PlatformSignal);
    if c.senderName {
      confidence := confidence + 5;
      reasons := reasons + [NameSignal];
    }
    assert confidence == floor + (if c.subject then 15 else 0) + (if c.platform then 10 else 0) + (if c.senderName then 5 else 0);
    confidence := if confidence < 0 then 0 else if confidence > 100 then 100 else confidence;
    return Scored(confidence, false, reasons);
  }

  /** A blank block keyword occurs in every text, so it blocks every
      envelope. */
  lemma BlankKeywordBlocksAll(e: Envelope, rules: Rules, k: nat)
    requires k < |rules.block.keywords| && Norm(rules.block.keywords[k]) == ""
    ensures Score(e, rules).blocked && Score(e, rules).confidence == 0
  {
    BlankNeedleMatches(Blob(e), rules.block.keywords, k);
    assert BlockReason(e, rules).Some?;
  }

  /** A needle that is blank once normalized occurs in any text. */
  lemma BlankNeedleMatches(hay: string, needles: seq<string>, k: nat)
    requires k < |needles| && Norm(needles[k]) == ""
    ensures ContainsAny(hay, needles)
  {
    assert Contains(Norm(hay), Norm(needles[k]));
    ContainsAnyIff(hay, needles);
  }

  // ---------------------------------------------------------------------
  // Candidates

  /** `rules?.thresholds?.minPropose ?? 25`. */
  function MinPropose(rules: Rules): int {
    match rules.thresholds
    case Some(Thresholds(Some(m), _)) => m
    case _ => 25
  }

  /** An envelope is proposed when it is not blocked and scores at least the
      proposal threshold. */
  predicate Passes(e: Envelope, rules: Rules) {
    var s := Score(e, rules);
    !s.blocked && s.confidence >= MinPropose(rules)
  }

  function ToCandidate(e: Envelope, rules: Rules): Candidate {
    var s := Score(e, rules);
    Candidate(e.id, e.date, e.from, SenderShort(e.from), e.subject, s.confidence, s.reasons)
  }

  /** The envelopes that pass, as candidates, in listing order (see
      `ProposedMembers`). */
  function Proposed(envs: seq<Envelope>, rules: Rules): seq<Candidate> {
    Map(Filter(envs, e => Passes(e, rules)), e => ToCandidate(e, rules))
  }

  /** A candidate is proposed exactly when it is the candidate of some
      envelope that passes. */
  lemma ProposedMembers(envs: seq<Envelope>, rules: Rules, c: Candidate)
    ensures c in Proposed(envs, rules) <==>
      exists j :: 0 <= j < |envs| && Passes(envs[j], rules) && c == ToCandidate(envs[j], rules)
  {
    MapFilterMembers(envs, e => Passes(e, rules), e => ToCandidate(e, rules), c);
  }

  /** One more envelope adds its candidate when it passes. */
  lemma ProposedSnoc(envs: seq<Envelope>, e: Envelope, rules: Rules)
    ensures Proposed(envs + [e], rules) == Proposed(envs, rules) + If(Passes(e, rules), ToCandidate(e, rules))
  {
    var p, f := e => Passes(e, rules), e => ToCandidate(e, rules);
    FilterSnoc(envs, e, p);
    if Passes(e, rules) {
      MapSnoc(Filter(envs, p), e, f);
    }
  }

  /** The comparator of the proposal sort, as "may come before": lower
      confidence first, and among equal confidences the later date first. */
  predicate RankLe(x: Candidate, y: Candidate) {
    x.confidence < y.confidence || (x.confidence == y.confidence && LexLe(y.date, x.date))
  }

  lemma RankLeIsTotalPreorder()
    ensures Sorting.TotalPreorder(RankLe)
  {
    forall x, y ensures RankLe(x, y) || RankLe(y, x) {
      LexLeTotal(x.date, y.date);
    }
    forall x, y, z | RankLe(x, y) && RankLe(y, z) ensures RankLe(x, z) {
      if x.confidence == y.confidence == z.confidence {
        LexLeTransitive(z.date, y.date, x.date);
      }
    }
  }

  /** Where `list.slice(-maxItems)` starts in a list of length `n`; note that
      `-0` is `0`, so a cap of 0 keeps the whole list. */
  function SliceStart(n: nat, maxItems: int): (k: nat)
    ensures k <= n
    ensures maxItems >= 1 ==> n - k == if n < maxItems then n else maxItems
    ensures maxItems == 0 ==> k == 0
    ensures maxItems < 0 ==> k == if -maxItems < n then -maxItems else n
  {
    var start := -maxItems;
    if start < 0 then (if n + start < 0 then 0 else n + start)
    else if start < n then start
    else n
  }

  /** `r` is what ranking `proposed` and keeping the last `maxItems` gives:
      it is ordered by rank, comes from `proposed`, has the length the slice
      gives, and every candidate left out ranks no higher than every one
      kept. */
  ghost predicate TopRanked(r: seq<Candidate>, proposed: seq<Candidate>, maxItems: int) {
    && Sorting.Sorted(r, RankLe)
    && multiset(r) <= multiset(proposed)
    && |r| == |proposed| - SliceStart(|proposed|, maxItems)
    && forall c, d :: c in multiset(proposed) - multiset(r) && d in r ==> RankLe(c, d)
  }

  /** Every candidate of a proposal is the candidate of an envelope that is
      not blocked, and its confidence reaches the proposal threshold. */
  lemma TopRankedPass(r: seq<Candidate>, envs: seq<Envelope>, rules: Rules, maxItems: int)
    requires TopRanked(r, Proposed(envs, rules), maxItems)
    ensures forall c :: c in r ==> c.confidence >= MinPropose(rules)
    ensures forall c :: c in r ==>
      exists j :: 0 <= j < |envs| && !Score(envs[j], rules).blocked && c == ToCandidate(envs[j], rules)
  {
    forall c | c in r
      ensures c.confidence >= MinPropose(rules)
      ensures exists j :: 0 <= j < |envs| && !Score(envs[j], rules).blocked && c == ToCandidate(envs[j], rules)
    {
      assert c in multiset(r);
      assert c in Proposed(envs, rules);
      ProposedMembers(envs, rules, c);
    }
  }

  /** `buildCandidates`: score every envelope, keep those that pass, sort by
      rank, and keep the last `maxItems`. */
  method BuildCandidates(envs: seq<Envelope>, rules: Rules, maxItems: int) returns (r: seq<Candidate>)
    ensures TopRanked(r, Proposed(envs, rules), maxItems)
  {
    var proposed := ProposeAll(envs, rules);
    var sorted := SortCandidates(proposed);
    var k := SliceStart(|sorted|, maxItems);
    r := sorted[k..];
    Sorting.SuffixKeepsTop(sorted, k, RankLe);
  }

  /** The loop of `buildCandidates`: score each envelope and keep the
      candidates of those that are not blocked and reach the threshold. */
  method ProposeAll(envs: seq<Envelope>, rules: Rules) returns (proposed: seq<Candidate>)
    ensures proposed == Proposed(envs, rules)
  {
    proposed := [];
    var i := 0;
    while i < |envs|
      invariant 0 <= i <= |envs|
      invariant proposed == Proposed(envs[..i], rules)
    {
      var e := envs[i];
      var s := ScoreEmail(e, rules);
      TakeNext(envs, i);
      ProposedSnoc(envs[..i], e, rules);
      if !s.blocked && s.confidence >= MinPropose(rules) {
        var c := Candidate(e.id, e.date, e.from, SenderShort(e.from), e.subject, s.confidence, s.reasons);
        assert c == ToCandidate(e, rules);
        proposed := proposed + [c];
      }
      i := i + 1;
    }
    assert envs[..i] == envs;
  }

  /** `proposed.sort(...)`, done in an array. */
  method SortCandidates(s: seq<Candidate>) returns (t: seq<Candidate>)
    ensures Sorting.Sorted(t, RankLe)
    ensures multiset(t) == multiset(s)
    ensures |t| == |s|
  {
    RankLeIsTotalPreorder();
    t := Sorting.SortSeq(s, RankLe);
  }
}
