# openclaw helper scripts: a verified Dafny model

This project models the logic of four Node.js scripts that belong to an
OpenClaw personal-assistant workspace. It proves properties of that logic
with Dafny:

- `scripts/newsletter-triage.mjs` scores the envelopes of a mail folder against a
  rule file. It proposes a ranked and capped list of newsletters to move to a
  reading folder. It understands the replies `move all`, `move 1 3`, `not 2` and
  `always 4`: it moves mail through a mail mover, or it adds the sender to the
  block list or the allow list in the rule file.
- `scripts/costs.mjs` reads the command line and computes the reporting window.
  It normalises the model key used for pricing. It then adds up the token
  counts of the assistant messages in the session logs, in total and per model,
  and puts each counted message's cost into one of three buckets.
- `scripts/ha-refresh-context.mjs` and `scripts/ha-inventory.mjs` enrich the
  Home Assistant states with a domain, a name and an area. They filter them to
  the control domains (or the "nice" subset), group them by area and then by
  domain, and write a Markdown inventory. In that inventory the areas, domains
  and entities come in a fixed order and the summary shows counts.
  `ha-inventory.mjs` repeats inline the grouping and ordering of
  `writeInventoryMd` (lines 85-128). One inventory builder,
  `HomeAssistant.BuildInventory`, models both copies.

Modules:

| module | file | what it holds |
|---|---|---|
| `Wrappers` | wrappers.dfy | `Option`, `Result` |
| `Strings` | strings.dfy | `trim`, `toLowerCase`, `includes`, `startsWith`, `lastIndexOf`, `split`/`join`, the order used for `localeCompare`, decimal digits |
| `Seqs` | seqs.dfy | `filter`, `map`, de-duplication in first-seen order (`new Set`), `indexOf` |
| `Sorting` | sorting.dfy | `Array.prototype.sort` with a comparator: an in-place insertion sort on an array |
| `Grouping` | grouping.dfy | `groupBy` into a `Map` in a loop, with the keys and the group sizes |
| `TriageScoring` | triage_scoring.dfy | `norm`, `senderShort`, `domainOf`, `containsAny`, `scoreEmail`, `buildCandidates` |
| `TriageReply` | triage_reply.dfy | `parseReply`, the ids a reply selects, the rule-list update, and the `Workspace` class (rule file, state file, mover calls) that runs the commands |
| `Costs` | costs.dfy | `parseArgs`, `rangeUtcMs`, `normalizeModelKey`, `aggregateUsage` |
| `HomeAssistant` | home_assistant.dfy | enrichment, the control filter, the three orders, and the inventory that both scripts build |
| `RefreshContext` | ha_refresh_context.dfy | `mdEscape`, the area list, the "nice" filter, and the script's two inventories |
| `HaInventory` | ha_inventory.dfy | `arg`, the area-list check, the mode filter, and the script's inventory |

Each imperative part of the source has an imperative model:

- The scoring of one envelope, the candidate loop, `groupBy`, the two loops of
  `aggregateUsage`, the argument loop of `parseArgs` and the inventory loops are
  methods with loops. Each is proved against a function that specifies it.
- The sorts run in place on an array.
- The files and the mail mover that the triage commands change are the fields
  of a class.

## Model

| member | source | states |
|---|---|---|
| TriageScoring.NormShape | scripts/newsletter-triage.mjs:46-48 | a normalised string is no longer than the input, has no space at either end and no capital letter |
| TriageScoring.NormIdempotent | scripts/newsletter-triage.mjs:46-48 | normalising twice gives the same as normalising once |
| TriageScoring.DomainOfSpec | scripts/newsletter-triage.mjs:74-79 | the domain contains no `@`, and it is "" when the normalised address has no `@` |
| TriageScoring.DomainOfSuffix | scripts/newsletter-triage.mjs:74-79 | when there is an `@`, the domain is exactly the text after the last `@` of the normalised address |
| TriageScoring.AddressPartsSpec | scripts/newsletter-triage.mjs:55-58 | `^([^@]+)@([^@]+)$` matches if and only if the address has exactly one `@` that is neither first nor last; the two parts are then non-empty, contain no `@`, and rebuild the address |
| TriageScoring.ShortHostSpec | scripts/newsletter-triage.mjs:65-69 | a short host exists if and only if the host has a dot; it is then the host's last two dot-separated labels |
| TriageScoring.SenderShortHost | scripts/newsletter-triage.mjs:64-71 | other senders become `user@` plus the last two host labels, or stay as the address when the host has no dot |
| TriageScoring.ContainsAnyIff | scripts/newsletter-triage.mjs:81-84 | true if and only if some normalised needle occurs in the normalised haystack |
| TriageScoring.BlankNeedleMatches | scripts/newsletter-triage.mjs:81-84 | a needle that is blank after normalising occurs in every haystack |
| TriageScoring.Confidence | scripts/newsletter-triage.mjs:112-145 | the confidence lies in [0,100]; an allowed address gives at least 95; otherwise an allowed domain gives at least 65; otherwise it is the sum of the bonuses 15, 10 and 5 for the signals that held |
| TriageScoring.ReasonsExact | scripts/newsletter-triage.mjs:113-142 | an unblocked score's reasons are exactly the checks that held, and no block reason |
| TriageScoring.ReasonsOrdered | scripts/newsletter-triage.mjs:113-142 | the reasons come in the order the checks are made, each at most once |
| TriageScoring.AscendingPairwise | scripts/newsletter-triage.mjs:113-142 | when each reason ranks above the one before it, every reason ranks above all earlier ones |
| TriageScoring.ScoreEmail | scripts/newsletter-triage.mjs:86-148 | the imperative scorer, with its early returns, computes the score table |
| TriageScoring.Tally | scripts/newsletter-triage.mjs:112-147 | raising the confidence and appending reasons check by check, then clamping, gives the unblocked score |
| TriageScoring.BlankKeywordBlocksAll | scripts/newsletter-triage.mjs:108-110 | a block keyword that is blank after normalising blocks every envelope, with confidence 0 |
| TriageScoring.ProposedMembers | scripts/newsletter-triage.mjs:217-231 | a candidate is proposed if and only if it comes from an envelope that is not blocked and reaches the proposal threshold |
| TriageScoring.ProposedSnoc | scripts/newsletter-triage.mjs:217-231 | one more envelope appends its candidate exactly when that envelope passes |
| TriageScoring.ProposeAll | scripts/newsletter-triage.mjs:216-231 | the loop produces the passing candidates in listing order |
| TriageScoring.RankLeIsTotalPreorder | scripts/newsletter-triage.mjs:234-238 | the comparator (lower confidence first, then later date first) is total and transitive |
| TriageScoring.SortCandidates | scripts/newsletter-triage.mjs:234-238 | the result is sorted by the comparator and is a permutation of the input |
| TriageScoring.SliceStart | scripts/newsletter-triage.mjs:241 | `slice(-max)` keeps the last `max` items when `max` is at least 1, keeps all of them when `max` is 0, and drops the first `-max` when `max` is negative |
| TriageScoring.BuildCandidates | scripts/newsletter-triage.mjs:215-242 | the result is ordered by rank, is drawn from the proposed candidates, has the length the slice gives, and no candidate left out ranks above one kept |
| TriageScoring.TopRankedPass | scripts/newsletter-triage.mjs:215-242 | every candidate in the proposal comes from an unblocked envelope and reaches the proposal threshold |
| TriageReply.PositivesArePositive | scripts/newsletter-triage.mjs:299-304 | every number of a `move` reply is positive |
| TriageReply.ParseReplyOfNormal | scripts/newsletter-triage.mjs:291-292 | a reply parses the same after normalising (case and surrounding spaces do not matter) |
| TriageReply.ParseRender | scripts/newsletter-triage.mjs:291-310 | parsing a reply written as a user types it gives the reply back, for all four commands |
| TriageReply.MoveBody | scripts/newsletter-triage.mjs:299-302 | the numbers of a `move` reply, written in decimal with spaces between them, are digits and spaces only, begin and end with a digit, and split back into the same numerals |
| TriageReply.ClassifyMoveSome | scripts/newsletter-triage.mjs:294-305 | `move` followed by positive numbers parses as those numbers, in order |
| TriageReply.ClassifyNumbered | scripts/newsletter-triage.mjs:295-296 | `not N` and `always N` leave exactly the digits of `N` after the keyword |
| TriageReply.PositivesOfDigits | scripts/newsletter-triage.mjs:299-304 | positive numbers written in decimal read back as themselves |
| TriageReply.RenderIsNormal | scripts/newsletter-triage.mjs:292 | a reply as a user types it is already normalised |
| TriageReply.MoveAllIdsMembers | scripts/newsletter-triage.mjs:320-321 | `move all` selects exactly the ids of the items that reach the move threshold |
| TriageReply.PickIdsSnoc | scripts/newsletter-triage.mjs:333-336 | each further number adds the id at that position, or nothing when it is out of range |
| TriageReply.PickIdsInRange | scripts/newsletter-triage.mjs:333-336 | with every number in range, the ids are those at the given positions, in reply order, with repeats kept |
| TriageReply.AddAddressMembers | scripts/newsletter-triage.mjs:355 | the new list holds the old entries and the address, without the empty string |
| TriageReply.AddAddressDistinct | scripts/newsletter-triage.mjs:355 | the new list has no repeats |
| TriageReply.AddAddressAppends | scripts/newsletter-triage.mjs:355 | on a clean list, the address is appended when it is new and not empty, and the list is otherwise unchanged |
| TriageReply.AddAddressIdempotent | scripts/newsletter-triage.mjs:369 | adding the same address twice is the same as adding it once |
| TriageReply.WithAddressFrame | scripts/newsletter-triage.mjs:354-356 | the callback changes only the chosen address list, as `AddAddress` says |
| TriageReply.GetArg | scripts/newsletter-triage.mjs:16-21 | the value is the argument after the first occurrence of the option; there is none when the option is absent or is the last argument |
| TriageReply.JsNumberOfDigits | scripts/newsletter-triage.mjs:25-26 | `Number` reads a decimal numeral, and its negation, back as the number |
| TriageReply.ReplyTextTrimIsRedundant | scripts/newsletter-triage.mjs:313 | trimming the joined reply text before parsing changes nothing |
| TriageReply.ApplyIdsSpec | scripts/newsletter-triage.mjs:382 | `apply` selects every all-digit argument, as many times as it occurs, and nothing else |
| TriageReply.ReplyExitCodes | scripts/newsletter-triage.mjs:319-378 | an unknown reply exits 2; `not`/`always` with a position out of range exits 1, and so does `move all` on a rule file without a `thresholds` object; every other reply exits 0; the failing replies change nothing |
| TriageReply.ReplyMoves | scripts/newsletter-triage.mjs:319-345 | only `move` replies call the mover, once and with a non-empty id list, and they leave the rule file alone; `move all` without a `thresholds` object calls no mover |
| TriageReply.ReplyLearns | scripts/newsletter-triage.mjs:347-373 | a valid `not`/`always` adds the item's normalised sender to the block or allow list; repeating the reply changes nothing more |
| TriageReply.LearnTwice | scripts/newsletter-triage.mjs:368-370 | learning the same item twice leaves the rule file as after the first time |
| TriageReply.Workspace.ApplyMove | scripts/newsletter-triage.mjs:244-257 | an empty id list calls no mover; otherwise it records one mover call and reports the count |
| TriageReply.Workspace.UpdateRuleFile | scripts/newsletter-triage.mjs:285-289 | the rule file is rewritten with one address list extended; nothing else changes |
| TriageReply.Workspace.Learn | scripts/newsletter-triage.mjs:347-373 | the `not`/`always` branch has the effect of `LearnEffect` |
| TriageReply.Workspace.Reply | scripts/newsletter-triage.mjs:312-379 | the `reply` command has the effect of `ReplyEffect` on the rule file, the mover calls, the output and the exit code, the uncaught `TypeError` of a rule file without `thresholds` included |
| TriageReply.Workspace.Run | scripts/newsletter-triage.mjs:259-394 | `propose` saves a top-ranked proposal and exits 0, or exits 1 with the `TypeError` after saving when there are candidates and the rule file has no `thresholds` object; `reply` and `apply` act as specified; any other command exits 2 with an error and changes nothing |
| Costs.LastValueAbsent | scripts/costs.mjs:29-40 | without the option, `tz` and `root` keep their defaults |
| Costs.LastValueSpec | scripts/costs.mjs:33-40 | with the option, the value is the argument right after its last occurrence that is not itself a value |
| Costs.PlainStep | scripts/costs.mjs:36-39 | a flag sets itself and any other argument is kept as positional; the next argument is not a value |
| Costs.ValueOptionStep | scripts/costs.mjs:35-37 | `--tz`/`--root` consume the next argument as their value |
| Costs.ValueStep | scripts/costs.mjs:35-37 | a consumed value is neither an option nor positional |
| Costs.ParseArgs | scripts/costs.mjs:29-49 | the mode is the first positional argument or "today"; `range` fails with the usage text if and only if a date is missing or empty; the options are their last values; the flags are set if and only if they occur as options |
| Costs.YesterdayMeetsToday | scripts/costs.mjs:109-118 | yesterday's window ends exactly where today's begins |
| Costs.DotVersionSpec | scripts/costs.mjs:215-216 | a key ending in `-<digits>-<digits>` gets its last `-` turned into `.`, and any other key is unchanged |
| Costs.DotVersionIdempotent | scripts/costs.mjs:216 | rewriting the version tail a second time changes nothing |
| Costs.Sum | scripts/costs.mjs:276 | the message count of a sum is the number of messages |
| Costs.ByModelGroups | scripts/costs.mjs:282-290 | there is one entry per model key that occurs, holding the provider of that key's first message and the sum over that key's messages |
| Costs.ModelEntrySnoc | scripts/costs.mjs:282-290 | one more message creates its key's entry with its own provider, or adds to the existing entry; other entries stay the same |
| Costs.AddMessage | scripts/costs.mjs:276-329 | the counters of the totals and of the model's entry grow by the message's contribution |
| Costs.RowsCountedStep | scripts/costs.mjs:264-275 | each row adds its counted message, or nothing when it is skipped |
| Costs.AddRows | scripts/costs.mjs:264-330 | the inner loop adds the counted messages of one file, in order |
| Costs.AggregateUsage | scripts/costs.mjs:242-334 | the totals are the sum over all counted messages, and the per-model entries are those of their groups |
| Costs.ReportCountsRows | scripts/costs.mjs:264-296 | the report's message count is the number of assistant rows of the readable files with a numeric timestamp in the window and a usage object, and its total-token counter sums, over those rows, `totalTokens`, or the four counts where it is 0 |
| Costs.TotalsAreSumOfModels | scripts/costs.mjs:298-329 | each counter of the totals (messages, five token counts, three cost buckets) is the sum of that counter over the model entries |
| Costs.BucketsPartition | scripts/costs.mjs:310-329 | the known-cost and estimated-cost counters count the messages of those buckets, and the three buckets together count every message once |
| Grouping.KeysMembers | scripts/ha-refresh-context.mjs:48-56 | a key is a key of the map if and only if some element has it |
| Grouping.GroupMembers | scripts/ha-refresh-context.mjs:48-56 | an element is in the group of `k` if and only if it is in the list and has key `k` |
| Grouping.GroupSizesSum | scripts/ha-refresh-context.mjs:48-56 | the group sizes add up to the length of the list |
| Grouping.KeysPermutationSizes | scripts/ha-refresh-context.mjs:48-56 | taken in any order, the keys' group sizes add up to the length of the list |
| Grouping.GroupedSnoc | scripts/ha-refresh-context.mjs:50-54 | one more element: a new key starts an empty group, and the element joins its key's group |
| Grouping.GroupBy | scripts/ha-refresh-context.mjs:48-56 | the loop yields the keys in first-seen order and, under each key, the elements with that key in list order |
| HomeAssistant.DomainOf | scripts/ha-refresh-context.mjs:38 | "(none)" for an id without a dot; otherwise the dot-free text before the first dot |
| HomeAssistant.DomainOfPrefix | scripts/ha-inventory.mjs:52 | the domain of `d.rest` is `d` for a dot-free `d`, whatever the rest is |
| HomeAssistant.ControlSpec | scripts/ha-refresh-context.mjs:82-86 | `control` keeps exactly the entities of the twelve domains, as a sub-multiset of the list |
| HomeAssistant.AreaOf | scripts/ha-refresh-context.mjs:102 | the grouping area is never empty |
| HomeAssistant.DomKey | scripts/ha-refresh-context.mjs:104-105 | a listed domain's key is its position in the priority list; any other domain's key is 999 |
| HomeAssistant.AreaLeIsTotalPreorder | scripts/ha-refresh-context.mjs:103 | the area comparator ("Unassigned" last, the rest by name) is total and transitive |
| HomeAssistant.DomLeIsTotalPreorder | scripts/ha-refresh-context.mjs:125 | the domain comparator (priority, then name) is total and transitive |
| HomeAssistant.EntityLeIsTotalPreorder | scripts/ha-refresh-context.mjs:127 | the entity comparator (by id) is total and transitive |
| HomeAssistant.SortAreas | scripts/ha-refresh-context.mjs:103 | the area names come out sorted and are a permutation of the keys |
| HomeAssistant.SortDomains | scripts/ha-refresh-context.mjs:125 | the domains come out sorted and are a permutation of the keys |
| HomeAssistant.SortEntities | scripts/ha-refresh-context.mjs:127 | a domain's entities come out sorted by id and are a permutation of the group |
| HomeAssistant.BuildDomainSections | scripts/ha-refresh-context.mjs:126-134 | one section per domain, in the given order, each holding its domain's entities sorted by id |
| HomeAssistant.BuildSection | scripts/ha-refresh-context.mjs:122-128 | an area's section: its entity count and its domain sections in domain order |
| HomeAssistant.BuildSections | scripts/ha-refresh-context.mjs:121-135 | one area section per area name, in order, each built from that area's entities |
| HomeAssistant.BuildInventory | scripts/ha-refresh-context.mjs:101-131 | the inventory of the list: its length, the number of areas, and the sections in area order |
| HomeAssistant.AreaCountsSum | scripts/ha-refresh-context.mjs:117-123 | the `## area (n)` counts add up to the summary's entity count, which is the length of the list |
| HomeAssistant.DomainCountsSum | scripts/ha-refresh-context.mjs:123-128 | inside an area, the `### domain (n)` counts add up to the area's count |
| HomeAssistant.AreasAreDistinct | scripts/ha-refresh-context.mjs:102-118 | each area appears once; the summary's area count is the number of distinct areas; an area is listed if and only if some entity has it |
| HomeAssistant.UnassignedLast | scripts/ha-refresh-context.mjs:103 | "Unassigned" can only be the last area, and it is listed if and only if some entity has no area |
| HomeAssistant.DomainsInPriorityOrder | scripts/ha-refresh-context.mjs:104-125 | inside an area a domain with a lower priority key comes first, and every listed domain comes before every unlisted one |
| HomeAssistant.KeysAscend | scripts/ha-refresh-context.mjs:125 | along the sorted domains the priority key never drops |
| HomeAssistant.SectionsPartition | scripts/ha-refresh-context.mjs:121-131 | an entity is listed in the section of its area and domain and in no other; every entity of the list is listed |
| HomeAssistant.ListedUnderItsArea | scripts/ha-refresh-context.mjs:74-127 | an entity the list keeps is listed with its state's id and state under area entry `i` when it exists and is not empty, else under "Unassigned", in the section of its domain |
| RefreshContext.MdEscape | scripts/ha-refresh-context.mjs:44-46 | the escaped text is longer by one character per `|` in the input, and empty text stays empty |
| RefreshContext.UnescapeEscape | scripts/ha-refresh-context.mjs:44-46 | escaping loses nothing: reading `\|` back as `|` gives the original |
| RefreshContext.PipesEscaped | scripts/ha-refresh-context.mjs:44-46 | every `|` of the escaped text is preceded by `\`, so none of them ends a table cell |
| RefreshContext.AreaList | scripts/ha-refresh-context.mjs:66 | the area names are non-empty and contain no `|` |
| RefreshContext.AreaListOfJoin | scripts/ha-refresh-context.mjs:65-66 | area names joined with `|`, as the template renders them, read back as the same names; no areas render as "" and read back as none |
| RefreshContext.Enriched | scripts/ha-refresh-context.mjs:74-80 | one entity per state; an area list that is not an array gives every entity the area "Unassigned" |
| RefreshContext.NiceSpec | scripts/ha-refresh-context.mjs:88-99 | "nice" holds exactly the entities of the nine non-switch domains and the room-labelled switches that are not internet-access, child-lock or schedule switches; it is part of the control list and holds no automation or input boolean |
| RefreshContext.Refresh | scripts/ha-refresh-context.mjs:64-141 | the written area names and the two inventories are those of the control and nice lists |
| RefreshContext.ControlStateListed | scripts/ha-refresh-context.mjs:74-127 | each state of a control domain is listed in the control inventory under its aligned area entry, or under "Unassigned" when the area list is not an array or the entry is missing or empty |
| HaInventory.Arg | scripts/ha-inventory.mjs:41-47 | the default when the option is absent; otherwise, at the option's first occurrence, `true` if and only if the next argument is missing, empty or starts with `--`, and that argument otherwise |
| HaInventory.ArgFirstWins | scripts/ha-inventory.mjs:41-47 | only the first occurrence of an option and the argument after it matter |
| HaInventory.FilteredSpec | scripts/ha-inventory.mjs:80-83 | mode "control" keeps exactly the entities of the twelve domains; any other mode keeps all of them |
| HaInventory.Run | scripts/ha-inventory.mjs:58-131 | fails with "Area list mismatch" if and only if the area list is not an array of the states' length; fails when `--out` has no value; otherwise writes the inventory of the filtered entities to the given path |
| HaInventory.StateListed | scripts/ha-inventory.mjs:72-120 | each state the mode keeps is listed in the inventory under its aligned area entry, or under "Unassigned" when that entry is empty, in the section of its domain |
| Strings.Split | scripts/ha-refresh-context.mjs:66 | `split` gives at least one part, no part contains the separator, and joining the parts gives the string back |
| Strings.SplitJoin | scripts/ha-refresh-context.mjs:65-66 | splitting the join of separator-free parts gives the parts back |

## Left out

- I/O is not modelled: the mail mover and mail listing (himalaya), the Home Assistant HTTP API, the
  OpenRouter price fetch (`--fetch-prices`), reading the session logs, JSON parsing, and writing files.
  Each enters the model as already-parsed data (envelopes, states, area lists, rows, the set of priced
  keys), or it is recorded as an effect (mover calls, files written). A session log that cannot be read
  is `None`.
- The clock and the time-zone database are parameters of `Costs.RangeUtcMs`:
  - `now` is a number;
  - `ymdInTz` and `startOfDayUtcMs` are functions.
  Their date arithmetic is not modelled.
- `Costs.AggregateUsage`: the known and estimated dollar sums are floating point. Each is replaced by
  the number of amounts added to it. The price per token, `money` and the printed or JSON report are
  not modelled.
- `Costs.AggregateUsage`: `byModel` is a map. The insertion order of the JavaScript object's keys is
  not kept.
- `Costs.AggregateUsage`: a model key that names a member of `Object.prototype` (`constructor`,
  `toString`, `valueOf`, `hasOwnProperty`, `__proto__` and the like) is not modelled. With provider
  `openrouter`, `normalizeModelKey` returns such a model name unchanged (scripts/costs.mjs:212-218).
  `byModel` is a plain object (:253), so `||=` at :282 finds the inherited member instead of creating
  an entry, `m.tokens.input` at :304 throws a `TypeError`, and the script exits 1. The model gives
  that key an ordinary entry and returns a report.
- `Costs.ParseArgs`: `die` becomes a `Failure` with the usage text. `process.exit` is not modelled.
- `TriageScoring.RankLeIsTotalPreorder`, `HomeAssistant.AreaLeIsTotalPreorder`,
  `HomeAssistant.DomLeIsTotalPreorder` and `HomeAssistant.EntityLeIsTotalPreorder` model
  `localeCompare` as lexicographic order on code units. Locale collation is not modelled.
- `TriageScoring.SortCandidates`: `Array.prototype.sort` is stable, but the contract does not say so.
  It states sorted and a permutation, and leaves open the relative order of candidates that compare
  equal.
- `HomeAssistant.SortEntities`: the same as for `TriageScoring.SortCandidates`.
- `TriageScoring.NormShape`, `HomeAssistant.Enrich` (which trims the friendly name),
  `RefreshContext.RoomSwitch`, `RefreshContext.NiceSpec`, and the `Strings.Lower` and `Strings.Trim`
  they rest on: `toLowerCase` is modelled on the ASCII letters only. `trim` and `\s` are modelled on a fixed
  whitespace set: the ASCII spaces, NBSP, BOM, and the line and paragraph separators. Other Unicode
  spaces, such as U+3000 or U+2003, are kept, so a switch named "\u3000[Kitchen] Plug" is a room
  switch in JavaScript but not in the model.
- `TriageReply.JsNumberOfDigits`: `Number` is modelled for blank text, decimal digits and signed
  decimal digits. Any other text reads as `NaN`. A `NaN` cap (`--max`) keeps the whole list, as
  `slice(-NaN)` does. The model reads every numeral exactly. JavaScript rounds numerals above 2^53
  to the nearest double and reads numerals of 309 or more digits as `Infinity`, which
  `Number.isFinite` drops from a `move` reply (scripts/newsletter-triage.mjs:304). No list position
  and no cap the script acts on changes, because every such value lies beyond any list.
- Message texts:
  - The proposal text (`formatProposal`) and the session-state timestamp are not modelled. A
    `propose` run outputs its candidates and rules.
  - The Markdown lines of the inventories are not modelled. Modelled are the summary counts, the
    section order and contents, and `mdEscape`. Not modelled are the title, the timestamp, the
    source URL, and the rule that shows a name only when it differs from the entity id.
- `HaInventory.Run`: `process.argv` includes the program and script paths. `Arg` is given the whole
  list, as the source is. When `--out` has no value, creating the output directory throws. This is
  modelled as a failure.
- `TriageReply.Workspace.Run`: a rule file without `allow` or `block` objects, which makes
  `not`/`always` throw, is not modelled. Those lists are always present in the model. A missing
  `thresholds` object is modelled: it is `None`, and its uncaught `TypeError` is an exit code 1 with
  a fixed message on standard error.
- `scripts/daily-briefing.mjs`, `scripts/ha.mjs` and `scripts/github-reviews.mjs` are not part of this
  model.
