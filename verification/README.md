# Models of the repository's automation and protocol code

This project models, in Dafny, the parts of the repository whose behaviour is hardest to see from the code,
and proves what they promise over all inputs and all runs. `dafny verify dfyconfig.toml` checks it.

| part | modules | models |
|---|---|---|
| pull request cleanup | `PullRequests`, `CleanupActions`, `CleanupProtocol`, `CleanupSafety`, `ChangesRequestedSafety`, `ChangesRequestedPromise`, `ChangesRequestedSteady`, `ChangesRequestedRace`, `ChangesRequestedLeaver`, `CleanupRules`, `CleanupTiming`, `CleanupRun`, `CleanupDone`, `GithubRequests` | `script/github-pr-cleanup.py` and the request rules of `script/github_helpers.py` |
| TCF consent strings | `TcfBits`, `TcfBase64`, `TcfVector`, `TcfVendors`, `TcfRestrictions`, `TcfRestrictionCodec`, `TcfSegment`, `TcfSegmentRoundTrip`, `TcfEncodable`, `TcfSegmentLoops`, `TcfLayout`, `TcfCoreLayout`, `TcfParse`, `TcfCoreParse` | the codec inside `docs/theme/c15t@2.0.0-rc.3.js` |
| guild stale sweep | `GuildStale`, `GuildSafety`, `GuildRules`, `GuildRace` | `run_stale` of `script/github-guild-board.py` |
| duplicate triage | `SearchQuota`, `SearchRules`, `Texts`, `Magnets`, `MagnetsRoundTrip`, `MagnetsSheet`, `TriagePipeline` | `script/github-check-new-issue-for-duplicates.py`, `script/github-find-top-duplicated-bugs.py` |
| agent skills | `SkillNames`, `SkillWords`, `SkillFrontmatter` | `crates/agent_skills/agent_skills.rs` |
| ETW recording | `EtwRecording` | `crates/etw_tracing/etw_tracing.rs` |
| triage queue | `TriageWindow` | `script/github-triage-queue-board.py` |
| prompt content | `AcpContent` | `crates/acp_thread/src/content.rs` |
| release notes | `ReleaseNotes`, `ReleaseNotesText` | `script/flatpak/convert-release-notes.py` |

**How the parts are modelled.** The two bots are transition systems over one pull request or one issue. Reading
and every write are separate steps, so authors and staff can act in between, and a write can be lost, or land and
still report failure. Every cleanup sweep brings its own set of staff, since the script asks GitHub anew each time. The
bot's only memory is what it wrote, as in the scripts; the `posts`, `checkIns` and `clearings` of a state, and what
else `State` calls history, are recorded by the steps and never read. Loops and objects that are updated in place
are methods and classes (`GitHub`, `Vector`, `PurposeRestrictionVector`, `Editor`, `Recorder`, `Board`), each proved
equal to a function of the old state, and the theorems are about those functions. Time is whole seconds, days are
seconds divided by 86400, and bits are booleans. Every lemma turns automatic induction off; inductions are written out.

**What the theorems rest on.** Beside what every run keeps, each main operation is pinned by what it does for every
input, in terms of its raw input and with the numbers written out: who is warned, left alone and closed on which day
(`CleanupRules`, `GuildRules`) and that it is done (`CleanupDone`, `QuietIsCleared`), which bits stand where
(`TcfLayout`, `TcfCoreLayout`) and which strings decode to what (`TcfParse`, `TcfCoreParse`), what a verdict, a quota,
a word, a label or a line leads to (`TriagePipeline`, `SearchRules`, `SkillWords`, `MagnetsSheet`, `ReleaseNotesText`).

**What turned out not to hold as promised.** Each comes with a concrete case and with the exact condition.

- A closing for requested changes can come six days before the day named in the last notice: when the clock restarts
  between the reading and the acknowledgement of one sweep (`PromiseCanBeBroken`), or when a reviewer leaves the staff
  between two sweeps, so that an older request counts again (`LeaverBreaksPromise`). In every run, what a closing sweep
  had read lets it close before the named day exactly when that notice is a ping after an acknowledgement of the epoch
  and names a later day than the acknowledgement leads to (`ClosesEarlyIff`); the day the closing itself came on is before
  the named one only under such a ping (`EarlyOnlyAfterAck`), and then the acknowledgement's day is the first on which it
  can come (`AckDecides`). Runs without either race never close early (`CalmPromiseKeptIff`).
- Such a closing is meant to come more than twenty days after the clock's start, and does so without either race
  (`CalmClosesLate`); in the first run it comes after fifteen. `ClosesSoonIff` has the exact condition.
- The author can answer after the closing sweep has read and before its comment lands (`AnswerCanCross`). Without a ping
  after an acknowledgement, a closing comes on or after the named day and finds the notice unanswered when it lands
  exactly when no answer crosses it (`PromiseKeptIff`).
- A guild assignee who answers while the check-in is being posted can be cleared after 7 quiet days instead of 21
  (`ClearedAfterSevenDays`), and one who answers while the clearing sweep is at work after none (`ClearedOnReply`). The
  promise is kept exactly when the assignee did nothing from the start of the check-in's sweep until the clearing landed
  (`ClearingKeepsPromiseIff`).
- The vendor encoder fails on some sets within 16 bits: it picks ranges and then has 4096 of them to count in 12 bits
  (`TooManyIsolated` is one, `EncodeFailsIff` says exactly which sets).
- A core segment with a CMP id of 0 or 1 encodes and does not decode (`UnsetIdIsLost`; `CoreEncodesIff` says which models
  encode, and `CoreSurvivesIff` which come back).
- The quotas of the search channels exceed limits below 6 (`ReservedKeptIff`).
- A valid skill name with a double dash is not its own slug (`DoubleDashIsLost`, `OwnSlugIff`); text glued to the closing
  dashes of frontmatter at the end of a file undoes them (`LetterUndoesClosing`, `BodyIsFreeIff`).
- A save dialog that outlives its recording can save the next one (`DialogCanCross`), and between sessions that stays
  possible exactly while a dialog is open (`SavedByOwnDialogIff`).
- The markup of release notes can be unbalanced (`ItemInFence` is a body, `MarkupIff` says exactly for which bodies).

The documentation of `slugify_skill_name` says that only spaces become dashes and existing dashes are kept, which is what
the code does; its summary line speaks of inputs without alphanumeric characters where the code also accepts an ampersand
(`NoSlugIff`). The model follows the code.

## Model

| member | source | states |
|---|---|---|
| PullRequests.ClockStart | script/github-pr-cleanup.py:254-261 | a cleanup's clock is the latest of its start and all reopens |
| PullRequests.BotCommentedAt | script/github-pr-cleanup.py:264-273 | the latest time after the clock at which the bot itself posted the marker; absent exactly when it did not |
| PullRequests.AuthorCommentedAt | script/github-pr-cleanup.py:276-295 | the least time after which the author has neither commented (a CLA check request does not count) nor replied in a review |
| PullRequests.StaffChangeRequestAt | script/github-pr-cleanup.py:386-400 | for the staff of a sweep: the time of their latest review that approves, requests changes or was dismissed, if it requests changes; absent otherwise |
| CleanupActions.CommentStep | script/github-pr-cleanup.py:332-516 | a step that comments belongs to its cleanup, writes the closing comment only when it closes, and repeats no marker (but the acknowledgement) younger than the clock |
| CleanupActions.WarningFirst | script/github-pr-cleanup.py:332-516 | nothing but the warning is posted without a warning younger than the clock, and a closing not before the wait after it |
| CleanupActions.NoticeNamesDay | script/github-pr-cleanup.py:317-324 | every notice that names a day names the one its period ends on, counted from the sweep |
| CleanupActions.ChangesStep | script/github-pr-cleanup.py:403-456 | in terms of the notice in force (`CleanupRules.ChangesRule` says exactly when each step comes): an acknowledgement answers a comment later than the notice in force; a closing finds none and is not before that notice's day; both only without a push or review request since the change request |
| CleanupActions.SelfReviewStep | script/github-pr-cleanup.py:459-516 | a closing comes on or after the day of the ping, while the notice is in README.md at the head commit or the author has not commented since |
| CleanupRules.ClaRule | script/github-pr-cleanup.py:332-355 | over comments, timeline, commits and reviews, in seconds: exactly when the CLA cleanup retries the check (7 days unsigned since the clock's start and neither a counted comment nor a reply of the author since), when it closes a day after that, and when it leaves the pull request alone |
| CleanupRules.DraftRule | script/github-pr-cleanup.py:358-383 | the same for drafts: exactly when the ping, the closing and nothing come, from the last conversion, push and reopen |
| CleanupRules.NoRequestRule | script/github-pr-cleanup.py:386-412 | without a counted request for changes nothing is done |
| CleanupRules.ChangesRule | script/github-pr-cleanup.py:403-456 | with one: a ping comes exactly when none is younger than the clock and no counted comment or review reply of the author is younger than 14 days; an acknowledgement exactly on a comment later than the notice in force; a closing exactly when its day has come unanswered; nothing otherwise |
| CleanupRules.SelfReviewRule | script/github-pr-cleanup.py:459-516 | the same for the missing self-review: ping, closing and nothing, each exactly when |
| CleanupProtocol.ExecInv | script/github-pr-cleanup.py:519-556 | every reachable state keeps the invariant: each comment of the bot was justified by what its sweep had read (that sweeps do not overlap is taken from the workflow's concurrency group) |
| CleanupSafety.AtMostOncePerEpoch | script/github-pr-cleanup.py:332-516 | in every run, with writes lost or landing unnoticed, each marker but the acknowledgement is posted at most once per clock epoch |
| CleanupSafety.ClosingCommentIsLast | script/github-pr-cleanup.py:332-556 | in every run a cleanup that posted its closing comment posts nothing more in that epoch |
| CleanupSafety.AcknowledgedOncePerComment | script/github-pr-cleanup.py:439-456 | in every run two acknowledgements of an epoch have a comment of the author between them |
| CleanupSafety.WarnedFirst | script/github-pr-cleanup.py:332-516 | in every run a closing comment follows a warning of the same epoch by the full wait, or an acknowledgement |
| CleanupSafety.SelfReviewClosesOnPromisedDay | script/github-pr-cleanup.py:459-516 | in every run a "no self-review" closing comes on or after the day promised in the last notice |
| ChangesRequestedSafety.ClosesOnPromisedDayUnlessPingAfterAck | script/github-pr-cleanup.py:403-456 | in every run a closing keeps the last notice's day, and the author had been silent since when the sweep read, unless that notice is a ping after an acknowledgement of the same epoch; never after a push or review request it had read |
| ChangesRequestedSafety.CalmOnePingThenAcks | script/github-pr-cleanup.py:403-456 | when no restart falls inside a sweep and no change of staff makes another request count, an epoch has one ping and all acknowledgements come after it |
| ChangesRequestedSafety.CalmClosesOnPromisedDay | script/github-pr-cleanup.py:403-456 | in every such run a closing comes on or after the day in the last notice, which the author had not answered when the sweep read |
| ChangesRequestedRace.PromiseCanBeBroken | script/github-pr-cleanup.py:403-456 | a run in which the last notice promises day 37 and the pull request is closed on day 31, fifteen days after the clock's start |
| ChangesRequestedRace.AnswerCanCross | script/github-pr-cleanup.py:403-456 | a run without either race in which the author answers the last notice between the closing sweep's reading and its comment |
| ChangesRequestedLeaver.LeaverBreaksPromise | script/github-pr-cleanup.py:386-456 | a run in which nothing happens inside any sweep, a reviewer leaves the staff between two, and a closing comes six days before the named day |
| ChangesRequestedPromise.ClosesFromIff | script/github-pr-cleanup.py:326-456 | in every run what a closing sweep had read closes at every time from one on and at none before: when the request is 14 days old and the day of the notice counted from has come |
| ChangesRequestedPromise.EarlyOnlyAfterAck | script/github-pr-cleanup.py:403-456 | in every run a closing comes before the day in the last notice only if that notice is a ping after an acknowledgement of the same epoch |
| ChangesRequestedPromise.AckDecides | script/github-pr-cleanup.py:403-456 | under such a ping an earlier acknowledgement decides: the reading closes exactly from its day on (once the request is 14 days old), and the closing did not come before |
| ChangesRequestedPromise.ClosesEarlyIff | script/github-pr-cleanup.py:403-456 | in every run some sweep with the closing sweep's reading closes before the last notice's day exactly when that notice is a ping after an acknowledgement of the same epoch and names a later day than the first one the reading closes on |
| ChangesRequestedPromise.PromiseKeptIff | script/github-pr-cleanup.py:403-456 | in every run, unless the last notice is such a ping: no sweep with the same reading can close before the day it names; and the closing comes on or after that day and, when it lands, finds the notice unanswered by comment, reply, push or review request, exactly when no answer crosses it |
| ChangesRequestedPromise.CalmPromiseKeptIff | script/github-pr-cleanup.py:403-456 | the same for every closing of a run in which no restart falls inside a sweep and no change of staff makes another request count |
| ChangesRequestedSteady.SteadyClosesEarlyIff | script/github-pr-cleanup.py:403-456 | when changes of staff make no other request count and comments land within six days: some sweep with the same reading closes before the last notice's day exactly when that notice is a ping after an acknowledgement |
| ChangesRequestedSteady.SteadyPromiseKeptIff | script/github-pr-cleanup.py:403-456 | in those runs: no sweep with the same reading can close early and the notice is unanswered when the closing lands, exactly when it is no such ping and no answer crosses |
| ChangesRequestedSteady.CalmClosesLate | script/github-pr-cleanup.py:35-43 | when no restart falls inside a sweep and no change of staff makes another request count, a closing comes more than twenty days after its clock's start |
| ChangesRequestedSteady.OwnClosesLate | script/github-pr-cleanup.py:35-43 | in every run the same holds for a closing all of whose notices were posted under its own clock |
| ChangesRequestedSteady.ClosesSoonIff | script/github-pr-cleanup.py:35-43 | when changes of staff make no other request count and comments land within six days: what a closing sweep had read can close within twenty days of the clock's start exactly when the notice it counts from was posted under another clock, or is an acknowledgement whose day comes that soon |
| CleanupTiming.UntouchedIsClosed | script/github-pr-cleanup.py:35-43 | with sweeps at most a day apart and writes within a delay, an untouched pull request is closed within proved bounds |
| CleanupTiming.ClosingIntervals | script/github-pr-cleanup.py:35-43 | the intervals from the clock start: CLA [8, 10) days, draft [28, 30), changes requested (20, 23), no self-review (3, 6) |
| CleanupRun.GitHub.PostComment | script/github_helpers.py:78-86 | others may act first; at most this comment is added, to this pull request only; success means that it was, and a lost request adds nothing |
| CleanupRun.GitHub.Patch | script/github_helpers.py:78-86 | others may act first; nothing is commented, only this pull request may be closed, and success means that it is |
| CleanupRun.GitHub.StaffRequestAt | script/github-pr-cleanup.py:386-400 | the loop from the last review back asks for one membership after the other, each login once in a run, until one is staff, and finds the request that counts; a lookup that fails ends it |
| CleanupRun.TakeStep | script/github-pr-cleanup.py:519-533 | at most the step's comment and one closing are sent, the closing only when the comment succeeded; a closing step that succeeds leaves the pull request closed; a dry run sends nothing |
| CleanupRun.SweepOne | script/github-pr-cleanup.py:536-556 | the loop over the cleanups, with membership lookups, one full read on demand and writes, equals the function `Swept` |
| CleanupRun.Run | script/github-pr-cleanup.py:536-556 | the script reads all summaries first and then goes through pull requests and cleanups, as the function `RunOf` of what the server answers, membership lookups included, and of what anybody does between requests |
| CleanupRun.SweptRefines | script/github-pr-cleanup.py:536-556 | for one listed pull request: whatever others do between requests and whatever becomes of these, the loop over cleanups with its lookups and its full read on demand is a run of the protocol |
| CleanupRun.RunIsProtocolRun | script/github-pr-cleanup.py:536-556 | a whole run of the script, with others acting at every request and any request lost or landing unnoticed, is a run of the protocol for every pull request, so every theorem above holds of it |
| CleanupRun.ClosesSilentlyIff | script/github-pr-cleanup.py:332-516 | a cleanup closes without a comment exactly when it still applies and its closing comment stands |
| CleanupRun.AnnouncedClosingIsFinished | script/github-pr-cleanup.py:519-556 | a closing that was announced and then failed is finished by the next successful sweep, with no second closing comment, whatever others do meanwhile |
| CleanupDone.SweepDoesWhatIsDue | script/github-pr-cleanup.py:519-556 | a sweep whose requests succeed posts exactly the comments that the four cleanups ask for in their order, up to one that closes, and closes where one asks for that, whatever others do between its requests |
| CleanupDone.RunSweepsAll | script/github-pr-cleanup.py:536-556 | a run whose requests succeed completes and makes such a sweep of every pull request that is open and not exempt when its summary is read; what it posts stays |
| GithubRequests.Send | script/github_helpers.py:37-86 | writes are sent exactly once, reads at most four times and again exactly after a lost connection or a status of 429, 500, 502, 503 or 504; so a write takes effect at most once |
| TcfBits.IntRoundTrip | docs/theme/c15t@2.0.0-rc.3.js:1 | an integer encodes exactly when it fits its width, and decoding gives it back |
| TcfBits.BitsRoundTrip | docs/theme/c15t@2.0.0-rc.3.js:1 | encoding a decoded integer gives back its bits |
| TcfBase64.EncodeLoop | docs/theme/c15t@2.0.0-rc.3.js:1 | the loop in groups of six over the zero-padded bits equals the function `Encode` |
| TcfBase64.DecodeLoop | docs/theme/c15t@2.0.0-rc.3.js:1 | the check of the alphabet and the loop over characters equal `Decode`, errors included |
| TcfBase64.Base64RoundTrip | docs/theme/c15t@2.0.0-rc.3.js:1 | decoding gives back the bits followed by fewer than 24 zeros |
| TcfVector.Vector.Set | docs/theme/c15t@2.0.0-rc.3.js:1 | a positive id joins the set and keeps `maxId` the greatest; others are refused and change nothing |
| TcfVector.Vector.Unset | docs/theme/c15t@2.0.0-rc.3.js:1 | an id leaves the set and `maxId` is the greatest of the rest |
| TcfVector.FieldRoundTrip | docs/theme/c15t@2.0.0-rc.3.js:1 | a bit field gives back exactly the ids up to its width |
| TcfVendors.EncodeLoop | docs/theme/c15t@2.0.0-rc.3.js:1 | the one pass that builds bit field, ranges and running cost chooses and writes what the specification says, although it stops collecting ranges when they cost too much |
| TcfVendors.CheaperStops | docs/theme/c15t@2.0.0-rc.3.js:1 | once the ranges are too long they stay so: the list is complete whenever it is used |
| TcfVendors.RunsCoverAll | docs/theme/c15t@2.0.0-rc.3.js:1 | the ranges of a vector cover its ids and nothing else |
| TcfVendors.DecodeLoop | docs/theme/c15t@2.0.0-rc.3.js:1 | the decoding loops fill a vector with the ids, and set `bitLength` to the cursor, of the decoding function |
| TcfVendors.VendorRoundTrip | docs/theme/c15t@2.0.0-rc.3.js:1 | for every id set that encodes, in either form, decoding it followed by any bits gives back the set (so the same greatest id) and the encoded length |
| TcfVendors.EncodeFailsIff | docs/theme/c15t@2.0.0-rc.3.js:1 | encoding fails exactly on a greatest id of 65536 or more, or 4096 pairwise isolated ids ending with 65533, 65534 or 65535 |
| TcfVendors.TooManyIsolated | docs/theme/c15t@2.0.0-rc.3.js:1 | a set of 4096 ids within 16 bits that does not encode |
| TcfRestrictions.PurposeRestrictionVector.Add | docs/theme/c15t@2.0.0-rc.3.js:1 | adds the triple exactly when the vendor list allows it and the restriction is valid, throws exactly when it is allowed and not valid, and keeps every triple allowed |
| TcfRestrictions.PurposeRestrictionVector.Remove | docs/theme/c15t@2.0.0-rc.3.js:1 | an invalid restriction is refused with nothing changed; otherwise one vendor leaves one restriction, which goes with its last vendor |
| TcfRestrictions.PurposeRestrictionVector.SetGvl | docs/theme/c15t@2.0.0-rc.3.js:1 | only the first vendor list is taken; it keeps exactly the allowed triples |
| TcfRestrictions.AscendingUnique | docs/theme/c15t@2.0.0-rc.3.js:1 | the sorted vendors of a restriction are determined by the set |
| TcfRestrictionCodec.FindNextListed | docs/theme/c15t@2.0.0-rc.3.js:1 | the search loop finds the first listed id after a vendor, or reports none |
| TcfRestrictionCodec.EncodeRanges | docs/theme/c15t@2.0.0-rc.3.js:1 | the loop over the vendors of a restriction counts and writes the joined ranges; without a list it fails exactly on two vendors or more |
| TcfRestrictionCodec.RowKeepsVendors | docs/theme/c15t@2.0.0-rc.3.js:1 | the joined ranges cover all vendors of the restriction, and no other listed one |
| TcfRestrictionCodec.EncodeLoop | docs/theme/c15t@2.0.0-rc.3.js:1 | the encoder's loops over restrictions and vendors equal the encoding function, errors included |
| TcfRestrictionCodec.DecodeLoop | docs/theme/c15t@2.0.0-rc.3.js:1 | the decoder's three nested loops fill the table of the decoding function and end at its cursor |
| TcfRestrictionCodec.RestrictionsRoundTrip | docs/theme/c15t@2.0.0-rc.3.js:1 | decoding encoded restrictions followed by any bits gives each restriction all its vendors and no other listed one, and ends where the encoding ends; without a list any vendor id may occur, 0 included |
| TcfRestrictionCodec.SettingTheListRestores | docs/theme/c15t@2.0.0-rc.3.js:1 | setting the vendor list on what was decoded leaves exactly the original triples |
| TcfEncodable.RestrictionsEncodeIff | docs/theme/c15t@2.0.0-rc.3.js:1 | restrictions encode exactly when there are fewer than 4096 of them and each has a purpose of 6 bits, a type of 2, vendors of 16, at most one vendor if no list is set, and fewer than 4096 joined ranges |
| TcfSegmentRoundTrip.FieldsReadBack | docs/theme/c15t@2.0.0-rc.3.js:1 | fields written one behind the other, fixed-width or self-delimiting, are read one behind the other |
| TcfSegmentRoundTrip.CoreRoundTrip | docs/theme/c15t@2.0.0-rc.3.js:1 | for every version 2 model that encodes: decoding succeeds exactly when the CMP id is greater than 1, and gives back every field (dates to 100 ms, two upper-case letters, vectors up to their width, restrictions up to unlisted vendors), whatever model it is decoded into |
| TcfSegmentRoundTrip.ExactModelComesBack | docs/theme/c15t@2.0.0-rc.3.js:1 | a model whose dates are multiples of 100 ms and whose values fit comes back unchanged but for restrictions on unlisted vendors |
| TcfEncodable.CoreEncodesIff | docs/theme/c15t@2.0.0-rc.3.js:1 | a model encodes exactly when it has version 2 and every field fits its encoder; `TcfCoreLayout.InRangeEncodesIff` has the bounds in numbers |
| TcfEncodable.CoreSurvivesIff | docs/theme/c15t@2.0.0-rc.3.js:1 | a model encodes, decodes and comes back exactly when moreover the CMP id is greater than 1 |
| TcfEncodable.UnsetIdIsLost | docs/theme/c15t@2.0.0-rc.3.js:1 | a model without a CMP id encodes, and what it encodes to does not decode |
| TcfSegmentLoops.EncodeSegment | docs/theme/c15t@2.0.0-rc.3.js:1 | the loop over the fields, with the vectors' own encoders, equals the encoding function, whose bits `TcfCoreLayout.CoreLayout` places one by one |
| TcfSegmentLoops.DecodeSegment | docs/theme/c15t@2.0.0-rc.3.js:1 | the loop that moves the cursor and fills the model equals the decoding function |
| TcfLayout.LettersAre | docs/theme/c15t@2.0.0-rc.3.js:1 | every letter of the encoding is, by its character code, that of six bits with the most significant one first, and four letters stand for each 24 bits begun |
| TcfLayout.VendorLayout | docs/theme/c15t@2.0.0-rc.3.js:1 | the vendor section is the greatest id in 16 bits, the form in one, and a bit for each id or, exactly when the greatest id is above 45 and 29 + 16 or 33 bits a run are fewer, the number of maximal runs in 12 bits and the runs in ascending order |
| TcfCoreLayout.RangesAreJoined | docs/theme/c15t@2.0.0-rc.3.js:1 | the ranges of a restriction start and end at its vendors, each reaches to the first at which a listed id lies before the next vendor, and every vendor is in one |
| TcfCoreLayout.TableLayout | docs/theme/c15t@2.0.0-rc.3.js:1 | the restrictions stand one behind the other in the order of the table: purpose in 6 bits, type in 2, number of ranges in 12, ranges |
| TcfCoreLayout.InRangeEncodesIff | docs/theme/c15t@2.0.0-rc.3.js:1 | a model has a core segment exactly when its version is 2, dates are below 2^36 tenths of a second, CMP id and version and list version below 4096, consent screen and policy version below 64, the codes two ASCII letters, and vendors and restrictions as above |
| TcfCoreLayout.CoreLayout | docs/theme/c15t@2.0.0-rc.3.js:1 | such a model becomes bits in which each field stands at its place (version at 0, created at 6, last updated at 42, CMP id at 78, CMP version at 90, consent screen at 102, and so on to the vendors at 213), and the letters that spell them |
| TcfParse.LettersDecodeIff | docs/theme/c15t@2.0.0-rc.3.js:1 | a string decodes exactly when it is of the alphabet and not empty, each letter to its six bits |
| TcfParse.VendorsDecodeIff | docs/theme/c15t@2.0.0-rc.3.js:1 | a vendor section from any encoder decodes exactly when its field, or all its entries, are there and none starts with 0; the result is what is marked or covered |
| TcfParse.RestrictionsDecodeIff | docs/theme/c15t@2.0.0-rc.3.js:1 | a restrictions section decodes exactly when all its records are there, no range runs backwards, and a record with vendors has a purpose above 0 and a type up to 2; the table holds exactly what they restrict |
| TcfCoreParse.CoreDecodesIff | docs/theme/c15t@2.0.0-rc.3.js:1 | a string decodes to a core segment exactly when its bits have version 2, a CMP id above 1, a country code up to `z`, room for the fixed fields, and three sections that decode; the model is what stands at the fields' places, whatever it held before |
| GuildStale.LatestAssignment | script/github-guild-board.py:126-140 | the greatest time of an assignment to the login; absent exactly when there is none |
| GuildStale.Scan | script/github-guild-board.py:522-532 | one pass finds the latest check-in and the assignee's last activity |
| GuildSafety.ReachableInv | script/github-guild-board.py:487-573 | every reachable state keeps the invariant tying check-ins and clearings to what their sweeps had read |
| GuildSafety.OneCheckInPerQuietPeriod | script/github-guild-board.py:533-548 | check-ins are not too many (`GuildRules.SweepRule` says that they are not too few): in every run, between two check-ins the assignee of the second was active, and it came at least 14 days after that |
| GuildSafety.ClearingFollowsCheckIn | script/github-guild-board.py:550-556 | a clearing follows, by at least 7 days, a check-in that is not before the assignment or any activity read: one of an earlier assignment never causes it |
| GuildSafety.ClearingKeepsPromiseIff | script/github-guild-board.py:533-556 | in every run whose check-in sweeps take less than 14 days: a clearing keeps its promise (on the issue's own log when it lands, 14 quiet days before one check-in to the assignee and 7 after it) exactly when the assignee did nothing from the start of that check-in's sweep until the clearing landed |
| GuildSafety.StirsInARace | script/github-guild-board.py:518-573 | whatever the assignee did after the check-in and the clearing sweep had read is stamped in the second of the check-in: all else crosses the check-in or the clearing |
| GuildRules.SweepRule | script/github-guild-board.py:522-556 | over the logs that were read: a sweep checks in exactly when no check-in is at or after the assignee's last assignment or comment and 14 full days have passed since that, and clears exactly when one is and 7 full days have passed since the latest |
| GuildRules.WriteRule | script/github-guild-board.py:533-556 | what lands is exactly one check-in comment of the bot, or the removal of the assignee that was read |
| GuildRules.QuietIsCleared | script/github-guild-board.py:518-573 | under daily sweeps, whose writes land within a delay, a quiet assignee gets exactly one check-in, 14 to 15 days after they last did something, and is off the issue 7 to 8 days after it |
| GuildRace.ClearedAfterSevenDays | script/github-guild-board.py:518-573 | a run in which a reply crosses the check-in and the assignment is cleared 7 days later |
| GuildRace.ClearedOnReply | script/github-guild-board.py:518-573 | a run in which the reply comes while the clearing sweep is at work, and the assignment is cleared after no quiet day |
| SearchQuota.SelectLoop | script/github-check-new-issue-for-duplicates.py:568-593 | the nested loops with their set of keys equal the selection function |
| SearchQuota.QuotasFitIff | script/github-check-new-issue-for-duplicates.py:572-578 | the quotas sum to at most the limit exactly for limits from 6 on |
| SearchQuota.ReservedKeptIff | script/github-check-new-issue-for-duplicates.py:568-593 | the first candidates of every channel, up to its quota, are selected for all inputs exactly for limits from 6 on |
| SearchQuota.SelectSize | script/github-check-new-issue-for-duplicates.py:580-593 | no key twice, and exactly as many members as the limit and the distinct keys allow, for every limit |
| SearchQuota.LeftOutRanksLast | script/github-check-new-issue-for-duplicates.py:590-593 | whoever is left out ranks behind everyone the last pass added |
| SearchRules.SelectedIff | script/github-check-new-issue-for-duplicates.py:568-593 | for limits from 6 on, a candidate is selected exactly when its rank in one of its channels has a slot (2 or a third of the limit for the semantic query, 1 or a tenth, sixth, fifth or sixth for the others), or the reserved ones and those ranked before it leave room |
| Magnets.SortSorts | script/github-find-top-duplicated-bugs.py:148-178 | the descending sort orders, and neither loses nor adds |
| Magnets.ExtractLoop | script/github-find-top-duplicated-bugs.py:79-100 | the loop over duplicate events with its set, and the list of areas, equal the extraction function |
| Magnets.BuildLines | script/github-find-top-duplicated-bugs.py:148-178 | grouping and totalling by area in maps prints the lines of the specification |
| Magnets.ParseLoop | script/github-check-new-issue-for-duplicates.py:438-475 | the parser's loop over lines equals the parsing function |
| MagnetsRoundTrip.IssueLineParsed | script/github-check-new-issue-for-duplicates.py:455-460 | every printed issue line parses back to its count, despite the padding, and its number |
| MagnetsRoundTrip.NoteRepresents | script/github-check-new-issue-for-duplicates.py:461-470 | noting one more entry keeps one magnet for each number, with all its areas |
| MagnetsRoundTrip.MagnetsRecovered | script/github-find-top-duplicated-bugs.py:148-178 | parsing the printed body recovers every magnet exactly once, with its count and its set of areas (none if unlabeled), sorted by count |
| MagnetsRoundTrip.IssuesRecovered | script/github-find-top-duplicated-bugs.py:79-178 | from the fetched issues on: every issue with two closed duplicates or more comes back as exactly one magnet with its number, count and areas, nothing else does, sorted by count |
| MagnetsSheet.SheetOrder | script/github-find-top-duplicated-bugs.py:148-178 | the issue is the introduction and one section for each area, those with the most duplicates in all first, each with exactly the issues of the area, the most duplicated first |
| MagnetsSheet.AreaOfLabel | script/github-find-top-duplicated-bugs.py:93 | a label that is "area:" and a name is the area of that name |
| TriagePipeline.ResolvedAre | script/github-check-new-issue-for-duplicates.py:998-1014 | exactly the first valid proposal of each candidate is resolved, in the order of the proposals |
| TriagePipeline.AnswerIsExact | script/github-check-new-issue-for-duplicates.py:996-1035 | a candidate is likely, possible or related exactly when it is validly proposed as that, and possible only when it is not likely |
| TriagePipeline.ResolveIsExact | script/github-check-new-issue-for-duplicates.py:998-1014 | whatever was proposed, exactly the valid proposals are resolved, each candidate once |
| TriagePipeline.ResolveLoop | script/github-check-new-issue-for-duplicates.py:998-1014 | the loop with its set of seen keys equals the specification |
| TriagePipeline.CritiqueLoop | script/github-check-new-issue-for-duplicates.py:1085-1145 | the critique loop fails exactly when a match has no explanation; else, for distinct candidates, a likely match is kept as likely exactly on keep and as possible exactly on downgrade, a possible one as possible exactly on keep and never as likely |
| TriagePipeline.CritiqueKeeps | script/github-check-new-issue-for-duplicates.py:1085-1145 | which matches are kept in which list, by their positions and in their order, without any assumption on the candidates |
| TriagePipeline.IncludedAreUseful | script/github-check-new-issue-for-duplicates.py:1220-1272 | of the related closed matches exactly the useful ones stay, in their order |
| TriagePipeline.CritiqueOnlyDemotes | script/github-check-new-issue-for-duplicates.py:1130-1145 | critique never adds to the likely matches, and keeps no match twice |
| TriagePipeline.ReportIsConsistent | script/github-check-new-issue-for-duplicates.py:996-1035 | whatever the model answers and judges: no candidate in two lists or twice, likely and possible are open, open issues have a root cause, related ones are closed |
| SkillNames.Slugify | crates/agent_skills/agent_skills.rs:447-487 | the loop over characters with its buffer and flag equals: the words joined by single dashes, cut to 64 and trimmed |
| SkillWords.AmpersandLaw | crates/agent_skills/agent_skills.rs:447-452 | an ampersand gives the word "and" between the words of what is before and behind it |
| SkillWords.SeparatorLaw | crates/agent_skills/agent_skills.rs:454-470 | a space or hyphen separates the words of what is before and behind it |
| SkillWords.DropLaw | crates/agent_skills/agent_skills.rs:454-470 | any other character but ASCII letters and digits goes without a trace |
| SkillWords.RunLaw | crates/agent_skills/agent_skills.rs:454-470 | a run of ASCII letters and digits is one word, in lower case by its character codes |
| SkillWords.CutLaw | crates/agent_skills/agent_skills.rs:476-487 | the slug is the words joined by dashes, cut to 64 characters, or to 63 where the last of them is a dash |
| SkillNames.BufferIsWords | crates/agent_skills/agent_skills.rs:454-478 | after any prefix the buffer holds its words joined by single dashes, and a pending dash |
| SkillNames.SlugIsValid | crates/agent_skills/agent_skills.rs:447-487 | every slug passes validation and has no double dash |
| SkillNames.NoSlugIff | crates/agent_skills/agent_skills.rs:486 | there is no slug exactly when the text has neither an ASCII letter or digit nor an ampersand |
| SkillNames.OwnSlugIff | crates/agent_skills/agent_skills.rs:505-524 | a valid name is its own slug exactly when it has no double dash |
| SkillNames.DoubleDashIsLost | crates/agent_skills/agent_skills.rs:447-487 | "a--b" is a valid name and not its own slug |
| SkillNames.SlugTwice | crates/agent_skills/agent_skills.rs:447-487 | slugging a slug changes nothing |
| SkillNames.Validate | crates/agent_skills/agent_skills.rs:505-524 | the checks together accept exactly the valid names |
| SkillFrontmatter.Scan | crates/agent_skills/agent_skills.rs:360-386 | the loop over the characters collects the candidates of the specification |
| SkillFrontmatter.ScanIsExact | crates/agent_skills/agent_skills.rs:360-386 | exactly the ends of the lines that are three dashes alone after a line feed, in increasing order |
| SkillFrontmatter.CandidateIff | crates/agent_skills/agent_skills.rs:360-386 | a candidate ends a line feed and three dashes, with the text, a line feed, or a carriage return and line feed behind them, and nothing else does |
| SkillFrontmatter.ExtractLoop | crates/agent_skills/agent_skills.rs:344-414 | the loop over candidates equals the extraction function |
| SkillFrontmatter.SplitsAtCloser | crates/agent_skills/agent_skills.rs:392-414 | extraction splits at the first candidate the YAML parser accepts, and fails exactly without dashes at the start or without such a candidate |
| SkillFrontmatter.BodyIsFreeIff | crates/agent_skills/agent_skills.rs:375-388 | the body can be replaced by any text, with the same metadata, exactly when the closing line has a line ending |
| SkillFrontmatter.LetterUndoesClosing | crates/agent_skills/agent_skills.rs:375-388 | a file of two lines of dashes has metadata and an empty body; with a letter behind them it has none |
| EtwRecording.Editor.SaveRecording | crates/etw_tracing/etw_tracing.rs:148-170 | keeps the invariant; sends at most one command, saving to the chosen path, and only in a session that is choosing; leaves dialogs alone, and no session keeps choosing |
| EtwRecording.Editor.CancelRecording | crates/etw_tracing/etw_tracing.rs:180-200 | keeps the invariant; sends at most one command, a cancel, and none in a session that is stopping; no session keeps choosing |
| EtwRecording.AtMostOneCommand | crates/etw_tracing/etw_tracing.rs:114-200 | in every run at most one command is sent in a session, it is stopping exactly when one was, and choosing never lacks its dialog |
| EtwRecording.AfterCancelNothing | crates/etw_tracing/etw_tracing.rs:180-200 | after a sent cancel nothing is sent until the session ends, whatever dialogs answer |
| EtwRecording.SavedByOwnDialog | crates/etw_tracing/etw_tracing.rs:134-146 | if no session ends under an open dialog, every session is saved by its own dialog |
| EtwRecording.SavedByOwnDialogIff | crates/etw_tracing/etw_tracing.rs:134-170 | from any state between sessions, every continuation in which no session ends under an open dialog saves sessions by their own dialogs exactly when no dialog is open at the start |
| EtwRecording.DialogCanCross | crates/etw_tracing/etw_tracing.rs:134-170 | a run in which the dialog of an ended session saves the next one |
| EtwRecording.RecordTrace | crates/etw_tracing/etw_tracing.rs:472-531 | the child under its guard cancels a leftover directly before its one Start, saves exactly the path it is told to save, cancels what has started and is not saved, and succeeds exactly when a command arrives and its call works |
| EtwRecording.StartedIsReleased | crates/etw_tracing/etw_tracing.rs:487-531 | every run that gets past Start ends with Save or Cancel; it saves exactly the path it was told, once, and does not cancel what was saved |
| EtwRecording.SavesWhatItIsTold | crates/etw_tracing/etw_tracing.rs:472-531 | a path is saved exactly when the run is told to; a run that succeeds in that ends with it and cancels nothing, one that succeeds in cancelling cancels once, any other run that has started ends with a cancelling |
| TriageWindow.WindowsOfWeek | script/github-triage-queue-board.py:43-56 | the window of each day of a week, counted from its Thursday |
| TriageWindow.WindowAdvances | script/github-triage-queue-board.py:43-56 | on every date the window is non-empty, its ends never move back, and no day is skipped from one date to the next |
| TriageWindow.EligibleRun | script/github-triage-queue-board.py:43-56 | the dates on which an issue is eligible are one unbroken run, given in closed form |
| TriageWindow.Board.Sync | script/github-triage-queue-board.py:131-150 | after a sync the board holds exactly the eligible issues; what was added and removed is the difference |
| TriageWindow.JoinsAndLeavesOnce | script/github-triage-queue-board.py:131-150 | under daily syncs an issue that stays open joins exactly once and leaves exactly once |
| AcpContent.CanConvertIff | crates/acp_thread/src/content.rs:147-176 | the test holds exactly when the conversion to version 1 succeeds |
| AcpContent.ValidateIff | crates/acp_thread/src/content.rs:4-21 | a prompt is valid exactly when all of it converts |
| AcpContent.To1Keeps | crates/acp_thread/src/content.rs:80-145 | what arrives in version 1 has the same kind and, field by field, the same content and annotations; a link had no icons and keeps a size below 2^63 |
| AcpContent.From1Keeps | crates/acp_thread/src/content.rs:23-77 | the same from version 1; a link has no icons and keeps a size that is not negative |
| AcpContent.From1Iff | crates/acp_thread/src/content.rs:23-77 | converting from version 1 fails exactly on unknown blocks, resources and roles |
| AcpContent.Block2RoundTrip | crates/acp_thread/src/content.rs:80-145 | to version 1 and back is the identity but for an empty icon list and sizes above the signed range |
| AcpContent.Block1RoundTrip | crates/acp_thread/src/content.rs:23-77 | to version 2 and back always succeeds and is the identity but for negative sizes |
| AcpContent.UnchangedIff | crates/acp_thread/src/content.rs:80-145 | a block comes back unchanged exactly when it has no icon list and no such size |
| ReleaseNotes.ConvertBody | script/flatpak/convert-release-notes.py:18-54 | the loop over lines with its two flags writes the string of the specification, code spans replaced in it |
| ReleaseNotes.EscapedReadsBack | script/flatpak/convert-release-notes.py:9-15 | unescaping an escaped line gives back the line |
| ReleaseNotesText.SpansReadBack | script/flatpak/convert-release-notes.py:30 | the `code` tags stand for backticks of the line, and all else is as it was |
| ReleaseNotesText.TaggedIff | script/flatpak/convert-release-notes.py:30 | a line has a `code` tag exactly when it has two lone backticks with something between them, no other backtick and no line feed |
| ReleaseNotesText.KeptLine | script/flatpak/convert-release-notes.py:9-28 | a line is kept, escaped and with its code spans, unless it is empty (outside a fence: blank) or dropped; it is in a fence behind an odd number of fence lines |
| ReleaseNotesText.NothingLost | script/flatpak/convert-release-notes.py:18-54 | the description shows exactly the visible characters of the kept lines, in their order, but for the bullets of items |
| ReleaseNotes.SpansClosed | script/flatpak/convert-release-notes.py:30 | replacing code spans in an escaped line adds `code` tags that close one another and no other tag |
| ReleaseNotes.ReadWritten | script/flatpak/convert-release-notes.py:18-54 | read back as a file, what was written splits into exactly the characters and tags it was made of |
| ReleaseNotes.PlainWellFormedIff | script/flatpak/convert-release-notes.py:30-54 | if no kept line is both item and fence line, the lists balance, never nest, hold all items and no paragraph, exactly when no item is inside an open fence |
| ReleaseNotes.WellFormedIff | script/flatpak/convert-release-notes.py:30-54 | the same for every body, with the exact condition on lines that are both |
| ReleaseNotes.MarkupIff | script/flatpak/convert-release-notes.py:9-54 | for every body: every `<` and `>` of the file belongs to a tag the converter wrote, and all tags close and stand where they may (lists and paragraphs at the top, items in lists, code in text) exactly when the kept lines are fine |
| ReleaseNotes.ItemInFence | script/flatpak/convert-release-notes.py:18-54 | a body whose markup is not well formed: an item inside an open code fence |

## Left out

- Pull request cleanup: rendering notices and dates as text; deleting or editing comments and fetch limits (histories are assumed to be complete); the printed log and counters of a run; deleted author accounts.
- ClosesOnPromisedDayUnlessPingAfterAck: one direction, on what the sweep had read; ChangesRequestedPromise has the exact conditions, up to the landing of the closing.
- CalmClosesOnPromisedDay: speaks of what the sweep had read; CalmPromiseKeptIff is exact up to the landing.
- CalmOnePingThenAcks: takes runs in which no change of staff makes another request count; PromiseCanBeBroken and LeaverBreaksPromise show what happens otherwise.
- SteadyClosesEarlyIff, SteadyPromiseKeptIff, ClosesSoonIff: take comments that land within six days of their sweep's start (the workflow ends a sweep after 15 minutes) and steady staff; ClosesEarlyIff and PromiseKeptIff do without.
- CleanupTiming.ClosingIntervals: takes one cleanup alone, writes stamped when the sweep starts, and staff to whom the same request counts; UntouchedIsClosed has the bounds for any delay.
- CleanupRun.Run: all answers of a run to the same membership question are one, as in its cache; the pages of the list of pull requests are one request for each.
- CleanupDone.SweepDoesWhatIsDue, RunSweepsAll: take runs all of whose requests succeed; what others run into is in RunIsProtocolRun and AnnouncedClosingIsFinished.
- Guild sweep: issues with several guild assignees at once, of which the sweep follows the first; deleting or editing comments; moving the board column and the Slack messages; holds, open pull requests and errors appear as sweeps that stop at any point.
- GuildSafety.ClearingKeepsPromiseIff: takes check-in sweeps of less than 14 days; the workflow ends them after 15 minutes.
- QuietIsCleared: takes a stretch in which nothing but the sweeps happens, with no hold label, open pull request or error; whatever else happens is in SweepRule and WriteRule.
- GuildStale.Scan: the sweep accepts its marker from any commenter; in the model only the bot's comments carry it.
- TCF codec: version 1 strings, the other segments, the semantic pre-encoder, loading of vendor lists, the set and map overloads of the vector, `restrictPurposeToLegalBasis`, and upper-casing of non-ASCII letters; the model's getters for list version and policy version are taken as values.
- RestrictionsRoundTrip: takes positive vendor ids when a vendor list is set, as vendor lists have; the encoder uses 0 for "no open range".
- CoreDecodesIff: says which strings decode and to what, not which error the others end in.
- TcfSegmentLoops.EncodeSegment: builds the vectors and the restriction table from the model's values, so sharing of those objects is not modelled.
- Duplicate triage: the searches, ranking, area filtering and prompts; the language model is arbitrary proposals and verdicts; `int` of text with underscores or non-ASCII digits.
- SearchRules.SelectedIff: takes limits from 6 on, for which the quotas fit; SelectSize and LeftOutRanksLast hold for every limit. The order of the selected candidates is that of `Select`.
- MagnetsSheet.AreaOfLabel: takes names in which "area:" does not occur again; the script removes it everywhere.
- MagnetsRoundTrip.MagnetsRecovered: compares areas as sets, and takes issue links of this repository; IssuesRecovered takes area labels that name trimmed single lines.
- SkillFrontmatter: positions count characters, not bytes, which changes no split because line feeds, carriage returns and dashes are single bytes; the YAML parser is an arbitrary function, and only the text of the last error is dropped.
- Agent skills: descriptions, share links and the file system.
- ETW recording: the Windows calls themselves succeed or fail arbitrarily; launching, notifications and the socket's framing.
- Triage queue: closed and reopened issues, the search page limit, and daylight saving inside a day.
- Prompt content: the other converters of the protocol, which copy field by field; serialization.
- ReleaseNotes: the regular expressions that shorten issue links and pick dropped lines are arbitrary functions, so the theorems hold for all of them; splitting the body into lines; fetching and inserting the release entry.
