# A verified model of the gateway's self-contained algorithms

The gateway routes requests to many upstream LLM channels. Around that sits machinery that does not depend on
HTTP, SQL or a vendor: a worker pool that tests channels, the bookkeeping of multi-key channels, the
reconciliation of model lists with an upstream, price comparison and import, a rate limiter, an audio parser,
request-body storage, catalogue synchronisation and quota rounding. This project models that machinery in Dafny and
proves what it is relied on for. `dafny verify dfyconfig.toml` checks everything.

| file | models |
|---|---|
| `ChannelTestPool.dfy` | the bounded worker pool of one channel-test cycle, as a step relation over all interleavings |
| `UpstreamModels.dfy`, `Names.dfy`, `StoredNames.dfy` | model-name algebra, what a stored name list reads back as, and the detect / auto-sync / apply / ignore machine of a channel |
| `KeysetScan.dfy` | the keyset-paged scan over the enabled channels |
| `MultiKey.dfy`, `MultiKeyChannel.dfy` | the key text, the three index-keyed maps and every operation on a multi-key channel, on values and on the object |
| `MultiKeyEffects.dfy` | what each operation does to the keys and their marks, and exactly when that is what it is for |
| `MultiKeyView.dfy`, `MultiKeyExamples.dfy` | what the status view of such a channel shows, against a plain list of records, over runs and at literal inputs |
| `Prices.dfy`, `RatioDiff.dfy` | the price comparison across channels, with pruning |
| `ModelsDev.dfy` | the selection and conversion of models.dev prices |
| `RateLimiter.dfy` | the in-memory sliding-window limiter and its background sweep |
| `OggWalker.dfy` | the Ogg page walk behind the duration of Opus files |
| `BodyStorage.dfy`, `CacheAccounting.dfy` | request bodies in memory or in a cache file, and the counters that admit them |
| `ModelSync.dfy` | preview and synchronisation of model records with the official catalogue |
| `EnrichModels.dfy` | the batched enrichment of a page of model records |
| `QuotaMath.dfy` | quota rounding and saturation, and the charge of a channel test |
| `GoStrings.dfy`, `Sequences.dfy`, `Wrappers.dfy` | the Go string functions, the list operations and the types the models share |

Concurrent code is a state machine whose runs are all interleavings of its steps. Objects that change in place are
classes whose methods are proved against functions on values; the theorems are about those functions. Floating-point
numbers are reals, with NaN and the infinities added where the quota conversion tests for them. Clocks, fetched data,
database answers and failures are parameters.

## Where the code does less than it promises

Each of these is a proved statement, with its exact condition and, where one is named, a lemma at literal inputs; none
is a modelling shortcut.

- The stored pending lists agree with a fresh detection after an apply if and only if the apply is harmless
  (`UpstreamModels.ApplyKeepsFresh`, for every selection): each open upstream name is afterwards local or hidden
  exactly if it was picked or hidden before, and nothing becomes local that is unknown upstream. Three things break it. A
  selected name with a comma comes apart in storage and is pending again at once (`CommaNameReturns`, `CommaExample`);
  an ignored name that starts with "regex:" becomes a pattern and hides more than itself (`PatternNameHidesMore`,
  `PatternExample`); an added name that equals a stored ignore pattern drops that rule and unhides what it matched.
  Without commas the new rules decide, which covers both pattern cases (`RulesDecide`); without picked patterns the
  commas do (`CommasDecide`); over runs the condition is that of every single event (`RunsStayFresh`).
- Keys are stored joined by newlines, and survive that if and only if the joined text is taken for a JSON array that
  lists the same keys, or no key holds a newline and neither the first nor the last is empty
  (`MultiKey.ReadsBackExactly`, for any keys). Deletions and appends are the list operations they should be under
  exactly that condition on the keys they leave (`MultiKeyEffects.ActsExactly`, `MultiKeyEffects.AppendsExactly`).
  Blank keys are reachable: creation trims a line after testing it for emptiness (controller/channel.go:646-653), and
  the "replace" mode stores any text. With the keys "a", "" and "b", deleting the first leaves "b" alone
  (`MultiKeyExamples.BlankKeyIsLost`). A JSON array whose elements span several lines fails in
  the same way, since such a key holds a newline.
- `delete_disabled_keys` on a channel whose keys are all auto-disabled reports them as deleted, but an empty key text
  is not stored: all keys stay, and all are enabled again. It is the filter it promises to be if and only if there is
  nothing to delete, or something is left and reads back (`MultiKeyView.DeleteDisabledAgrees`).
- An append to a channel whose key text starts with a bracket without being a JSON array sees none of its keys
  (`MultiKey.AppendSeesExactly`); they are lost unless the input repeats them in front (`MultiKeyEffects.AppendsExactly`).
- The disable time and reason of a key can stay behind and show again when a key in that place is next disabled by
  hand: after a relay re-enables the key (`MultiKeyExamples.ReenablingLeavesTrace`), and after the list gets shorter by
  being replaced (`MultiKeyExamples.ShorteningLeavesTrace`) or by keys that do not read back, since storing drops only
  the statuses beyond the new count. Nothing else leaves them behind (`MultiKeyView.LeftoversComeFrom`).
  `MultiKeyView.ViewAgrees` gives the exact condition for one operation, `MultiKeyView.RunsAgree` for whole runs.
- The two body storages answer alike except for a read with an empty buffer at the end of the data, which is an end of
  file in memory and not on disk (`BodyStorage.StoragesAgree`, an if and only if over all sequences of operations).
- The limiter lets in at most as many requests as asked for within the window, on every run, if and only if the window
  is empty, or the limit is at least 1 and the expiration is at least the window less one second
  (`RateLimiter.LimitRespectedExactly`, on the requests it lets in; without a positive expiration nothing is swept,
  common/rate-limit.go:20-22, and the second condition falls away). Both can be missed. The first request of an unknown
  key is admitted without looking at the limit (common/rate-limit.go:64-69), so the limit 0, which
  GLOBAL_API_RATE_LIMIT=0 configures (common/init.go:127), acts like 1 (`RateLimiter.ZeroLimitAdmits`). The shared limiter
  expires after 20 minutes (common/constants.go:223, middleware/rate-limit.go:154), while windows are configured freely
  (common/init.go:128, 136): a longer one is forgotten by a sweep (`RateLimiter.ShortExpirationForgets`). A negative
  limit panics in `make` (common/rate-limit.go:65) and is outside the model.
- Sweeps change no answer on any run if and only if the expiration covers every window in that sense
  (`RateLimiter.SweepsHarmlessExactly`), which is weaker than what the comment at common/constants.go:197 asks for; a key
  whose window is covered is answered rightly whatever the other windows are (`RateLimiter.AnswersAgree`).
- A models.dev input price below one millionth of a dollar per million tokens rounds to the ratio 0, so the model is
  imported as free (`ModelsDev.FreeExactly`). That the selected price is the cheapest up to 1e-9 rests on visiting
  the providers in name order; in another order the tie-break by name drifts (`ModelsDev.UnorderedDrifts`).
- The price comparison can keep an item that has no value to take over. `RatioDiff.ItemsExactly` says for any prices
  when: the local price exists and something offered differs from it, no channel offers a real other price, and a
  channel with a real difference elsewhere has none here. `RatioDiff.NullSurvives` is such an input; when no channel
  offers an explicit null (or the word "same") it never happens (`RatioDiff.OrdinaryItems`).
- A model record created by a synchronisation is stored with `sync_official` = 0, because the insert writes back the
  zero the run never set (model/model_meta.go:47-65): later previews and overwrites skip it
  (`ModelSync.CreatedExactly`).

## Model

| member | source | states |
|---|---|---|
| ChannelTestPool.NormalizeConcurrency | setting/operation_setting/monitor_setting.go:65-73 | the configured worker count, 1 for anything below and 32 for anything above |
| ChannelTestPool.Safety | controller/channel-test.go:961-1049 | in every interleaving: no channel is run twice, nil and manually disabled ones never, no two workers hold the same channel, at most the configured number of runs is in flight, reports are 0, 1, 2, …, and nobody can send on the closed results channel |
| ChannelTestPool.SummaryIsWhatArrived | controller/channel-test.go:1035-1049 | at any moment, cancelled or not, the summary is the field-wise sum over exactly the results that arrived, each once |
| ChannelTestPool.SummaryAddsUp | controller/channel-test.go:1035-1049 | each of the five figures of the summary is that figure of the delivered results added up over the channels that are neither nil nor manually disabled |
| ChannelTestPool.Completion | controller/channel-test.go:961-1049 | a cycle that ends uncancelled ran every eligible channel exactly once, reported 0 … total, and returned what testing one after the other returns |
| ChannelTestPool.NothingAfterCancel | controller/channel-test.go:979-1048 | after a cancellation, in every interleaving, no run begins, nothing is reported, and only the runs already in flight are left |
| ChannelTestPool.CancelledFromTheStart | controller/channel-test.go:979-1048 | a cycle that starts cancelled runs nothing, counts nothing, and reports at most 0 |
| ChannelTestPool.PausesExactly | controller/channel-test.go:1003-1011 | with a request interval a worker pauses after each result before it takes a channel; without one it never pauses |
| ChannelTestPool.Progress | controller/channel-test.go:979-1048 | no deadlock: in every reachable unfinished state a step other than a cancellation is possible |
| ChannelTestPool.Termination | controller/channel-test.go:979-1048 | every interleaving is finite, with an explicit bound, wherever the cancellation falls |
| ChannelTestPool.MaximalRunsEnd | controller/channel-test.go:979-1048 | a run that cannot continue has closed both channels, and reducer, producer and all workers have returned |
| ChannelTestPool.StepBurnsFuel | controller/channel-test.go:979-1048 | each hand-off, run, delivery, wait, exit and close uses up part of a fixed measure |
| ChannelTestPool.InFlightBound | controller/channel-test.go:975-1016 | the channels being tested are at most as many as the workers |
| ChannelTestPool.PoolIsUsed | controller/channel-test.go:975-1016 | the bound is reached: some interleaving has as many runs in flight as are configured, or all |
| GoStrings.TrimCuts | controller/channel_upstream_update.go:100-105 | trimming takes characters of the cutset from both ends, no other, until none is left there |
| Names.NormalizeIsClean | controller/channel_upstream_update.go:100-105 | a normalised list has no blanks, no surrounding space and no repetition, and holds exactly the trimmed non-blank names |
| Names.NormalizeFixesClean | controller/channel_upstream_update.go:100-105 | normalising a clean list changes nothing, neither members nor order |
| StoredNames.ReadBackConcat | model/channel.go:289-294 | of a list stored joined, names without the separator stay in place and the new parts of the others come behind them |
| UpstreamModels.MergeModelNames | controller/channel_upstream_update.go:107-121 | the loop with its seen-set computes the ordered union |
| UpstreamModels.Algebra | controller/channel_upstream_update.go:107-143 | merge, subtract and intersect are union, difference and intersection on normalised names, stay clean, and a merge keeps its base as prefix |
| UpstreamModels.AddWins | controller/channel_upstream_update.go:145-150 | a name selected for adding and for removal is there afterwards; any other is there exactly if it was and was not removed |
| UpstreamModels.PendingMembers | controller/channel_upstream_update.go:179-238 | what is pending for adding and for removal, member by member and in order |
| UpstreamModels.PendingRuleByRule | controller/channel_upstream_update.go:179-238 | a name is pending for adding when it is offered, not local, no redirect target and no rule hides it, a rule that starts with "regex:" being the trimmed pattern behind it |
| UpstreamModels.CheckStores | controller/channel_upstream_update.go:502-549 | what a check stores, case by case: nothing while throttled or refused, only its time when the upstream fails, else the pending lists, and with an auto-sync the additions behind the local names |
| UpstreamModels.ApplicationStores | controller/channel_upstream_update.go:947-995 | what an application stores on any row, member by member of its four lists, its time and its flag |
| UpstreamModels.StoredBack | model/channel.go:289-294 | a clean list without commas survives being stored joined by commas |
| UpstreamModels.Channel.Check | controller/channel_upstream_update.go:502-549 | one check, throttled, failed, detecting, auto-syncing or refused by the database, leaves exactly the specified row; the number it reports as added is that of the pending additions an auto-sync takes |
| UpstreamModels.Channel.Apply | controller/channel_upstream_update.go:947-995 | applying a selection leaves exactly the specified row, or the old one when the database refuses it, and reports the pending names that were selected and whether the model list changed |
| UpstreamModels.DetectMakesFresh | controller/channel_upstream_update.go:502-549 | after an effective check the stored lists are what a new detection finds, exactly when an auto-sync had no comma in a name |
| UpstreamModels.AutoSyncLeavesNothing | controller/channel_upstream_update.go:526-536 | after an auto-sync nothing is pending for adding |
| UpstreamModels.AppliedModels | controller/channel_upstream_update.go:968-973 | the model list read back after an apply, for any names: the kept ones in order, then what became of the added ones, which are the added ones when none has a comma |
| UpstreamModels.DetectedStaysExactly | controller/channel_upstream_update.go:960-983 | the stored additions are what a detection would find exactly when every open name is settled as picked |
| UpstreamModels.RemovedStaysExactly | controller/channel_upstream_update.go:960-983 | the stored removals are what a detection would find exactly when nothing unknown upstream became local |
| UpstreamModels.ApplyKeepsFresh | controller/channel_upstream_update.go:960-983 | for every selection, the incremental pending lists equal a fresh detection, as sequences, if and only if both hold |
| UpstreamModels.RulesDecide | controller/channel_upstream_update.go:960-983 | with no comma in a selected addition: if and only if the new rules hide, of the names still open, what the old ones hid and what was picked to ignore |
| UpstreamModels.CommasDecide | controller/channel_upstream_update.go:960-983 | with no selected name that reads as a pattern: if and only if no selected addition has a comma |
| UpstreamModels.CommaNameReturns | controller/channel_upstream_update.go:960-983 | an added name with a comma is pending again right away, unless the new rules hide it |
| UpstreamModels.CommaExample | controller/channel_upstream_update.go:960-983 | such an apply at literal names |
| UpstreamModels.PatternNameHidesMore | controller/channel_upstream_update.go:179-238 | ignoring a name that reads as a pattern hides other pending names from detection but not from the stored list |
| UpstreamModels.PatternExample | controller/channel_upstream_update.go:179-238 | such an apply at literal names |
| UpstreamModels.StepStaysFresh | controller/channel_upstream_update.go:502-995 | one check or apply, stored or refused, leaves the row fresh exactly when it is an auto-sync without commas or a harmless apply, or does neither |
| UpstreamModels.RunsStayFresh | controller/channel_upstream_update.go:502-995 | over every run of checks and applies with any selections, the stored lists equal a fresh detection after every event if and only if every event is of that kind |
| UpstreamModels.PlainRunsStayFresh | controller/channel_upstream_update.go:502-995 | so it is on every run that adds no name with a comma and picks none that reads as a pattern |
| UpstreamModels.ApplyAllConverges | controller/channel_upstream_update.go:1014-1076 | from any fresh row, applying everything and checking again finds two empty lists if and only if the apply is harmless; then local and upstream names agree up to mapping and ignore rules |
| KeysetScan.NextPage | controller/channel_upstream_update.go:1001-1012 | a query after the k-th enabled channel returns the next 100, also at page boundaries |
| KeysetScan.Scan | controller/channel_upstream_update.go:701-789 | the scan ends, visits enabled channels in ascending order without gap or repetition, looks once per page and row, asks for pages of 100, and stops short only on a cancellation found before a page or a row, or on a failed query |
| KeysetScan.EnabledIds | controller/channel_upstream_update.go:1001-1012 | those ids are strictly ascending and are exactly the ids of the enabled channels |
| MultiKey.KeysRoundTrip | model/channel.go:175-197 | keys without newline and bracket are read back from the joined text, wherever they stand |
| MultiKey.ReadsBackExactly | model/channel.go:175-197 | for any keys: read back from the joined text if and only if that is a JSON array of the same keys, or no key holds a newline and neither end is empty |
| MultiKey.FirstKeyRoundTrip | model/channel.go:175-197 | any keys without newlines are read back as long as the first is neither blank nor starts with a bracket |
| MultiKey.FirstKeyDecides | model/channel.go:182-192 | only the first non-blank key decides whether the text is taken for a JSON array |
| MultiKeyChannel.Channel.constructor | controller/channel.go:646-657 | a channel created from pasted lines: trimmed non-empty lines, counted before they are joined |
| MultiKeyChannel.Channel.Update | model/channel.go:542-589 | storing recounts the keys, drops statuses beyond them, and keeps the old text when the new one is empty, from any state |
| MultiKeyChannel.Channel.DisableKey | controller/channel.go:1653-1694 | exactly one slot becomes manually disabled; a missing or out-of-range index changes nothing; and the whole stored channel |
| MultiKeyChannel.Channel.EnableKey | controller/channel.go:1696-1736 | exactly one slot loses status, time and reason |
| MultiKeyChannel.Channel.EnableAllKeys | controller/channel.go:1738-1760 | every slot becomes fresh, no key changes |
| MultiKeyChannel.Channel.DisableAllKeys | controller/channel.go:1762-1807 | exactly the enabled slots become manually disabled, and their number |
| MultiKeyChannel.Channel.DeleteKey | controller/channel.go:1809-1887 | removal of one slot, unless it is the last, if and only if the remaining keys read back; and the whole stored channel |
| MultiKeyChannel.Channel.DeleteDisabledKeys | controller/channel.go:1889-1956 | the auto-disabled slots go, if and only if none or all are or the rest reads back; their number; and the whole stored channel |
| MultiKey.DeletesReadBack | controller/channel.go:1809-1956 | deleting from keys without newline, blank or bracket leaves such keys, and they read back |
| MultiKeyChannel.Channel.MarkKey | model/channel.go:657-707 | a relay sets or clears the marks of the first index with its key; the channel is disabled when no key is left enabled and enabled again with one; an unlisted key changes nothing |
| MultiKey.HasEnabledKey | model/channel.go:709-720 | whether any key is enabled, over keys and the sparse map |
| MultiKey.ReindexWithout | controller/channel.go:1827-1859 | the loop over three sparse maps leaves the keys and maps of the slots without one |
| MultiKey.ReindexKept | controller/channel.go:1890-1927 | the loop over three sparse maps leaves the keys and maps of the slots that stay |
| MultiKeyChannel.Channel.KeyStatusPage | controller/channel.go:1539-1651 | page, totals and the three counts of the filtered status list, for any key text; a page number outside is brought inside |
| MultiKey.CollectStatuses | controller/channel.go:1552-1600 | every key with its status, time and reason shown only when disabled, and counts that agree with filtering |
| MultiKey.StatusesMean | controller/channel.go:1552-1600 | what is shown for a key: its status, and unless that is 1 its disable time and reason |
| MultiKey.SelectStatus | controller/channel.go:1602-1612 | the filter by status keeps order |
| MultiKey.TakePage | controller/channel.go:1614-1635 | the slice of the page, with the page number clamped |
| MultiKey.PagesCover | controller/channel.go:1614-1635 | all pages put after each other are the whole filtered list, each entry once |
| MultiKey.DedupedKeys | controller/channel.go:1049-1077 | the two loops with their seen-set find the new keys |
| MultiKey.NewKeysFit | controller/channel.go:1049-1077 | appended keys are trimmed, pairwise distinct, and exactly the input lines not yet listed |
| MultiKey.AppendKeepsPrefix | controller/channel.go:1009-1081 | for every input the text reads back as the old keys followed by the new ones, so a status index still names its key |
| MultiKey.AppendTwice | controller/channel.go:1058-1077 | appending the same input again adds nothing |
| MultiKey.AppendSeesExactly | controller/channel.go:1016-1031 | an append sees the keys everything else sees exactly when the text is not a bracketed text that fails to parse; then it sees none |
| MultiKeyChannel.Channel.AppendKeys | controller/channel.go:1009-1081 | an append extends the slots by fresh ones and keeps all others, if and only if the keys read back and no mark is kept for the new indices; and the whole stored channel, also without a text |
| MultiKeyChannel.Channel.Perform | controller/channel.go:1009-1956 | any operations one after the other do to the object what they do to its value |
| MultiKeyEffects.ApplyKeepsValid | model/channel.go:542-589 | after every operation the count is that of the text and no status lies beyond it |
| MultiKeyEffects.ActionsMean | controller/channel.go:1653-1956 | what each management action and relay report does to a list of slots, slot by slot and in the numbers stored |
| MultiKeyEffects.ActsExactly | controller/channel.go:1653-1956 | each management action and relay report does to the slots of a stored channel what it does to a list of slots, if and only if the keys a deletion leaves read back; otherwise other keys are left |
| MultiKeyEffects.StatusAfterReport | model/channel.go:657-707 | the status of the channel after a relay's report: disabled exactly when no key is left enabled, enabled again with a key, else as it was; taken over without a key to look up |
| MultiKeyEffects.StatusStays | controller/channel.go:1009-1956 | no other operation changes the status of the channel |
| MultiKeyEffects.AppendsExactly | controller/channel.go:1009-1081 | after an append the keys are the old ones followed by the new ones if and only if they read back, or, where the old ones are not seen, the input repeats them |
| MultiKeyEffects.AppendSlotsExactly | controller/channel.go:1009-1081 | it adds enabled keys without a past and changes nothing else if and only if, besides, nothing is kept for their indices |
| MultiKeyEffects.CleanKeysAre | controller/channel.go:646-653 | the keys of a new channel are its non-empty lines, in order and trimmed |
| MultiKeyEffects.CreatedExactly | controller/channel.go:646-657 | a created channel has the keys it counts if and only if they read back: outside JSON arrays, if and only if neither the first nor the last non-empty line is blank |
| MultiKeyEffects.CreatedIsValid | controller/channel.go:646-657 | then its count is right and every key is enabled |
| MultiKeyView.ViewIsShown | controller/channel.go:1552-1600 | the view is what the status list shows |
| MultiKeyView.ViewAgrees | controller/channel.go:1009-1956 | each operation on a stored channel does to the status view what it does to a plain list of records, exactly when it uncovers no leftover, does not delete every key at once, and leaves keys that read back |
| MultiKeyView.DeleteDisabledAgrees | controller/channel.go:1889-1956 | deleting the disabled keys of a stored channel is the filter on the view exactly when there are none, or some keys stay and read back; when all are auto-disabled it keeps and enables all |
| MultiKeyView.RunsAgree | controller/channel.go:1009-1956 | over every run of management actions, relay reports, appends and replacements the view is the plain list all along if and only if every operation meets that condition where it stands |
| MultiKeyView.PerformShown | controller/channel.go:1009-1956 | so the object shows the plain list after such a run |
| MultiKeyView.LeftoversComeFrom | model/channel.go:579-585 | no operation leaves a hidden time or reason but a relay's re-enabling, a shortening replacement and one whose keys do not read back |
| MultiKeyView.CarefulRunsAgree | controller/channel.go:1009-1956 | so the view is the plain list on every run without these and without a deletion of all keys at once |
| MultiKeyExamples.BlankKeyIsLost | controller/channel.go:1809-1956 | a deletion from the keys "a", "" and "b" that loses a second key, with both views |
| MultiKeyExamples.ShorteningLeavesTrace | model/channel.go:579-585 | a three-step run in which a new key shows the time and reason of an old one |
| MultiKeyExamples.ReenablingLeavesTrace | model/channel.go:681-695 | a three-step run whose view differs from the plain list |
| RatioDiff.GatherModels | controller/ratio_sync.go:542-556 | exactly the models priced locally or by some channel in some field |
| RatioDiff.JudgeConfidence | controller/ratio_sync.go:558-591 | per channel name and model: untrusted exactly for the pair 37.5 and 1 |
| RatioDiff.DistrustedExactly | controller/ratio_sync.go:558-591 | a channel is distrusted for a model exactly when it prices it with 37.5 and 1 up to 1e-9 |
| RatioDiff.CompareField | controller/ratio_sync.go:593-654 | what one field of one model shows for all channels, later ones of a name overwriting earlier ones |
| RatioDiff.FindLive | controller/ratio_sync.go:656-665 | the names with a real difference anywhere |
| RatioDiff.PruneModels | controller/ratio_sync.go:667-693 | deletion in place is the pruning of the value |
| RatioDiff.BuildDifferences | controller/ratio_sync.go:536-696 | the passes together compute the specified comparison |
| RatioDiff.RealValuesExactly | controller/ratio_sync.go:536-696 | sound and complete: a real value appears for model, field and name exactly when that channel offers one not equal to the local price, and it is that value |
| RatioDiff.ShownExactly | controller/ratio_sync.go:536-696 | on the tables as they were read: a real price of a channel is shown exactly when both are numbers at least 1e-9 apart, or not both are numbers and they differ, integers counting as numbers in the eight numeric fields; and with which values |
| RatioDiff.NothingShown | controller/ratio_sync.go:593-654 | a channel that lists no price shows none |
| RatioDiff.LiveExactly | controller/ratio_sync.go:656-665 | a channel stays listed exactly when it offers a real other price somewhere |
| RatioDiff.ListedExactly | controller/ratio_sync.go:593-693 | every surviving item lists exactly the live names, each with what is printed for it and its trust |
| RatioDiff.NothingIdle | controller/ratio_sync.go:656-693 | no empty row, no item that only says "same", no listed channel without a real difference somewhere |
| RatioDiff.PruneAgain | controller/ratio_sync.go:656-693 | pruning is idempotent |
| RatioDiff.ItemsExactly | controller/ratio_sync.go:536-696 | for any prices and names: an item with a real value exists exactly where a channel offers a real other price, and one without exactly when there is nothing to take over but a live channel has no price there |
| RatioDiff.OrdinaryItems | controller/ratio_sync.go:536-696 | so with distinct names and no null prices an item exists exactly when some channel differs, and shows a real value |
| RatioDiff.NullSurvives | controller/ratio_sync.go:594-654 | at literal prices, a null survives as an item without any real value |
| ModelsDev.SortedKeys | controller/ratio_sync.go:915-919 | the providers in strictly ascending order, each once |
| ModelsDev.BeforeMeans | controller/ratio_sync.go:915-919 | the order of names: by the first different character, a beginning before the whole |
| ModelsDev.Select | controller/ratio_sync.go:921-944 | the nested loops select per model what a fold over that model's own candidates selects |
| ModelsDev.CandidatesExactly | controller/ratio_sync.go:845-879 | the candidates are exactly the valid offers, in provider order |
| ModelsDev.RefusedExactly | controller/ratio_sync.go:845-879 | a cost is refused exactly when a price is missing or negative or the input is free and the output is not; otherwise it is kept as it is |
| ModelsDev.BestIsCheapest | controller/ratio_sync.go:881-893 | a price is preferred to none; the chosen price is less than 1e-9 above the cheapest, for any number of candidates; the first provider wins among equal prices |
| ModelsDev.NearlyEqualIsNotTransitive | controller/ratio_sync.go:48-53 | near-equality does not chain |
| ModelsDev.UnorderedDrifts | controller/ratio_sync.go:881-893 | without provider order the same fold misses the cheapest price |
| ModelsDev.SelectionMeans | controller/ratio_sync.go:921-944 | a model is selected exactly when some provider makes a valid offer, and then by a cheapest one |
| ModelsDev.FillTables | controller/ratio_sync.go:950-972 | the three ratio tables of the selection |
| ModelsDev.Convert | controller/ratio_sync.go:906-985 | undecodable and empty answers and answers without a valid offer are errors; otherwise each model with an offer is listed by the ratios of a selectable one in all three tables, and no other model in any |
| ModelsDev.ImportMeans | controller/ratio_sync.go:946-985 | that import in terms of the offers: half the input price, output and cache prices that come back within the bound, no ratio for a price not offered or for a free model, no empty table |
| ModelsDev.PriceComesBack | controller/ratio_sync.go:960-971 | twice the model ratio is the input price within 1e-6, and times a relative ratio any price within 5e-7·i + 1e-6·p/i + 5e-13 |
| ModelsDev.FreeExactly | controller/ratio_sync.go:698-700 | the imported model ratio is 0 exactly for prices below 1e-6 |
| RateLimiter.QueueDecides | common/rate-limit.go:52-62 | the test on a bounded queue answers the question about the whole history |
| RateLimiter.RequestDecides | common/rate-limit.go:45-70 | on the stored queues: admits exactly when fewer than the effective limit of all admissions ever lie in the window, and keeps the queue a faithful memory of them |
| RateLimiter.Swept | common/rate-limit.go:33-38 | a queue the sweep drops holds nothing that counts, for expiration at least duration − 1 |
| RateLimiter.InMemoryRateLimiter.Request | common/rate-limit.go:45-70 | changes the queues as specified, for any limit from 0 up; admits exactly when fewer than the effective limit of all admissions ever lie in the window; other keys untouched |
| RateLimiter.InMemoryRateLimiter.ClearExpiredItems | common/rate-limit.go:28-42 | the loop drops exactly the stale queues |
| RateLimiter.AnswersAgree | common/rate-limit.go:28-70 | on any run with any sweeps, every request of a key whose window the expiration covers is answered as by an unbounded log without sweeps, whatever the other windows are |
| RateLimiter.LogAgrees | common/rate-limit.go:28-70 | the log of such a key holds exactly the times it was let in |
| RateLimiter.SweepsHarmlessExactly | common/rate-limit.go:28-70 | sweeps change no answer on any run if and only if the expiration covers every window |
| RateLimiter.ShortExpirationForgets | common/rate-limit.go:28-70 | a three-event run at literal times that answers yes where the log answers no, and lets in two where one is allowed |
| RateLimiter.Serve | common/rate-limit.go:28-70 | the limiter as an object answers any run as its queues on values do; its history is exactly the times each key was let in; covered keys are answered as by the log |
| RateLimiter.NoWindowOverflows | common/rate-limit.go:45-70 | with a window the expiration covers, no stretch of its length ever sees more requests of the key let in than the effective limit |
| RateLimiter.LimitRespectedExactly | common/rate-limit.go:20-70 | on the requests the limiter lets in: never more than the limit asked for within the window, on every run, if and only if the window is empty, or the limit is at least 1 and the expiration covers the window |
| RateLimiter.ZeroLimitAdmits | common/rate-limit.go:63-69 | a run at literal times with the limit 0 and its answers |
| OggWalker.GetOpusDuration | common/audio.go:196-254 | ends on every byte string and returns the largest granule position met over 48000 |
| OggWalker.WalkReports | common/audio.go:207-249 | on every byte string the visited pages lie apart, each at a capture pattern, and the result is their largest granule position or 0 |
| OggWalker.GranuleRoundTrip | common/audio.go:228-232 | little-endian 64-bit granule positions are read back with their sign |
| OggWalker.ReadPage | common/audio.go:219-248 | at a page laid out as in section 6 of RFC 3533 the walk reads its granule position and finds its end |
| OggWalker.NoStraddle | common/audio.go:219-226 | no capture pattern begins in garbage and ends in the first page |
| OggWalker.DurationOfStream | common/audio.go:196-254 | on garbage without a capture pattern followed by well-formed pages exactly the page starts are visited, and the garbage does not change the result |
| OggWalker.LargestGranuleIsMax | common/audio.go:228-232 | that result is the maximum over the pages, at least 0 |
| OggWalker.OneSecond | common/audio.go:196-254 | two pages at literal bytes behind garbage: both are found, and the file lasts one second |
| BodyStorage.MemoryStorage.Read | common/body_storage.go:62-69 | reading refines the object of content, cursor and closed flag |
| BodyStorage.MemoryStorage.Seek | common/body_storage.go:71-78 | seeking refines it, negative positions are refused |
| BodyStorage.MemoryStorage.Close | common/body_storage.go:80-87 | takes effect and uncounts once |
| BodyStorage.MemoryStorage.Bytes | common/body_storage.go:89-96 | the whole content, unless closed |
| BodyStorage.MemoryStorage.NewReader | common/body_storage.go:98-108 | an independent cursor at the start |
| BodyStorage.DiskStorage.Read | common/body_storage.go:196-203 | reading refines the same object |
| BodyStorage.DiskStorage.Seek | common/body_storage.go:205-212 | seeking refines the same object |
| BodyStorage.DiskStorage.Close | common/body_storage.go:214-223 | takes effect and uncounts once |
| BodyStorage.DiskStorage.Bytes | common/body_storage.go:225-257 | the whole content, with the shared cursor back where it was |
| BodyStorage.DiskStorage.NewReader | common/body_storage.go:259-275 | an independent cursor that outlives the storage |
| BodyStorage.ReadsNext | common/body_storage.go:62-69 | a read takes the next bytes, as many as fit, and moves behind them |
| BodyStorage.SeeksTo | common/body_storage.go:71-78 | a seek counts from the start, the cursor or the end, and refuses a position before the start |
| BodyStorage.OperationsMean | common/body_storage.go:62-283 | what each operation does to the storage, its cursor and the open readers |
| BodyStorage.StepMemory | common/body_storage.go:62-116 | one operation on a memory storage or on a reader opened on it does what the object does; readers keep their own cursors and outlive a close |
| BodyStorage.StepDisk | common/body_storage.go:196-283 | the same on disk |
| BodyStorage.RunMemory | common/body_storage.go:62-116 | any sequence of operations on memory and on the readers opened along the way answers as the object does |
| BodyStorage.RunDisk | common/body_storage.go:196-283 | any sequence of operations on disk and on the readers opened along the way answers as the object does |
| BodyStorage.ReaderYields | common/body_storage.go:98-108 | a reader yields the content from its cursor on without gap or repetition, whatever happens to the storage and the other readers in between |
| BodyStorage.OnlyEmptyReadsDiffer | common/body_storage.go:62-69 | one operation answers alike on both exactly when it is not an empty read at the end |
| BodyStorage.StoragesAgree | common/body_storage.go:62-283 | any sequence of operations leaves the same state and readers on both, and answers alike exactly when none is an empty read at the end |
| BodyStorage.NoEmptyReadsMeans | common/body_storage.go:62-283 | that condition operation by operation, each where it stands in the sequence |
| BodyStorage.CreateBodyStorage | common/body_storage.go:286-304 | on disk exactly when enabled, large enough, with room and a working file; counted where it is |
| BodyStorage.CreateBodyStorageFromReader | common/body_storage.go:307-348 | refused for the disk exactly when a cache file is due and cannot be made; else as too large exactly when the stream exceeds the limit, and as failed exactly when it breaks off before that, on either path; otherwise it holds the whole stream |
| BodyStorage.CountersComeBack | common/disk_cache_config.go:109-134 | removing what was added restores the counters, and those of files are never negative |
| CacheAccounting.StepKeepsTruth | common/disk_cache_config.go:109-134 | each step keeps the counters equal to count and byte sum of the open storages |
| CacheAccounting.StepMoves | common/body_storage.go:286-348 | every admitted body leaves the queue once, to disk, to memory or for good, and nothing else moves |
| CacheAccounting.UsageBound | common/body_storage.go:286-348 | with at most k bodies of size at most S between check and increment, none more than E above its announced length, usage stays within max + (k − 1)·S + E |
| CacheAccounting.BoundIsTight | common/disk_cache_config.go:170-177 | that bound is reached, for every k and E |
| ModelSync.EnsureVendorWorks | controller/model_sync.go:237-263 | the id belongs to a vendor of that name, or is 0 for no name or a refused insert; names stay unique; the cache stays in agreement with the table |
| ModelSync.Run.EnsureVendorId | controller/model_sync.go:237-263 | cached, found, created or refused, in that order |
| ModelSync.Run.CreateMissing | controller/model_sync.go:352-390 | the creation loop |
| ModelSync.Run.OverwriteOneModel | controller/model_sync.go:392-451 | one request replaces the chosen fields in one update, or none when the database refuses it |
| ModelSync.Run.Synchronise | controller/model_sync.go:286-451 | creation and then overwriting, or nothing when there is nothing to do |
| ModelSync.Run.VendorNames | controller/model_sync.go:550-568 | names fetched by the set of ids in use are the names of those vendors |
| ModelSync.Run.PreviewAll | controller/model_sync.go:579-620 | the models with conflicts, each with its fields in order |
| ModelSync.OverwriteAllWorks | controller/model_sync.go:392-451 | whatever the order and number of requests, a record ends with exactly the chosen fields replaced |
| ModelSync.RecordAfter | controller/model_sync.go:286-451 | a record that may be synchronised is after a run as it was, with exactly the fields taken over that some request asks for, whatever their case |
| ModelSync.RunResolves | controller/model_sync.go:286-451 | after a run a field is in conflict exactly if it was and was not chosen or could not be updated, or is a chosen vendor that was refused |
| ModelSync.PreviewMeans | controller/model_sync.go:579-620 | the preview lists a field exactly when taking it over would change it, up to the space around a text |
| ModelSync.PreviewOrder | controller/model_sync.go:579-620 | in a fixed order, each once |
| ModelSync.PreviewThenSync | controller/model_sync.go:579-620 | taking over everything the preview lists leaves for the next preview exactly what the database refused, vendors and updates |
| ModelSync.CreatedExactly | controller/model_sync.go:352-390 | which models are created, with which fields, status and vendor, and that no later preview touches them |
| ModelSync.CreationReports | controller/model_sync.go:352-390 | every missing name is reported once per place, as created or skipped, in the order of the list |
| ModelSync.CreationStep | controller/model_sync.go:352-390 | a vendor is looked up only for a model the catalogue has and no record keeps from being synchronised |
| ModelSync.UpdateReports | controller/model_sync.go:392-451 | exactly the requests that updated a record are reported, in their order |
| ModelSync.VendorsOnce | controller/model_sync.go:237-263 | a run only adds vendors, as many as it counts, each as the catalogue describes it, and no name twice |
| EnrichModels.Collect | controller/model_meta.go:221-269 | one pass over the price list collects, per record, what its own matches would give |
| EnrichModels.AddHitHolds | controller/model_meta.go:244-267 | one more match extends the four collected sets of its record |
| EnrichModels.KeyInjective | controller/model_meta.go:322-325 | the key under which channels are told apart is injective |
| EnrichModels.UniteChannels | controller/model_meta.go:318-333 | the channels of all matched models, each once |
| EnrichModels.SortedInts | controller/model_meta.go:307-316 | quota types ascending and without repetition |
| EnrichModels.Enrich | controller/model_meta.go:173-339 | for every mix of rules each record ends as if it had been treated alone; missing records are skipped |
| EnrichModels.EnrichedIsDetermined | controller/model_meta.go:284-339 | that leaves nothing open but the order of endpoints, groups and channels |
| EnrichModels.HitsExactly | controller/model_meta.go:227-241 | a record is matched by exactly the entries its rule accepts, and an unknown rule accepts none |
| EnrichModels.RulesMean | controller/model_meta.go:231-238 | the three rules: the name begins, is part of, or ends the name of the entry |
| EnrichModels.RuleRecord | controller/model_meta.go:205-339 | a record with a rule, member by member of its lists, in terms of the entries it matches and the channels bound to them |
| EnrichModels.ExactRecord | controller/model_meta.go:185-203 | an exact record takes its own entries and nothing else |
| EnrichModels.MissingRecord | controller/model_meta.go:184-187 | a missing record stays missing |
| QuotaMath.RoundIsNearest | common/quota_math.go:140-142 | rounding gives the nearest integer, ties away from zero, and only that |
| QuotaMath.SaturationProjects | common/quota_math.go:86-100 | saturation is the closest value of the range; NaN goes to 0 and the infinities to the ends |
| QuotaMath.ClampExactly | common/quota_math.go:86-100 | a clamp is reported exactly for what lies outside the range or is NaN, with its kind, the value and what it became |
| QuotaMath.StrictAnswers | common/quota_math.go:102-147 | the strict forms answer exactly for the finite values where nothing is saturated, and how far from the value |
| QuotaMath.QuotaMonotone | common/quota_math.go:112-136 | a larger value never gives a smaller quota |
| QuotaMath.SettleTestQuota | controller/channel-test.go:540-553 | the reassigned quota is the specified charge |
| QuotaMath.FixedCharge | controller/channel-test.go:540-553 | a charge by price is 500000 times the price without its fraction, within the range, whatever the tokens |
| QuotaMath.LeastCharge | controller/channel-test.go:540-549 | a charge that rounds to nothing or less is 1 unless the ratio is 0 |
| QuotaMath.ChargeRange | controller/channel-test.go:540-549 | for all token counts and ratios a charge by tokens is within 0 and 2^31−1, and 0 exactly for ratio 0 |
| QuotaMath.ChargeMonotone | controller/channel-test.go:540-549 | more tokens never cost less |
| QuotaMath.ChargeIsClose | controller/channel-test.go:540-549 | with nothing saturated the charge is within half the model ratio plus 1 of the exact price |
| QuotaMath.SmallChargesFit | controller/channel-test.go:540-549 | a caller can see from the exact price that nothing saturates |

## Left out

- ChannelTestPool.NothingAfterCancel: looking at the context and starting a run is one step, and so is looking at it and reporting; a cancellation between the two is one right after.
- UpstreamModels.RunsStayFresh: the upstream list and the redirect mapping are fixed during a run.
- UpstreamModels.PendingMembers: whether an ignore pattern matches a name is an abstract predicate, because regular expressions are evaluated by a library; the parsing and trimming of the redirect mapping is done before.
- KeysetScan.Scan: ids are positive, as the database assigns them; rows do not change during a scan.
- MultiKeyChannel.Channel: each action is atomic: the row is read before the lock is taken (controller/channel.go:1502, 1534) and no claim is made about two actions at once. A database that refuses the row is not modelled, nor are keys cached with the channel.
- MultiKeyChannel.Channel.constructor: channels of Vertex AI, whose keys are JSON objects, are not modelled.
- MultiKeyChannel.Channel.AppendKeys: the Vertex AI branch is not modelled.
- MultiKeyChannel.Channel.MarkKey: the reason and time written to the channel's other info are not modelled.
- MultiKeyView.ViewAgrees: the count must be that of the text, which every stored change makes so and a creation only as `CreatedIsValid` says; until then the actions go by the count they have (`MultiKey.ManageOn`).
- MultiKeyChannel.Channel.KeyStatusPage: the preview of the first ten bytes of a key is not modelled.
- RatioDiff.BuildDifferences: prices are numbers, integers, texts or null; arrays, objects and `json.Number` are not; ranges over maps visit in any order.
- ModelsDev.Select: models of one provider are visited in any order, since they do not influence each other.
- ModelsDev.RefusedExactly: the branches for NaN and infinite costs, which JSON cannot carry, have no counterpart among reals.
- RateLimiter.InMemoryRateLimiter.Request: a negative limit, for which the code panics, is excluded; limit and window are fixed per key, the clock does not run backwards, and the mutex makes requests and sweeps atomic.
- OggWalker.GetOpusDuration: the file is a byte sequence whose reads fill the buffer when enough is left; read errors other than the end of file are not modelled.
- BodyStorage.MemoryStorage.NewReader: closing such a reader, which has no effect in memory, is not modelled.
- BodyStorage.DiskStorage.Read: read errors of the file system are not modelled; a cache file keeps its bytes while a descriptor is open.
- BodyStorage.DiskStorage.Seek: seek errors of the file system other than a negative position are not modelled.
- BodyStorage.DiskStorage.Bytes: errors of the file system, which can leave the cursor moved, are not modelled.
- BodyStorage.DiskStorage.NewReader: a cache file that can no longer be opened is not modelled, nor is closing the reader.
- BodyStorage.StepDisk: file-system errors are not modelled.
- BodyStorage.RunDisk: file-system errors are not modelled.
- CacheAccounting.UsageBound: clean-up of old files, synchronisation and reset of the counters change them on purpose and are left out.
- ModelSync.Run.Synchronise: lookups of records and vendors do not fail; inserts of vendors and models and updates of records may.
- ModelSync.RunResolves: as for `Synchronise`. Names are compared byte for byte, and fields of a request in ASCII case only.
- EnrichModels.Enrich: two entries of a page never share a record; the encoding of the endpoint list as JSON is taken as injective.
- QuotaMath.ChargeIsClose: reals instead of IEEE-754 numbers, so the charge never meets NaN or an infinity; tiered billing and decimal conversions are left out.
- HTTP handlers, JSON, audit records, notifications, vendor protocols, SQL, caches in Redis, payment and relay retry loops are foreign code here.
