# Instagram DM automation dashboard — a verified model

This project models the logic of a browser dashboard that sends Instagram direct messages to a list of targets.

The dashboard keeps campaigns, message templates, targets and an activity log in one persisted store. Its automation tab runs a loop, one target at a time:
- it stops when the daily quota is used up;
- otherwise it takes the first pending target;
- it fills the campaign's template with the target's name;
- it pretends to send the message;
- it records the outcome on the target, in the log and in the counters;
- it waits a random whole number of milliseconds, between the campaign's minimum and maximum delay in minutes, before the next cycle.

Around that loop are several pure transformations:
- the store's list reducers;
- the template editor's placeholder scan and preview;
- the target form and its comma-separated bulk import;
- the campaign form;
- the log filter.

Modules:

- `Wrappers`: `Option`.
- `Seqs`: the list operations the reducers and the searches are made of:
  - `filter`;
  - the id-keyed `map` update and the id-keyed delete;
  - `find`;
  - `[...new Set(xs)]`;
  - the order-preserving sub-list relation.
- `Text`: the JavaScript string built-ins the code relies on, with their ECMAScript behaviour:
  - `trim`, with the full ECMAScript white-space set;
  - `split` on one character;
  - `replace` with a one-character string, which removes the first occurrence only;
  - `replace` with a global regular expression, scanned left to right without rescanning inserted text;
  - `Number.parseInt`: white space, sign, `0x` prefix, longest digit prefix, `NaN` as `None`;
  - `toString`, `padStart`;
  - ASCII `toLowerCase`.
- `DataStore`: the entities (`Target`, `Template`, `Campaign`, `Log`) as datatypes. `Partial<…>` updates become patch datatypes. The store is a class `Store` whose methods reassign its list fields with values computed by pure functions.
- `Templates`, `Targets`, `Campaigns`, `Logs`: one module per tab. Each holds the pure logic plus the handlers that call the store.
- `Automation`: the automation tab. It is a class `AutomationTab` holding the tab's state and timer handles and a reference to the store.

The tab's callbacks close over the render that created them. A cycle therefore reads a `View`, an explicit snapshot of the store and the settings, and writes to the live store. `processNextTarget` is split at its `await`:
- `BeginCycle` is the synchronous prefix;
- `FinishCycle` is the rest, together with the continuation in `runAutomationCycle`.

These become parameters:
- the random send outcome;
- the random delay value in `[0, 1)`;
- fresh ids and clock readings;
- timer handles.

## Model

| member | source | states |
|---|---|---|
| DataStore.Store.constructor | lib/store.ts:79-103 | A fresh store has no campaigns, targets or logs, holds the two built-in templates "Intro Bisnis" and "Follow Up" with variables `["name"]`, and is not running. |
| DataStore.NewCampaign | lib/store.ts:104-116 | A new campaign takes its fields from the draft, gets the given id and creation time, and starts with `totalSent = totalReplied = 0`. |
| DataStore.Store.AddCampaign | lib/store.ts:104-116 | Appends exactly that one new campaign after the unchanged earlier ones; no other store field changes. |
| DataStore.Store.UpdateCampaign | lib/store.ts:118-121 | The campaign list becomes the id-keyed merge of the patch: same length and order, only campaigns with that id replaced by `{...c, ...patch}`. |
| DataStore.Store.DeleteCampaign | lib/store.ts:123-126 | The campaign list keeps exactly the campaigns whose id differs, in order. |
| DataStore.Store.AddTemplate | lib/store.ts:128-138 | Appends one template with the given id and creation time. |
| DataStore.Store.UpdateTemplate | lib/store.ts:140-143 | The template list becomes the id-keyed merge of the patch. |
| DataStore.Store.DeleteTemplate | lib/store.ts:145-148 | The template list keeps exactly the templates whose id differs. |
| DataStore.Store.AddTarget | lib/store.ts:150-153 | Appends one target, the draft with the given id. |
| DataStore.NewTargets | lib/store.ts:155-158 | Each draft gets its own id, in input order, and the count is kept. |
| DataStore.Store.AddTargets | lib/store.ts:155-158 | The new targets are appended after the old ones, in input order, and the length grows by their number. |
| DataStore.Store.UpdateTarget | lib/store.ts:160-163 | The target list becomes the id-keyed merge of the patch. |
| DataStore.UpdateTargetsSpec | lib/store.ts:160-163 | A target update keeps length and order, leaves targets with another id untouched, and on the matching ones overwrites exactly the fields the patch carries. |
| DataStore.UpdateTargetsKeepsIds | lib/store.ts:160-163 | A patch without an id keeps every target's id at its position. |
| Seqs.UpdateWhere | lib/store.ts:118-121 | The id-keyed `map`: same length, matching positions replaced by their image, all other positions kept. |
| Seqs.UpdateAbsent | lib/store.ts:118-121 | Updating an id no entry carries leaves the list unchanged. |
| Seqs.UpdateIdempotent | lib/store.ts:118-121 | An update whose merge keeps the id and is idempotent can be applied twice with the effect of once. |
| DataStore.SetCampaignStatusIdempotent | lib/store.ts:118-121 | Setting a campaign's status twice gives the same list as setting it once. |
| Seqs.RemoveWhere | lib/store.ts:123-126 | The id-keyed delete: every remaining entry has another id and comes from the list, and every entry with another id remains. |
| Seqs.RemoveWhereSpec | lib/store.ts:165-168 | The delete keeps the relative order of the rest, and deleting an absent id changes nothing. |
| DataStore.Store.DeleteTarget | lib/store.ts:165-168 | The target list keeps exactly the targets whose id differs. |
| DataStore.Store.ClearTargets | lib/store.ts:170 | The target list becomes empty; its frame shows that no other field changes. |
| DataStore.PrependCapped | lib/store.ts:172-175 | The new entry comes first, followed by the previous entries in order, and the length is `min(old + 1, cap)`. |
| DataStore.Store.AddLog | lib/store.ts:172-175 | The log list becomes the new entry, with its id and timestamp, in front of the previous logs, truncated to 500. |
| DataStore.AddLogsKeepsNewest | lib/store.ts:172-175 | After any sequence of additions, the list is the newest entries newest first, followed by the older ones, cut to 500. |
| DataStore.AddLogsBounded | lib/store.ts:172-175 | After any sequence of additions the list holds `min(added + old, 500)` entries, and the last added entry is first. |
| DataStore.Reverse | lib/store.ts:172-175 | The reversed list: element `i` is element `n-1-i`. |
| DataStore.Store.ClearLogs | lib/store.ts:177 | The log list becomes empty and nothing else changes. |
| DataStore.Store.SetRunning | lib/store.ts:179 | Sets the running flag only. |
| DataStore.Store.SetCurrentCampaign | lib/store.ts:181 | Sets the current campaign id, or clears it, only. |
| Seqs.Filter | components/tabs/logs-tab.tsx:21-26 | `filter`: the kept elements satisfy the predicate and come from the list, every element that satisfies it is kept, and the result is no longer than the list. |
| Seqs.FilterIsSubsequence | components/tabs/targets-tab.tsx:76-80 | Filtering keeps an order-preserving sub-list. |
| Seqs.FilterMembership | components/tabs/logs-tab.tsx:21-26 | An element is in the filtered list if and only if it is in the list and satisfies the predicate. |
| Seqs.FilterIdempotent | components/tabs/logs-tab.tsx:21-26 | Filtering twice with the same predicate is filtering once. |
| Seqs.FilterAll | components/tabs/campaigns-tab.tsx:45-47 | A predicate true of every element keeps the whole list. |
| Seqs.FilterAppend | components/tabs/targets-tab.tsx:58 | Filtering distributes over concatenation. |
| Seqs.FilterHead | components/tabs/automation-tab.tsx:62-64 | The head of a non-empty filtered list is the list's first element that satisfies the predicate. |
| Seqs.Find | components/tabs/automation-tab.tsx:60 | `find` by id returns an element exactly when one carries the id. What it returns carries the id and is the first element of the list that does. |
| Seqs.Distinct | components/tabs/templates-tab.tsx:37 | `[...new Set(xs)]`: no duplicates, nothing new, nothing lost. |
| Seqs.DistinctFirstAppearance | components/tabs/templates-tab.tsx:37 | The distinct elements are listed in the order of their first appearance. |
| Text.TrimSpec | components/tabs/targets-tab.tsx:60 | `trim` removes exactly the white space at both ends, and what remains neither starts nor ends with white space. |
| Text.TrimEmptyIff | components/tabs/targets-tab.tsx:58 | A trimmed string is empty exactly when the string is all white space. |
| Text.RemoveFirst | components/tabs/targets-tab.tsx:45 | `replace("@", "")`: without `@` the string is unchanged, otherwise it is one character shorter. |
| Text.RemoveFirstSpec | components/tabs/targets-tab.tsx:45 | Only the first `@` is removed; a later `@` survives. |
| Text.Split | components/tabs/targets-tab.tsx:58 | `split` gives at least one piece, no piece holds the separator, and joining the pieces gives the string back. |
| Text.SplitJoin | components/tabs/targets-tab.tsx:60 | Splitting a join of separator-free pieces gives the pieces back. |
| Text.ReplaceAllAbsent | components/tabs/automation-tab.tsx:100-104 | A global replace with no occurrence changes nothing. |
| Text.ReplaceAllAtFront | components/tabs/automation-tab.tsx:100-104 | An occurrence at the front is replaced and scanning resumes after it. |
| Text.ReplaceAllPassesOver | components/tabs/automation-tab.tsx:100-104 | Text lacking the pattern's first character is copied unchanged. |
| Text.ReplaceAllStep | components/tabs/templates-tab.tsx:96-101 | One replacement pass over a chunk: the chunk is replaced when it is the pattern, and copied when the pattern does not occur where it starts in the scanned text and no later character of it starts the pattern. |
| Text.NextCharCopied | components/tabs/templates-tab.tsx:96-101 | A chunk that does not start with the pattern is copied when nothing follows it or the next character cannot continue the pattern. This covers a lone `{` or an unfinished placeholder. |
| Text.MismatchCopied | components/tabs/templates-tab.tsx:96-101 | A chunk that differs from the pattern at a position both have is copied, whatever follows it. |
| Text.NatToStringValue | components/tabs/automation-tab.tsx:268-276 | Reading the decimal digits of `toString` back gives the number. |
| Text.PadStart | components/tabs/automation-tab.tsx:268-276 | `padStart` keeps a long enough string, and otherwise pads it on the left with the fill character to exactly the width. |
| Text.ParseIntOfDecimal | components/tabs/campaigns-tab.tsx:178 | `parseInt` reads back the decimal text of a number, with or without a minus sign. |
| Text.ParseIntPlain | components/tabs/campaigns-tab.tsx:178 | Text starting with a digit is read as its magnitude, without sign or white-space handling. |
| Text.ParseIntMinus | components/tabs/campaigns-tab.tsx:178 | When the text after a leading minus reads as a magnitude, the whole reads as its negation. |
| Templates.MatchAt | components/tabs/templates-tab.tsx:35 | A match at the start of the text is `{`, a non-empty run of `\w` characters, then `}`, with no `{` inside. |
| Templates.Matches | components/tabs/templates-tab.tsx:35-37 | Every name the global scan reports is a `\w+` word whose placeholder occurs in the content. |
| Templates.OccurrenceMatched | components/tabs/templates-tab.tsx:35 | Every occurrence of a `{word}` placeholder is found by the global scan. |
| Templates.ExtractVariables | components/tabs/templates-tab.tsx:34-38 | The result has no duplicates, and every name is a `\w+` word whose placeholder occurs in the content. |
| Templates.ExtractVariablesIff | components/tabs/templates-tab.tsx:34-38 | A name is reported if and only if it is a non-empty `\w+` word that occurs between braces in the content. So content without a placeholder gives `[]`. |
| Templates.ExtractVariablesOrder | components/tabs/templates-tab.tsx:34-38 | The names come in the order in which their placeholders first occur in the content. Wherever a later name's placeholder occurs, every earlier name's placeholder has already occurred before that position. |
| Templates.MatchesOrder | components/tabs/templates-tab.tsx:35 | The global scan reports names in the order of their occurrences in the text. |
| Templates.ExtractVariablesRejects | components/tabs/templates-tab.tsx:35 | `{}` and `{a b}` report nothing. |
| Templates.PreviewPlain | components/tabs/templates-tab.tsx:96-101 | Content without `{` is previewed unchanged. |
| Templates.PreviewChunk | components/tabs/templates-tab.tsx:96-101 | The preview replaces `{name}`, `{username}` and `{company}` by their sample values, left to right. It copies unchanged every chunk that none of the three substitutions matches where the chunk starts. |
| Templates.InertChunk | components/tabs/templates-tab.tsx:96-101 | Cut the content before every `{`. Each piece that does not start with one of the three placeholders is copied, including a lone `{` and an unfinished placeholder. So every content can be read chunk by chunk. |
| Templates.PreviewDoubleBrace | components/tabs/templates-tab.tsx:96-101 | `{{name}}` previews as `{John Doe}`. |
| Templates.PreviewTrailingBrace | components/tabs/templates-tab.tsx:96-101 | A trailing `{` is previewed as it is. |
| Templates.SubmittedDraft | components/tabs/templates-tab.tsx:46-60 | A new template stores the form's name and content, and its variables are exactly the placeholder names in the content. |
| Templates.SubmittedPatch | components/tabs/templates-tab.tsx:48-53 | An edit patches name, content and the extracted variables, and nothing else. |
| Templates.HandleSubmit | components/tabs/templates-tab.tsx:40-66 | Accepted exactly when name and content are both non-empty. A rejected submit leaves the templates unchanged. An accepted one updates the edited template or appends a new one. |
| Templates.DuplicateDraft | components/tabs/templates-tab.tsx:87-92 | The copy is named `name + " (Copy)"` with identical content and variables. |
| Templates.HandleDuplicate | components/tabs/templates-tab.tsx:87-94 | Appends exactly one copy with a fresh id. |
| Targets.OptionalText | components/tabs/targets-tab.tsx:46 | An empty text field becomes absent, any other text is kept. |
| Targets.ParseNumber | components/tabs/targets-tab.tsx:47 | `Number.parseInt` gives `NaN` exactly when no integer can be read. |
| Targets.FollowersField | components/tabs/targets-tab.tsx:47 | An empty followers field is absent; anything else is its parse, `NaN` included. |
| Targets.SubmitDraft | components/tabs/targets-tab.tsx:38-50 | Rejected if and only if the username is empty. Otherwise: the first `@` is removed, an empty full name is absent, and the target is pending, specific and unsent. |
| Targets.HandleSubmit | components/tabs/targets-tab.tsx:38-55 | An empty username changes nothing; otherwise exactly one target is appended. |
| Targets.TrimAll | components/tabs/targets-tab.tsx:60 | Trims each field and keeps the count. |
| Targets.ImportLines | components/tabs/targets-tab.tsx:59-68 | One draft per line, in line order. |
| Targets.ParseImportLines | components/tabs/targets-tab.tsx:57-70 | Importing newline-joined lines gives one target per non-blank line, in order, and as many targets as there are non-blank lines. |
| Targets.BlankLineIgnored | components/tabs/targets-tab.tsx:58 | A white-space-only line contributes nothing wherever it stands. |
| Targets.ImportLineFields | components/tabs/targets-tab.tsx:60-67 | Each line is split on commas and trimmed. The first field, minus its first `@`, is the username; a missing or empty second or third field is absent; fields after the third are ignored. |
| Targets.ImportKeepsEmptyUsername | components/tabs/targets-tab.tsx:58-68 | The line `" , Name"` is imported with an empty username, which the single form rejects. |
| Targets.HandleImport | components/tabs/targets-tab.tsx:57-74 | Appends the parsed targets in line order with one fresh id each, and reports their number. |
| Targets.FilteredTargets | components/tabs/targets-tab.tsx:76-80 | A target is shown exactly when the query occurs, ignoring case, in its username or in its full name. |
| Targets.FilteredTargetsSpec | components/tabs/targets-tab.tsx:76-80 | The search keeps store order, and an empty query shows every target. |
| Targets.CountStatusesTotal | components/tabs/targets-tab.tsx:82-87 | The four status counters add up to the number of targets. |
| Campaigns.SelectTargets | components/tabs/campaigns-tab.tsx:45-47 | Every chosen target is a store target that is selected, and every selected store target is chosen. |
| Campaigns.SelectTargetsSpec | components/tabs/campaigns-tab.tsx:45-47 | An empty selection means all targets in store order. Otherwise exactly the targets with a selected id, in store order. |
| Campaigns.NewCampaignDraft | components/tabs/campaigns-tab.tsx:61-70 | A new campaign is paused and carries the form's name, template, delays, times and selected targets. |
| Campaigns.EditKeepsStatusAndCounters | components/tabs/campaigns-tab.tsx:50-58 | An edit overwrites name, template, delays, times and targets, and keeps the id, status, creation time and counters. |
| Campaigns.HandleSubmit | components/tabs/campaigns-tab.tsx:39-76 | Accepted exactly when name and template are non-empty. A rejected submit leaves the campaigns unchanged. An accepted one updates the edited campaign or appends a new paused one. |
| Campaigns.ToggledStatus | components/tabs/campaigns-tab.tsx:110-112 | The result is active if and only if the campaign was not active, and paused if and only if it was. |
| Campaigns.ToggleTwice | components/tabs/campaigns-tab.tsx:110-112 | Toggling twice restores active or paused, but turns completed into paused. |
| Campaigns.ToggleStatus | components/tabs/campaigns-tab.tsx:110-114 | Patches only that campaign's status. |
| Campaigns.DelayInput | components/tabs/campaigns-tab.tsx:178 | The integer parse with a fallback of 1: never 0, 1 when the text is not a number, otherwise the parsed value. |
| Campaigns.DelayInputOfNumber | components/tabs/campaigns-tab.tsx:187 | A typed number is kept, negatives included, except that 0 reads as 1. Nothing orders or bounds the two delays. |
| Campaigns.DelayInputNotNumber | components/tabs/campaigns-tab.tsx:178 | Text that does not start like a number gives 1. |
| Logs.FilteredLogs | components/tabs/logs-tab.tsx:21-26 | Every shown log meets the three conditions, and every log that meets them is shown. |
| Logs.FilteredLogsIff | components/tabs/logs-tab.tsx:21-26 | A log is shown if and only if all three hold: its username contains the query ignoring case; the status filter is "all" or its status; the campaign filter is "all" or its campaign. |
| Logs.FilteredLogsOrdered | components/tabs/logs-tab.tsx:21 | The shown logs keep the store's order. |
| Logs.FilteredLogsAll | components/tabs/logs-tab.tsx:22-24 | An empty query with both filters on "all" shows every log. |
| Logs.FilteredLogsIdempotent | components/tabs/logs-tab.tsx:21-26 | Filtering the shown logs again with the same settings changes nothing. |
| Automation.PendingTargets | components/tabs/automation-tab.tsx:62-64 | Every queued target is pending and comes from the store, and every pending target is queued. |
| Automation.PendingTargetsSpec | components/tabs/automation-tab.tsx:62-64 | The queue is exactly the pending targets, in store order, and is empty exactly when none is pending. |
| Automation.NameValue | components/tabs/automation-tab.tsx:102 | `{name}` becomes the full name when present and non-empty, otherwise the username. |
| Automation.RenderMessage | components/tabs/automation-tab.tsx:100-104 | No template gives `""`. Otherwise the message is the content with `{name}` and then `{username}` replaced. |
| Automation.RenderChunk | components/tabs/automation-tab.tsx:100-104 | Read chunk by chunk, the message replaces `{name}` and `{username}`. It keeps unchanged every other chunk that neither substitution matches where the chunk starts, such as `{company}`. This is provided the name value holds no `{` where `{name}` is filled in, because the second pass rescans inserted text (Automation.NameValueIsRescanned). |
| Automation.KeptChunk | components/tabs/automation-tab.tsx:100-104 | Cut the content before every `{`. Each piece that does not start with `{name}` or `{username}` is kept when the next piece does not start with `{name}`; this includes a lone `{` and an unfinished placeholder. |
| Automation.RenderDoubleBrace | components/tabs/automation-tab.tsx:100-104 | `{{name}}` sends the name value between single braces, provided that value holds no brace and is not `username`. |
| Automation.BracedNotUsername | components/tabs/automation-tab.tsx:103-104 | The second pass cannot find `{username}` in a name value between braces unless that value is `username` or holds a `}`. |
| Automation.RenderTrailingBrace | components/tabs/automation-tab.tsx:100-104 | A trailing `{` is sent as it is. |
| Automation.RenderPlain | components/tabs/automation-tab.tsx:100-104 | Content without `{` is sent as it is. |
| Automation.NameValueIsRescanned | components/tabs/automation-tab.tsx:102-103 | A full name that reads `{username}` is replaced again by the second pass. |
| Automation.RandomDelay | components/tabs/automation-tab.tsx:66-71 | Without a campaign the delay is 60000 ms. With `delayMin <= delayMax` and a random value in `[0, 1)` it is an integer in `[delayMin*60000, delayMax*60000]`. |
| Automation.CeilSeconds | components/tabs/automation-tab.tsx:174 | `Math.ceil(d/1000)`: the smallest whole number of seconds covering the delay. |
| Automation.FormatTimeFields | components/tabs/automation-tab.tsx:268-276 | `hrs*3600 + mins*60 + secs` equals the input, with `mins, secs < 60`. The hours appear only when positive; minutes and seconds follow a colon as exactly two digits. |
| Automation.FormatTimeRoundTrip | components/tabs/automation-tab.tsx:268-276 | Reading the clock text back gives the number of seconds it was made from. |
| Automation.Dispatch | components/tabs/automation-tab.tsx:73-104 | Decides the cycle, in this order: busy when another cycle is in flight; quota reached when `todaySent >= dailyLimit`, checked before the queue; queue empty if and only if nothing is pending; otherwise send to the first pending target with its rendered message. It sends exactly when no cycle is in flight, the quota is not used up and some target is pending. |
| Automation.DispatchFirstPending | components/tabs/automation-tab.tsx:76-97 | The target sent to is pending, and no target before it in the store is. |
| Automation.DispatchIgnoresActiveHours | components/tabs/automation-tab.tsx:392-395 | The campaign's start and end times never change what a cycle does. |
| Automation.ResolvePatch | components/tabs/automation-tab.tsx:112-134 | A send sets the target to sent with a time. A failure with retry sets it back to pending. A failure without retry sets it to failed. No other field is patched. |
| Automation.OutcomeLog | components/tabs/automation-tab.tsx:113-141 | A log is added exactly on a send or on a failure without retry. A send is logged with no error. A failure is logged with error "Gagal mengirim DM". Each log carries the username, the message and the campaign id, or `""` without a campaign. |
| Automation.LogsAfter | components/tabs/automation-tab.tsx:113-141 | With an entry, exactly one log is added in front and the list is capped at 500; without one the logs are unchanged. |
| Automation.CampaignsAfterSend | components/tabs/automation-tab.tsx:119-123 | A send sets the campaign's total to its snapshot value plus one and changes nothing else; a failure leaves the campaigns alone. |
| Automation.CampaignsAfterNoCampaign | components/tabs/automation-tab.tsx:119-123 | Without a selected campaign, a send or a failure leaves the campaigns alone. |
| Automation.Tally | components/tabs/automation-tab.tsx:124-142 | A send adds one to `sent`; a failure without retry adds one to `failed`; a retry changes no counter. |
| Automation.OutcomeTouchesOnlyTarget | components/tabs/automation-tab.tsx:112-134 | With unique ids, an outcome changes only the target at its own index. On retry nothing changes at all, so the target stays at the head of the queue. |
| Automation.ResolvedHeadLeavesQueue | components/tabs/automation-tab.tsx:112-134 | With unique ids, marking the head sent or failed leaves the rest of the queue as the new queue. |
| Automation.PausedIfSelectedIdempotent | components/tabs/automation-tab.tsx:228-230 | Pausing the selected campaign twice equals pausing it once. |
| Automation.AutomationTab.constructor | components/tabs/automation-tab.tsx:44-58 | The initial tab state: nothing selected, infinite mode and retry on, a daily limit of 100, no timers, not processing. |
| Automation.AutomationTab.SelectCampaign | components/tabs/automation-tab.tsx:325 | Sets the selected campaign. |
| Automation.AutomationTab.SetDailyLimit | components/tabs/automation-tab.tsx:344 | Sets the daily limit. |
| Automation.AutomationTab.SetInfiniteMode | components/tabs/automation-tab.tsx:362 | Sets infinite mode. |
| Automation.AutomationTab.SetAutoRetry | components/tabs/automation-tab.tsx:373 | Sets auto-retry. |
| Automation.AutomationTab.BeginCycle | components/tabs/automation-tab.tsx:73-104 | The cycle's decision is `Dispatch` of the snapshot and the live processing flag. A send sets the processing flag and the current target; every other outcome changes nothing and touches no target, log or campaign. |
| Automation.AutomationTab.ApplyOutcome | components/tabs/automation-tab.tsx:107-149 | After the await: targets, logs, the campaign total, the counters and `todaySent` (up by one only on a send) change as the pure outcome functions say. The current target is cleared and the processing flag reset. |
| Automation.AutomationTab.ScheduleNext | components/tabs/automation-tab.tsx:171-178 | Stores the random delay, sets the countdown to its whole seconds, and arms the cycle timer. |
| Automation.AutomationTab.FinishCycle | components/tabs/automation-tab.tsx:163-179 | The loop goes on exactly after a send, or with an empty queue in infinite mode. A busy guard (`undefined`), a reached quota, or an empty queue outside infinite mode stops the session and pauses the campaign, leaving the last delay as it was. Only a send changes targets, logs or counters. |
| Automation.AutomationTab.StartAutomation | components/tabs/automation-tab.tsx:181-220 | Does nothing without a selected campaign, or with an empty queue outside infinite mode. Otherwise: running, current campaign set, the campaign active, `sent = failed = 0`, `total = queued =` the pending count, session clock at 0, both intervals armed, and the first cycle begun on the snapshot. A first cycle that does not send leaves `isProcessing` and the current target as they were. |
| Automation.AutomationTab.StopAutomation | components/tabs/automation-tab.tsx:222-249 | Not running, no current campaign or target, countdown 0, not processing, all three timers cleared, and the selected campaign paused. |
| Automation.AutomationTab.StopAutomationTwice | components/tabs/automation-tab.tsx:222-249 | Stopping twice leaves the same state as stopping once. |
| Automation.AutomationTab.CountdownTick | components/tabs/automation-tab.tsx:206-208 | The countdown goes down by one and never below 0. |
| Automation.AutomationTab.SessionTick | components/tabs/automation-tab.tsx:201-203 | The session clock goes up by one second. |
| Automation.AutomationTab.SyncQueueStats | components/tabs/automation-tab.tsx:261-264 | `queued` is the pending count and `total` is `queued + sent + failed`. |
| Automation.AutomationTab.FrozenCycleRepeats | components/tabs/automation-tab.tsx:163-179 | With the snapshot the loop closes over, the cycle after a send sends to the same target again, although the store records it as sent. |
| Automation.AutomationTab.RunCycle | components/tabs/automation-tab.tsx:73-179 | On the live state, a send or a failure without retry moves the queue on to the next pending target. A retry leaves the targets unchanged. |
| Automation.AutomationTab.StopDuringSend | components/tabs/automation-tab.tsx:107-178 | A stop during the await does not cancel the send. The send is still logged, and the cycle timer is armed again while the session is marked stopped. |
| Automation.AutomationTab.FinishCycleGuarded | components/tabs/automation-tab.tsx:163-179 | The continuation with a stop check still records the outcome, but arms nothing once the session is stopped. |
| Automation.AutomationTab.StopDuringSendGuarded | components/tabs/automation-tab.tsx:222-249 | With the stop check, a stop during a send leaves every timer cleared. |

## Left out

- Rendering, layout, dialogs, toasts and the progress bar. The progress percentage is floating point.
- The settings tab and the overview tab. The first only holds form state; the second only shows aggregates.
- Timers run no real time. `setTimeout` and `setInterval` are handle fields; their callbacks are the methods `FinishCycle`, `CountdownTick` and `SessionTick`, called explicitly. The 1.5–2.5 s simulated latency is not modelled.
- `Math.random`, `crypto.randomUUID()` and `new Date()` are parameters.
- Persistence of the store in local storage is not modelled.
- The unmount clean-up effect only clears the timers and is not modelled.
- Lower-casing in the searches is ASCII only. JavaScript's full Unicode `toLowerCase` is not modelled.
- Automation.RenderMessage: `$` sequences in a name or username (`$&`, `` $` ``, `$'`, `$$`) are copied literally, whereas `String.prototype.replace` would expand them.
- Automation.AutomationTab.SetDailyLimit: the limit is an integer. `Number(value)` can also give a fraction or `NaN`; with `NaN` the quota never trips.
- Text.ParseInt: results are exact integers. Double-precision rounding of very long digit strings is not modelled.
- Automation.FormatTime is defined only for whole non-negative seconds. That covers the session clock (automation-tab.tsx:290). It does not cover the countdown display (automation-tab.tsx:443), which formats `countdown`. The countdown is set to `Math.ceil(delay / 1000)` (automation-tab.tsx:174), so it is negative when a campaign's delays are negative, which the delay inputs allow (Campaigns.DelayInputOfNumber). For such a value the source shows text like `-1:-5`, because JavaScript's `%` keeps the sign and `Math.floor` rounds down. The model does not produce that text.
- Automation.AutomationTab.FinishCycle: on a stop it pauses the campaign id held in the snapshot. The source calls the `stopAutomation` callback from the render that created `runAutomationCycle`, which holds the same selection unless the selection changed without changing the selected campaign.
- The inputs are `disabled` while running. The setters do not model that.
- A cycle runs on an explicit snapshot (`View`). `RunCycle` passes the live state; the other cycle methods take whatever snapshot the caller gives. The model does not claim that the tab as written sees targets added during a session.

## Findings

| source | as written | input that shows it | evidently intended | confidence | as-written member | corrected member |
|---|---|---|---|---|---|---|
| components/tabs/automation-tab.tsx:163-179 | The timer calls back into the `runAutomationCycle` of the render that started the session. Its `processNextTarget` reads the targets, `todaySent` and the campaign as they were at the start. | Two pending targets and a successful first send. The second cycle picks the first target again, although the store marks it sent. The campaign total stays at snapshot + 1, and `todaySent` in the quota check never grows. | Each cycle reads the live targets and counters, so the queue moves on to the next pending target. | not executed | Automation.AutomationTab.FrozenCycleRepeats | Automation.AutomationTab.RunCycle |
| components/tabs/automation-tab.tsx:107-178 | `stopAutomation` clears the timers, but a send already waiting on its `await` goes on. The continuation then arms a new cycle timer. | Start, then stop while the first send is in flight. The send is logged, and `automationRef` holds a new timer while `isRunning` is false, so the loop keeps sending. | Once stopped, the in-flight continuation records its outcome but schedules nothing. | not executed | Automation.AutomationTab.StopDuringSend | Automation.AutomationTab.FinishCycleGuarded |
