# A verified model of a ticket support bot's core

The system is a chat-platform support bot. Users open tickets from panels.
Staff claim, tag, prioritise, close, reopen or soft-delete them, and an
automation sweep warns and then auto-closes idle tickets. Every change is
recorded in an audit log. Around this core sit several smaller stores and
parsers:
- a blacklist of users;
- statistics over the ticket store;
- a `.env` loader with typed getters;
- a translation table with dotted keys and `{placeholder}` substitution;
- the merge of `config.yml` with the environment, and its validation;
- HTML escaping and the choice of transcript formats;
- the moderation-case registry of the moderator addon.

This project models each of these in Dafny and proves what each one
promises. There is one module per source file:

| module | file |
|---|---|
| `TicketManager` | `ticket_manager.dfy` |
| `AutomationManager` | `automation_manager.dfy` |
| `BlacklistManager` | `blacklist_manager.dfy` |
| `Logger` | `logger.dfy` |
| `StatsManager` | `stats_manager.dfy` |
| `EnvLoader` | `env_loader.dfy` |
| `LanguageManager` | `language_manager.dfy` |
| `ConfigHandler` | `config_handler.dfy` |
| `TranscriptGenerator` | `transcript_generator.dfy` |
| `ModCases` | `mod_cases.dfy` |

Some modules are shared:
- `Types` holds `types/index.ts`.
- `Wrappers` holds `Option` and `Result`.
- `Strings` holds the JavaScript string operations the code relies on: `split`, `join`, `trim`, `padStart`, `repeat`, `replace` with a global pattern, ASCII case mapping, and decimal rendering.
- `Sequences` holds order-preserving `filter` and `reverse`.

## How the model is built

- **Stores that change in place are classes.**
  - `TicketStore` holds the ticket map and the key insertion order, which `Object.values` and `Object.entries` follow. It also holds the `AuditLog` it appends to.
  - The other classes are `AuditLog`, `Blacklist`, `Loader` (the `.env` loader), `Manager` (translations), `Handler` (the config cache), `Registry` (moderation cases) and `Monitor` (the sweep timer).
  - Each mutator's `ensures` gives the whole new state. It ties that state to a pure step function on maps: `ClaimStep`, `CloseStep`, `WarnPass`, `ApplyLines` and so on. The properties are lemmas about these step functions.
- **Loops are methods with invariants.** This covers:
  - the two sweep loops, and the reminder loop;
  - the `.env` line loop;
  - the translate walk and its replacement loop;
  - the statistics accumulators and tallies;
  - the channel search;
  - the validation error list.

  Each loop is proved equal to a specification function.
- **Inputs come in as parameters.** These are:
  - the clock (`now`, the weekday, the `HH:MM` string);
  - the outcome of each file read (`EnvFile`, `ConfigFile`, `PanelsFile`, `LangFile`, `CasesFile`);
  - the set of tickets whose channel send succeeds (`delivered`);
  - the outcome of channel creation (`Delivery`);
  - the translated outside-hours text.
- **JavaScript semantics are written out where the code depends on them.**
  - Truthiness: an empty string, `0` and `undefined` are falsy.
  - `x || default`, and `!== false`.
  - Default parameters apply only to `undefined`.
  - `parseInt` reads leading white space, a sign and leading digits.
  - `String.prototype.repeat` throws on a negative count.
  - `x[k]++` on a missing key gives `NaN`, and `slice(-0)` returns the whole array.
  - The JavaScript regex `.` does not match `\r`.

## Model

| member | source | states |
|---|---|---|
| TicketManager.TicketIdFor | src/utils/ticketManager.ts:127-128 | the id is `ticket-` followed by at least four characters |
| TicketManager.TicketIdInjective | src/utils/ticketManager.ts:127-128 | distinct ticket numbers give distinct ids, also beyond 9999 where the padding stops |
| TicketManager.FirstIdsCard | src/utils/ticketManager.ts:127-128 | the ids of tickets 1..n are n distinct strings, and the id of ticket n+1 is not among them |
| TicketManager.NextTicketIdFresh | src/utils/ticketManager.ts:127-128 | when the keys are exactly ticket-0001…ticket-n, the id derived from the store size is a new key, and adding it gives ticket-0001…ticket-(n+1) |
| TicketManager.SeedMessages | src/utils/ticketManager.ts:187-192 | one opening message per answer, in answer order, authored by the opener, with timestamps `now + i` |
| TicketManager.NewTicket | src/utils/ticketManager.ts:174-194 | a new record is OPEN with MEDIUM priority, no tags, no claim, not warned, `createdAt = lastActivity = now`, and the seeded messages |
| TicketManager.CreateStep | src/utils/ticketManager.ts:104-282 | an opener at the per-user limit of OPEN or CLAIMED tickets, a missing panel or a refused channel leaves the store unchanged; otherwise exactly the new record (`NewTicket` with the welcome message's id) is stored under the size-derived id, the id joins the key order, and the channel is returned iff the welcome message and any out-of-hours notice were posted |
| TicketManager.CreateStepUsesSlot | src/utils/ticketManager.ts:119-128 | a successful creation raises the opener's count of active tickets by exactly one; a refused one leaves it as it was |
| TicketManager.CloseFreesSlot | src/utils/ticketManager.ts:119-125 | closing an active ticket lowers its opener's count of active tickets by one, since CLOSED tickets do not count against the limit |
| TicketManager.CreateUsesSlot | src/utils/ticketManager.ts:119-125 | storing a new OPEN ticket raises its opener's active count by one |
| TicketManager.ClaimStep | src/utils/ticketManager.ts:284-310 | a claim succeeds iff the ticket exists, is not CLOSED and has no truthy claimer, so DELETED tickets can be claimed; on success the record is the old one with the claimer, the claimer's name and CLAIMED set; on failure nothing changes; no other ticket changes |
| TicketManager.UnclaimStep | src/utils/ticketManager.ts:312-334 | an unclaim succeeds iff the ticket has a truthy claimer; the record is then the old one with both claim fields removed and OPEN set; on failure nothing changes |
| TicketManager.PriorityStep | src/utils/ticketManager.ts:336-356 | succeeds iff the ticket exists; the record is then the old one with only the priority replaced; on failure nothing changes |
| TicketManager.AddTagStep | src/utils/ticketManager.ts:358-378 | fails on a missing ticket or a duplicate tag and changes nothing; otherwise the record is the old one with the tag appended at the end |
| TicketManager.Without | src/utils/ticketManager.ts:390 | the tag list with every occurrence of the tag removed, and nothing else removed |
| TicketManager.RemoveTagStep | src/utils/ticketManager.ts:380-400 | fails if the ticket is missing or the tag is absent and changes nothing; otherwise the record is the old one with every occurrence of the tag removed |
| TicketManager.MessageStep | src/utils/ticketManager.ts:402-415 | the record is the old one with exactly one message appended, `lastActivity = now`, `inactivityWarned = false` and no warning time, so status, claim, tags, priority and rating stay; a missing id changes nothing |
| TicketManager.CloseStep | src/utils/ticketManager.ts:417-438 | fails iff the ticket is missing or already CLOSED; otherwise it changes only the status to CLOSED and `lastActivity`, so the claim fields stay |
| TicketManager.ReopenStep | src/utils/ticketManager.ts:440-461 | only a CLOSED ticket is reopened: it becomes OPEN with `lastActivity = now`, and nothing else changes |
| TicketManager.DeleteStep | src/utils/ticketManager.ts:463-483 | any existing ticket becomes DELETED and no key is ever removed |
| TicketManager.RatingStep | src/utils/ticketManager.ts:485-507 | on an existing ticket the record is the old one with the rating and the feedback set, and everything else kept; a missing id changes nothing |
| TicketManager.WarnStep | src/utils/ticketManager.ts:540-549 | the record is the old one with the warned flag and the warning time set, so messages, claim, tags, status and `lastActivity` stay; a missing id changes nothing |
| TicketManager.SecondClaimFails | src/utils/ticketManager.ts:292-294 | after a successful claim a second claim fails, changes nothing and keeps the first claimer |
| TicketManager.UnclaimUndoesClaim | src/utils/ticketManager.ts:284-334 | on an unclaimed OPEN ticket, unclaim after claim restores the store exactly |
| TicketManager.UnclaimAfterCloseReopens | src/utils/ticketManager.ts:312-334 | closing keeps the claimer, so unclaiming a closed claimed ticket succeeds and sets it OPEN |
| TicketManager.CloseThenReopen | src/utils/ticketManager.ts:417-461 | a second close fails and changes nothing; reopen after close gives the original ticket, OPEN, with the new `lastActivity` |
| TicketManager.AddTagTwice | src/utils/ticketManager.ts:363-365 | adding the same tag twice fails the second time |
| TicketManager.RemoveUndoesAdd | src/utils/ticketManager.ts:358-400 | removing a newly added tag restores the store exactly |
| TicketManager.TagsStayDistinct | src/utils/ticketManager.ts:358-400 | a duplicate-free tag list stays duplicate-free under add and remove |
| TicketManager.ValuesOf | src/utils/ticketManager.ts:524-527 | `Object.values`: the tickets in key insertion order |
| TicketManager.ValuesMembers | src/utils/ticketManager.ts:524-527 | every stored ticket appears in the values, and nothing else does |
| TicketManager.OpenTickets | src/utils/ticketManager.ts:529-533 | exactly the OPEN or CLAIMED tickets, without introducing duplicates |
| TicketManager.InactiveTickets | src/utils/ticketManager.ts:535-538 | exactly the OPEN or CLAIMED tickets with `lastActivity < now − minutes·60000` |
| TicketManager.FirstByChannel | src/utils/ticketManager.ts:509-517 | the first key in insertion order whose ticket has the channel and is not DELETED; none iff no such ticket exists |
| TicketManager.TicketStore.GetTicketByChannel | src/utils/ticketManager.ts:509-517 | the search loop returns the entry `FirstByChannel` names, so a DELETED ticket is never returned |
| TicketManager.TicketStore.TicketById | src/utils/ticketManager.ts:519-522 | the stored ticket under the id, or none |
| TicketManager.TicketStore.All | src/utils/ticketManager.ts:524-527 | every stored ticket once, each under its own id |
| TicketManager.CheckWorkingHours | src/utils/ticketManager.ts:58-102 | inside hours for a missing panel or disabled hours; outside hours on a day that is missing or disabled; a notice exactly when outside |
| TicketManager.WorkingHoursInclusive | src/utils/ticketManager.ts:92 | on an enabled day, inside hours iff start ≤ time ≤ end in minutes, because the string comparison of `HH:MM` times is chronological and both bounds are inclusive |
| TicketManager.KeyedInsert | src/utils/ticketManager.ts:194 | storing a ticket under its own id keeps the map and the insertion order in step |
| TicketManager.TicketStore.CreateTicket | src/utils/ticketManager.ts:104-282 | the new state is `CreateStep` of the old one; the audit log gains the creation entry exactly when a channel was returned |
| TicketManager.TicketStore.ClaimTicket | src/utils/ticketManager.ts:284-310 | the new map is `ClaimStep` of the old one, and one `TICKET_CLAIMED` entry is logged iff it succeeds |
| TicketManager.TicketStore.UnclaimTicket | src/utils/ticketManager.ts:312-334 | the new map is `UnclaimStep` of the old one; the entry names the opener, not the staff member |
| TicketManager.TicketStore.SetPriority | src/utils/ticketManager.ts:336-356 | the new map is `PriorityStep`, with one `PRIORITY_CHANGED` entry on success |
| TicketManager.TicketStore.AddTag | src/utils/ticketManager.ts:358-378 | the new map is `AddTagStep`, with one `TAG_ADDED` entry on success |
| TicketManager.TicketStore.RemoveTag | src/utils/ticketManager.ts:380-400 | the new map is `RemoveTagStep`, with one `TAG_REMOVED` entry on success |
| TicketManager.TicketStore.AddMessage | src/utils/ticketManager.ts:402-415 | the new map is `MessageStep`, and nothing is logged |
| TicketManager.TicketStore.CloseTicket | src/utils/ticketManager.ts:417-438 | the new map is `CloseStep`, with one `TICKET_CLOSED` entry on success |
| TicketManager.TicketStore.ReopenTicket | src/utils/ticketManager.ts:440-461 | the new map is `ReopenStep`, with one `TICKET_REOPENED` entry on success |
| TicketManager.TicketStore.DeleteTicket | src/utils/ticketManager.ts:463-483 | the new map is `DeleteStep`, with one `TICKET_DELETED` entry on success |
| TicketManager.TicketStore.SetRating | src/utils/ticketManager.ts:485-507 | the new map is `RatingStep`; the `RATING_SUBMITTED` entry carries the opener, `rating/5` and the rating metadata |
| TicketManager.TicketStore.SetInactivityWarned | src/utils/ticketManager.ts:540-549 | the new map is `WarnStep` of the old one |
| AutomationManager.Monitor.StartMonitoring | src/utils/automationManager.ts:12-24 | a no-op while a timer is set; otherwise it stores the new handle |
| AutomationManager.Monitor.StopMonitoring | src/utils/automationManager.ts:26-32 | clears the handle it returns, and running it again clears nothing |
| AutomationManager.StartStopIdempotent | src/utils/automationManager.ts:12-32 | a second start keeps the first timer, a stop clears it, and a second stop is a no-op |
| AutomationManager.ToWarn | src/utils/automationManager.ts:46-48 | exactly the active tickets idle past the warning time that are not yet warned |
| AutomationManager.ToClose | src/utils/automationManager.ts:77-79 | exactly the active tickets idle past the timeout that are already warned; there is no grace period from the warning time |
| AutomationManager.SweepPerTicket | src/utils/automationManager.ts:34-104 | a sweep closes a ticket iff it is delivered to, active, idle past the timeout, and warned before or during this sweep; it never changes id, messages or claimer |
| AutomationManager.WarnPass | src/utils/automationManager.ts:45-75 | keeps every key; a ticket is warned afterwards iff it was before or it was due and its warning arrived; status, activity, messages, claimer and id are kept |
| AutomationManager.ClosePass | src/utils/automationManager.ts:76-101 | keeps every key; a ticket is CLOSED afterwards iff it was before or it was due and its notice arrived; the warned flag, messages, claimer and id are kept |
| AutomationManager.Sweep | src/utils/automationManager.ts:34-104 | keeps every key; with auto-close off nothing changes; no ticket's messages, claimer or id change |
| AutomationManager.SweepOffIsIdentity | src/utils/automationManager.ts:38-40 | with `auto_close` off the sweep changes no ticket |
| AutomationManager.WarnAndCloseInOneSweep | src/utils/automationManager.ts:46-94 | because the close query re-reads the store after the warn loop, an unwarned ticket idle past both thresholds is warned and closed in the same sweep |
| AutomationManager.MessageAfterWarningPreventsClose | src/utils/automationManager.ts:77-94 | a message after the warning clears the flag and refreshes `lastActivity`, so the next sweep does not close the ticket |
| AutomationManager.ClosedTicketUntouched | src/utils/automationManager.ts:77-79 | a CLOSED ticket passes through a sweep unchanged |
| AutomationManager.SweepClosesOnce | src/utils/automationManager.ts:77-79 | a ticket closed by one sweep is left alone by the next, so it is closed exactly once |
| AutomationManager.CloseEntries | src/utils/automationManager.ts:94 | one `TICKET_CLOSED` entry per auto-closed ticket, in order, under the bot's identity |
| AutomationManager.WarnEach | src/utils/automationManager.ts:50-74 | the warn loop marks exactly the selected tickets whose send succeeded, and a failed send skips only that ticket |
| AutomationManager.WarnOne | src/utils/automationManager.ts:51-73 | one warn iteration marks the ticket iff its send succeeds |
| AutomationManager.CloseEach | src/utils/automationManager.ts:81-100 | the close loop closes exactly the selected tickets whose send succeeded, and logs one entry each in order |
| AutomationManager.CloseOne | src/utils/automationManager.ts:82-99 | one close iteration closes and logs the ticket iff its send succeeds |
| AutomationManager.WarnEachIsWarnPass | src/utils/automationManager.ts:46-74 | the warn loop over `getInactiveTickets` in store order computes the order-free warn pass |
| AutomationManager.CloseEachIsClosePass | src/utils/automationManager.ts:77-100 | the close loop over the re-read store computes the order-free close pass |
| AutomationManager.CheckInactivity | src/utils/automationManager.ts:34-104 | the new ticket map is the sweep of the old one; with `auto_close` off nothing is logged, and otherwise the log gains exactly the close entries of the delivered close set |
| AutomationManager.WarnPhase | src/utils/automationManager.ts:45-74 | the store after the warn loop is the warn pass of the store before it |
| AutomationManager.ClosePhase | src/utils/automationManager.ts:76-100 | the store after the close loop is the close pass, and the log records each delivered close |
| AutomationManager.StaffReminderTickets | src/utils/automationManager.ts:111-113 | exactly the active tickets idle past the reminder time whose only message is from the opener |
| AutomationManager.MinutesWaiting | src/utils/automationManager.ts:120 | the floor of the idle time in minutes |
| AutomationManager.StaffPings | src/utils/automationManager.ts:134 | no roles give an empty ping string |
| AutomationManager.Mentions | src/utils/automationManager.ts:134 | one `<@&id>` mention per role, in role order |
| AutomationManager.StaffPingsSplit | src/utils/automationManager.ts:134 | for role ids without spaces the ping string splits at spaces back into one `<@&id>` mention per role, in role order |
| AutomationManager.RemindersFor | src/utils/automationManager.ts:115-141 | one reminder per ticket, in order, with its waiting minutes |
| AutomationManager.CheckStaffResponse | src/utils/automationManager.ts:106-145 | the reminders sent are exactly those for the delivered tickets awaiting staff, and no ticket is mutated |
| AutomationManager.SendReminders | src/utils/automationManager.ts:115-141 | the reminder loop sends to exactly the delivered tickets, in order |
| AutomationManager.RemindersAreForWaitingTickets | src/utils/automationManager.ts:111-141 | every reminder is for a delivered, stored, active ticket awaiting staff |
| AutomationManager.WorkingHoursString | src/utils/automationManager.ts:183-190 | a schedule without an enabled day gives an empty string |
| AutomationManager.EnabledDays | src/utils/automationManager.ts:185-187 | an entry `day: start-end` is listed iff its day is enabled, and nothing else is listed |
| AutomationManager.EnabledDaysAppend | src/utils/automationManager.ts:185-187 | the days of a schedule in two parts are those of the first part, then those of the second, so the listing keeps schedule order |
| AutomationManager.WorkingHoursStringOne | src/utils/automationManager.ts:183-190 | a one-day schedule gives `day: start-end` if that day is enabled, and an empty string otherwise |
| AutomationManager.WorkingHoursStringAppend | src/utils/automationManager.ts:183-190 | a schedule in two parts gives the listing of each part, joined by `, ` when both list a day |
| AutomationManager.NoEnabledDays | src/utils/automationManager.ts:185-187 | a schedule without an enabled day lists no days |
| AutomationManager.CheckWorkingHours | src/utils/automationManager.ts:147-181 | open when the hours are missing or disabled; a message exactly when closed, naming the enabled days |
| AutomationManager.HoursChecksAgree | src/utils/automationManager.ts:150-178 | given the same weekday and clock reading, this check is open exactly when the panel check is inside hours |
| AutomationManager.CheckStoreOverload | src/utils/automationManager.ts:192-197 | on the store: overloaded iff at least `limit` stored tickets are OPEN or CLAIMED |
| BlacklistManager.ReasonOf | src/utils/blacklistManager.ts:40 | a missing reason becomes `No reason provided`; a given one, even empty, is kept |
| BlacklistManager.Blacklist.AddUser | src/utils/blacklistManager.ts:40-52 | sets or overwrites exactly the entry under the user's id |
| BlacklistManager.Blacklist.RemoveUser | src/utils/blacklistManager.ts:54-65 | returns true iff the key was present, deletes it, and on false changes nothing |
| BlacklistManager.Blacklist.IsBlacklisted | src/utils/blacklistManager.ts:67-70 | true iff the id is a key of the map |
| BlacklistManager.Blacklist.GetEntry | src/utils/blacklistManager.ts:76-79 | the stored entry exactly when the user is blacklisted, and null otherwise |
| BlacklistManager.AddRemoveRoundTrip | src/utils/blacklistManager.ts:40-79 | after an add the user is barred with the new entry; after a remove the user is not barred and a second remove fails; other users' entries are unchanged |
| Logger.AuditLog.Log | src/utils/logger.ts:45-69 | appends exactly one entry with the given fields at the end, returns it, and keeps the earlier entries |
| Logger.RecentLogs | src/utils/logger.ts:145-147 | the last min(limit, n) entries, newest first; limit 0 gives every entry reversed; a negative limit drops that many of the oldest |
| Logger.LogsByTicket | src/utils/logger.ts:149-151 | exactly the entries of the ticket |
| Logger.LogsByTicketAppend | src/utils/logger.ts:149-151 | an appended entry joins the ticket's entries at the end iff it is about that ticket, so they keep log order and multiplicity |
| Logger.LogsByType | src/utils/logger.ts:153-155 | exactly the entries of the type |
| Logger.LogsByTypeAppend | src/utils/logger.ts:153-155 | an appended entry joins the entries of its own type at the end and no other, so they keep log order and multiplicity |
| Logger.NewerThan | src/utils/logger.ts:159 | exactly the entries newer than the cutoff; their order is stated by `PruneAfterAppend` |
| Logger.AuditLog.ClearOldLogs | src/utils/logger.ts:157-162 | keeps exactly the entries with `timestamp > now − days·86400000` |
| Logger.PruneAfterAppend | src/utils/logger.ts:157-162 | pruning after an append keeps the new entry iff it is newer than the cutoff, and prunes the rest as before |
| Logger.PruneNothingOld | src/utils/logger.ts:157-162 | pruning a log with only recent entries keeps it whole |
| Logger.LogTitle | src/utils/logger.ts:109-125 | every log type has its own title, so the fallback to the raw type is never used |
| Logger.LogTitlesDistinct | src/utils/logger.ts:110-123 | distinct log types have distinct titles |
| Logger.LogColor | src/utils/logger.ts:127-143 | every log type has a colour in the 24-bit range |
| StatsManager.ClosedTickets | src/utils/statsManager.ts:12 | exactly the CLOSED tickets |
| StatsManager.OpenPlusClosedAtMostTotal | src/utils/statsManager.ts:10-17 | open plus closed is at most the total |
| StatsManager.FirstOther | src/utils/statsManager.ts:39 | the index of the first message not by the opener, or none when every message is by the opener |
| StatsManager.MeanFloor | src/utils/statsManager.ts:48 | the floor of sum/(count·unit), or 0 without samples |
| StatsManager.Accumulate | src/utils/statsManager.ts:33-46 | the loop's total and count are the sum and number of samples |
| StatsManager.NoSampleZeroSum | src/utils/statsManager.ts:31 | without samples the sum is 0, so the early `return 0` agrees with the general formula |
| StatsManager.AvgResponseTime | src/utils/statsManager.ts:30-49 | the floor in minutes of the mean first-response delay over closed tickets with at least two messages and one by someone else, or 0 |
| StatsManager.AvgResolutionTime | src/utils/statsManager.ts:51-66 | the floor in hours of the mean `lastActivity − createdAt` over closed tickets with a truthy `createdAt`, or 0 |
| StatsManager.BumpCounts | src/utils/statsManager.ts:80 | one increment raises that key's count by one and the total by one |
| StatsManager.BumpKeys | src/utils/statsManager.ts:80 | an increment keeps the keys distinct and adds no key except its own |
| StatsManager.CategoryTallyCounts | src/utils/statsManager.ts:76-84 | each category appears once, with the number of its tickets, and the counts sum to the total |
| StatsManager.CategoryTally | src/utils/statsManager.ts:76-84 | the counts add up to the number of tickets, and there are at most as many categories as tickets |
| StatsManager.StaffTallyCounts | src/utils/statsManager.ts:86-96 | each claimer name appears once, with its claimed tickets including closed ones, and the counts sum to the claimed tickets |
| StatsManager.StaffTally | src/utils/statsManager.ts:86-96 | the counts add up to the number of tickets with a claimer name, and there are at most that many names |
| StatsManager.TicketsByCategory | src/utils/statsManager.ts:76-84 | the loop computes the category tally |
| StatsManager.TicketsByStaff | src/utils/statsManager.ts:86-96 | the loop computes the staff tally |
| StatsManager.DistributionCounts | src/utils/statsManager.ts:98-108 | keys 1–5 count the closed tickets with that rating; any other truthy rating yields its own key holding NaN |
| StatsManager.Distribution | src/utils/statsManager.ts:98-108 | keys 1–5 are always present and hold numbers; a rating of 0 never creates a key |
| StatsManager.RatingDistribution | src/utils/statsManager.ts:98-108 | the loop computes that distribution |
| StatsManager.LeaderIsFirstMaximum | src/utils/statsManager.ts:116-118 | the `reduce` with strict `>` returns an entry with the greatest count, the first such |
| StatsManager.TallyLeader | src/utils/statsManager.ts:114-120 | null on an empty tally; otherwise the first entry with the greatest count |
| StatsManager.CalculateStats | src/utils/statsManager.ts:9-28 | total, open and closed counts, the two averages, the tallies and the distribution, each as specified; open + closed ≤ total |
| StatsManager.TopStaff | src/utils/statsManager.ts:110-121 | null iff no ticket was claimed; otherwise a claimer's name with its claimed count |
| StatsManager.BusiestCategory | src/utils/statsManager.ts:123-134 | null iff there are no tickets; otherwise a category with the greatest number of tickets |
| EnvLoader.ParseLineMatches | src/utils/envLoader.ts:33-35 | a line yields (key, value) iff it is `KEY=VALUE` with KEY in `[A-Z_][A-Z0-9_]*` and a value without a line terminator |
| EnvLoader.ParseLine | src/utils/envLoader.ts:33-35 | a match splits the line into a valid key without `=`, the `=`, and a value without line terminators |
| EnvLoader.ApplyLine | src/utils/envLoader.ts:26-41 | a line changes nothing or sets its own key to the trimmed value, and never overwrites a non-empty value |
| EnvLoader.ApplyLines | src/utils/envLoader.ts:26-41 | applying the file's lines keeps every key and every non-empty value |
| EnvLoader.CarriageReturnLineIgnored | src/utils/envLoader.ts:33 | a line ending in `\r` never matches |
| EnvLoader.SkippedLinesNeverMatch | src/utils/envLoader.ts:28-30 | blank lines and `#` comment lines set nothing |
| EnvLoader.LoadKeepsSetValues | src/utils/envLoader.ts:36-39 | a non-empty value already set is never overwritten, no key disappears, and every new key comes from a matching line |
| EnvLoader.LineSetsUnsetKey | src/utils/envLoader.ts:36-39 | a matching line for an unset or empty key stores the trimmed value |
| EnvLoader.Loader.Load | src/utils/envLoader.ts:8-49 | runs once: afterwards `loaded` is set and later calls change nothing; with a file the new environment is the line-by-line application of its lines; without a file or on an error it is unchanged |
| EnvLoader.LoadOnce | src/utils/envLoader.ts:8-49 | a second load with a different file does not change a value the first load set |
| EnvLoader.LeadingDigits | src/utils/envLoader.ts:76 | the longest prefix of decimal digits |
| EnvLoader.ParseInt | src/utils/envLoader.ts:76 | a number (not `NaN`) iff a digit follows the leading white space and an optional sign; a negative result needs a minus sign; without one the result is the value of the leading digits |
| EnvLoader.ParseIntReadsDecimal | src/utils/envLoader.ts:76 | `parseInt` reads back the decimal rendering of any integer, also when a non-digit follows |
| EnvLoader.Get | src/utils/envLoader.ts:51-53 | the value when it is non-empty, otherwise the default |
| EnvLoader.GetRequired | src/utils/envLoader.ts:55-61 | fails with `Required environment variable KEY is not set` iff the value is unset or empty |
| EnvLoader.GetBoolean | src/utils/envLoader.ts:63-69 | the default when unset or empty, otherwise true iff it lowercases to `true` or equals `1` |
| EnvLoader.GetNumber | src/utils/envLoader.ts:71-78 | the default when unset, empty or not a number, otherwise the leading integer |
| EnvLoader.ListItems | src/utils/envLoader.ts:85 | exactly the non-empty trimmed pieces between commas: each item is non-empty, comma-free and already trimmed |
| EnvLoader.ListItemsAppend | src/utils/envLoader.ts:85 | the items of `a,b` are the items of `a` followed by the items of `b`, so the items keep their order |
| EnvLoader.ListItemsRoundTrip | src/utils/envLoader.ts:85 | a comma-joined list of trimmed non-empty items splits back into the same items |
| EnvLoader.GetArray | src/utils/envLoader.ts:80-86 | the default when unset or empty, otherwise the list items |
| LanguageManager.Manager.LoadLanguage | src/utils/languageManager.ts:26-43 | stores the parsed document, even an empty one; a missing file or an error changes nothing |
| LanguageManager.Manager.constructor | src/utils/languageManager.ts:15-17 | the current language is `en`, and its file is loaded |
| LanguageManager.Manager.SetLanguage | src/utils/languageManager.ts:45-56 | loads the language only if absent; returns true iff the language is present afterwards, switching to it; on false the current language is kept |
| LanguageManager.Manager.Translate | src/utils/languageManager.ts:62-87 | the walk and replacement loops compute `Translation`: the key when there is no truthy document or a segment is missing, otherwise the rendered value with each replacement applied to every occurrence |
| LanguageManager.Manager.T | src/utils/languageManager.ts:89-91 | the same result as `translate` |
| LanguageManager.MissingSegmentGivesKey | src/utils/languageManager.ts:70-76 | a missing segment at any depth makes the lookup fail, so the key is returned |
| LanguageManager.Translation | src/utils/languageManager.ts:62-87 | the key itself without a truthy document or when a segment is missing; otherwise, with no replacements or an empty set of replacements, the rendered value |
| LanguageManager.SubstituteAbsent | src/utils/languageManager.ts:80-84 | replacements whose placeholders do not occur leave the text unchanged |
| LanguageManager.ReplaceJoined | src/utils/languageManager.ts:82 | a global replace substitutes every occurrence of the placeholder and changes nothing else |
| LanguageManager.TranslateFillsPlaceholder | src/utils/languageManager.ts:62-87 | a value with `{p}` between literal pieces translates to the pieces joined by the replacement |
| LanguageManager.UnknownLanguage | src/utils/languageManager.ts:45-68 | with no `en` document every key translates to itself, and switching to a missing language fails and keeps `en` |
| ConfigHandler.Pick | src/utils/configHandler.ts:45-65 | a string setting takes the non-empty env value, else the truthy YAML value, else the hard default |
| ConfigHandler.OrNumber | src/utils/configHandler.ts:79-83 | a YAML number of 0 or none falls back to the default |
| ConfigHandler.NotFalse | src/utils/configHandler.ts:96-98 | the transcript flags are true unless the YAML value is exactly `false` |
| ConfigHandler.EnvOverridesYaml | src/utils/configHandler.ts:41-121 | env wins over YAML for token and guild id; without env the YAML value or `""` is used; the log channel, the bot name default, staff roles, `send_to_user` and working hours follow their rules |
| ConfigHandler.MergeFeatures | src/utils/configHandler.ts:68-75 | each flag is decided by its set variable (`true` in any case, or `1`), otherwise it is the YAML flag, off when absent |
| ConfigHandler.MergeAutomation | src/utils/configHandler.ts:78-84 | each limit is its variable when that parses as an integer, else the non-zero YAML value, else the default 2880, 1440, 60, 3 or 50 |
| ConfigHandler.MergeTranscripts | src/utils/configHandler.ts:94-99 | the format is the env value, else the YAML value, else `html`; each send flag is on unless the YAML says `false` |
| ConfigHandler.MergeAi | src/utils/configHandler.ts:102-108 | enabled only by a YAML `true`; provider, key and model from the env when set, else from the YAML; the delay is the non-zero YAML value or 5 |
| ConfigHandler.StaffRolesFrom | src/utils/configHandler.ts:49-51 | the roles listed in the variable when it lists at least one, otherwise the YAML roles or none |
| ConfigHandler.MergeWithEnv | src/utils/configHandler.ts:41-121 | a required setting is empty iff neither the env nor the YAML gives it a non-empty value; working hours and image URLs come from the YAML only; absent tags give the default tags |
| ConfigHandler.TimeoutPrecedence | src/utils/configHandler.ts:80 | an env `INACTIVITY_TIMEOUT` holding a decimal integer wins; without it a YAML 0 falls back to 2880 |
| ConfigHandler.ConfigErrors | src/utils/configHandler.ts:123-144 | one error per empty field among token, guild id and ticket category, with the source's messages |
| ConfigHandler.ValidateConfig | src/utils/configHandler.ts:123-144 | the loop gathers exactly those errors and succeeds iff all three are set |
| ConfigHandler.FreshInstallIsInvalid | src/utils/configHandler.ts:201-240 | the generated default file, with no environment, fails validation on all three fields |
| ConfigHandler.YamlOf | src/utils/configHandler.ts:14-39 | a missing file gives the default document, an unreadable one gives nothing, and a parsed one gives its document |
| ConfigHandler.Handler.LoadConfig | src/utils/configHandler.ts:14-39 | loads the environment, caches the merged configuration before validating it, and succeeds iff it has no errors |
| ConfigHandler.Handler.LoadPanels | src/utils/configHandler.ts:146-161 | caches the parsed panels, even an empty document; a missing or unreadable file fails and keeps the cache |
| ConfigHandler.Handler.GetConfig | src/utils/configHandler.ts:163-168 | returns the cached configuration without loading; otherwise loads as `loadConfig` does, and a returned configuration is the one now cached |
| ConfigHandler.Handler.GetPanels | src/utils/configHandler.ts:170-175 | returns the cached panels without loading; otherwise a parsed file's document is returned and cached, and a missing or unreadable file fails with the cache unchanged |
| ConfigHandler.Handler.Reload | src/utils/configHandler.ts:177-184 | clears both caches and reloads; it succeeds iff the configuration is valid and the panels file is read |
| ConfigHandler.InvalidConfigIsCached | src/utils/configHandler.ts:14-39 | an invalid configuration is cached before the error, so the first `getConfig` fails and the second returns the invalid configuration |
| TranscriptGenerator.EscapeChar | src/utils/transcriptGenerator.ts:286-293 | the five special characters become entities, and every other character stays as it is |
| TranscriptGenerator.EscapeHtml | src/utils/transcriptGenerator.ts:285-294 | every character is replaced where it stands, so the output is never shorter than the input |
| TranscriptGenerator.EscapeHtmlSafe | src/utils/transcriptGenerator.ts:285-294 | the escaped text contains no `<`, `>`, `"` or `'`, so user text cannot open markup or close an attribute |
| TranscriptGenerator.EscapePlainIsIdentity | src/utils/transcriptGenerator.ts:293 | text without special characters is unchanged |
| TranscriptGenerator.EscapeAppend | src/utils/transcriptGenerator.ts:293 | each character is replaced where it stands, so escaping distributes over concatenation |
| TranscriptGenerator.EscapedLength | src/utils/transcriptGenerator.ts:286-293 | output length is `|s| + 4·#& + 3·#< + 3·#> + 5·#" + 5·#'` |
| TranscriptGenerator.UnescapeEscape | src/utils/transcriptGenerator.ts:285-294 | reading the entities back gives the original text |
| TranscriptGenerator.EscapeInjective | src/utils/transcriptGenerator.ts:285-294 | distinct texts escape to distinct texts |
| TranscriptGenerator.RatingBar | src/utils/transcriptGenerator.ts:252-257 | no feedback section for a missing or zero rating; a rating below 0 or above 5 makes `repeat` throw; otherwise five symbols, the first `rating` of them filled |
| TranscriptGenerator.RatedBarCounts | src/utils/transcriptGenerator.ts:255 | a rating r in 1..5 gives exactly r filled and 5 − r empty stars |
| TranscriptGenerator.Generate | src/utils/transcriptGenerator.ts:267-279 | one path for `html` (also the default) or `txt`, both paths with HTML first for `both`, and none for any other format |
| ModCases.CaseId | addons/mod.js:51 | `CASE-` followed by the counter left-padded with zeros to six digits |
| ModCases.CaseIdInjective | addons/mod.js:51 | distinct non-negative counters give distinct ids |
| ModCases.CaseIdDigits | addons/mod.js:51 | up to 999999 the id has exactly six digits, which read back as the counter |
| ModCases.ReasonOf | addons/mod.js:63 | a falsy reason becomes `No reason provided` |
| ModCases.CountAfterAdd | addons/mod.js:68 | recording a case under a new id raises its target's count of its type by one and changes no other count |
| ModCases.UserCounts | addons/mod.js:350-354 | the warning and mute counts are zero iff the user has no case of that type |
| ModCases.FindCase | addons/mod.js:396-397 | the lookup upper-cases the requested id first |
| ModCases.FindCaseIgnoresCase | addons/mod.js:396-397 | a case id typed in lower case, or as issued, finds the case |
| ModCases.MapOf | addons/mod.js:27 | `new Map(entries)` has exactly the entries' ids as keys |
| ModCases.MapOfLastWins | addons/mod.js:27 | for a repeated id the last entry wins |
| ModCases.StoredCounter | addons/mod.js:28 | the stored counter, or 1 when it is missing or 0 |
| ModCases.IssueKeepsIdsBelow | addons/mod.js:51-69 | the counter's id is free, and issuing it keeps every issued id below the advanced counter |
| ModCases.Registry.LoadCases | addons/mod.js:23-34 | a stored file replaces cases and counter; a missing or unreadable file changes nothing |
| ModCases.Registry.CreateCase | addons/mod.js:50-73 | stores the case under `CaseId(counter)` and raises the counter by exactly one; on a valid registry the id was free, so no earlier case is replaced |
| ModCases.TwoCases | addons/mod.js:50-73 | successive cases get distinct ids, both stay recorded, and each counts against its target |
| Strings.JoinSplit | src/utils/envLoader.ts:24 | `split` then `join` on the same separator gives the text back |
| Strings.SplitJoin | src/utils/envLoader.ts:85 | `join` then `split` gives the pieces back when no piece holds the separator |
| Strings.SplitAppend | src/utils/envLoader.ts:85 | splitting at a separator between two texts gives the pieces of the first, then those of the second |
| Strings.JoinAppend | src/utils/automationManager.ts:189 | joining two non-empty lists puts one separator between their joins |
| Strings.TrimIdempotent | src/utils/envLoader.ts:38 | trimming twice is trimming once |
| Strings.TrimEmptyIffAllSpace | src/utils/envLoader.ts:28 | a line trims to empty iff it is all white space |
| Strings.ClockLexIsChronological | src/utils/ticketManager.ts:92 | for `HH:MM` strings the string order is the order of the times |
| Strings.PaddedDecimalValue | src/utils/ticketManager.ts:128 | a zero-padded decimal is all digits and reads back as the number |
| Strings.PaddedDecimalInjective | src/utils/ticketManager.ts:128 | zero-padded decimals of distinct numbers differ |

## Left out

- Chat-platform I/O is not modelled: channel creation, sends, embeds, buttons, fetches and permission overwrites. A send's success is the `delivered` set and channel creation is the `Delivery` outcome.
- File persistence is not modelled: the JSON reads and writes of tickets, logs, blacklist and cases (including `saveCases`), the statistics file (`saveStats`, called by `calculateStats`, and `loadStats`), and the log file writes. Every load is an outcome parameter or the in-memory value.
- YAML parsing is not modelled. Parsed documents arrive typed, and non-string YAML scalars in string fields are not modelled.
- Timers and interleaving are not modelled. `setInterval`, the un-awaited concurrent sweeps and the delayed channel deletion are left out; one sweep is one sequential method.
- The clock and time zones are not modelled: `Date.now`, `toLocaleDateString` and `toLocaleTimeString` are parameters.
- Floating point is not modelled: `calculateAvgRating` and its rounding are left out. The integer averages are exact floors over integers.
- JavaScript numbers are doubles, exact only below 2^53. The model's timestamps, `parseInt` results, counters and tallies are unbounded integers, so rounding above that bound is not modelled.
- Templates are not modelled: the HTML and TXT transcript bodies, date formatting, message pagination and the legacy HTML writer. Only the escaping, the rating bar and the format dispatch are modelled.
- `updateConfig` (src/utils/configHandler.ts:186-199) is not modelled. It writes the YAML file back, which is file I/O.
- `getAvailableLanguages`, `getPriorityDisplay` and `getPriorityColor` are left out. They are a directory listing and display lookups with nothing to state.
- Object keys are plain map keys. A key such as `__proto__` or `constructor`, which JavaScript resolves through the prototype in `in` and `[]`, is not modelled.
- `Object.entries` and `Object.keys` list integer-like keys first. The model keeps plain insertion order, so stores held in insertion order do not capture that reordering for numeric ids. Ticket ids are never integer-like.
- LanguageManager.Child: on a string value, `value[k]` in JavaScript reads a character for a numeric segment and `length` for `length`. The model gives no child for a string.
- `String.replace` patterns are not modelled. Placeholder names are taken as plain text and replacement strings without `$` patterns; the `RegExp` metacharacters such a name could hold are not modelled.
- Case mapping covers ASCII only: `toLowerCase` and `toUpperCase` map `A`–`Z` and `a`–`z`. Other Unicode case mappings are not modelled.
- ModCases.CaseIdInjective: proved for non-negative counters only. A stored negative counter gives ids with a minus sign that the lemma does not cover.
- ModCases.Registry.LoadCases: `Map` insertion order is not kept. The registry is a map, and the counts and lookups built on it do not depend on order.
- ConfigHandler.EnvOverridesYaml: states precedence for token, guild id, log channel, bot name, staff roles, `send_to_user` and working hours. The other string settings follow the same `Pick` rule, and `ConfigHandler.Pick` states it.
- AutomationManager.HoursChecksAgree: the panel check reads the weekday and time in the panel's `working_hours.timezone`, while the global check reads them in the server's zone. The lemma gives both the same reading, so it does not cover a server whose zone differs from the configured one.
- Logger.RecentLogs and Logger.AuditLog.ClearOldLogs: the default arguments (20 entries, 30 days) are not modelled; callers pass the limit and the number of days.
- LanguageManager.Child: a translation document holds sections and strings only. YAML null and number nodes are not modelled: a null node followed by a deeper segment throws in `translate`, and a null or number value is rendered by `String`.
- StatsManager.TopStaff does not state that the result is the greatest count; `StatsManager.TallyLeader` states it for the tally it is taken from.
- The ticket-creation log line to the log channel is not modelled. It is a platform send; the audit-log entry is modelled.
