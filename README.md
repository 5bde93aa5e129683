# astro-bot scheduling and delivery core, modelled in Dafny

This project models the core of the astro-bot chat bot. The bot turns a
content kind ("Skywatch", "AstrologyAnswers" or a zodiac sign), a recipient
(a user or a channel) and a guild into a daily job. The job is keyed by its
job name `<what>@<guildId>#<u|c><id>`. The bot keeps one ordered job table
and one listener list per guild, and writes each to a file `<guildId>.json`.
At start-up it reads those files back. When a job fires, the content is
fetched with a kind-specific retry policy and delivered to the recipient.
When a fetch fails, the guild's listeners are notified.

The modules follow the source files:

- `wrappers.dfy`: `Option` and `Result`. `None` stands for JavaScript's
  `undefined`; `Err` for a thrown exception, carrying the message V8 gives
  it (its `TypeError` and `ReferenceError` texts).
- `text.dfy`: the string operations the source relies on.
  - `toLowerCase`, on ASCII capitals only.
  - Number-to-text and its read-back.
  - `join`.
  - Doubling line breaks.
- `constants.dfy`: time units and the sign table (`constants.js`).
- `communicator.dfy`: the wrapper around a cached user or channel (`communicator.js`).
- `fetch_target.dfy`: kind normalisation, the job name and its parser, and
  building a target from a command (`fetch_target.js`).
- `fetch_time.dfy`: clock readings and stored milliseconds to UTC hour and
  minute, the "H:MM" text and the cron expression (`fetch_time.js`).
- `files.dfy`: per-guild file names, and the guild a file name is read back into.
- `scheduler.dfy`: the `Scheduler` class (`scheduler.js`).
  - Its fields are the job tables, the timers it has started and the
    schedule directory.
  - Its methods are proved against pure state transitions (`Schedule`,
    `Unschedule`, `Install`, `RestoreAll`).
  - The invariant lemmas are proved about those transitions. Every stored job
    has its own live timer (`Consistent`), and no live timer is orphaned
    (`NoLeak`).
- `listeners.dfy`: the `Listeners` class (`listeners.js`), with the per-guild
  lists and the listener directory.
- `fetcher.dfy`: dispatch, the three handlers' URL and response logic, the
  Skywatch retry policy, and delivery and error notices (`fetcher.js`).
  - The Skywatch policy is a pure step function over responses, plus the
    class `SkywatchFetch` holding the callback's two variables.

Persistence is modelled as the value written. A directory is a map from file
name to the parsed file content, and the order `readdir` lists the files in
is a parameter. Timers are records in a sequence, addressed by their index,
with a `cancelled` flag.

Restoring a file into a guild whose table already holds one of the file's job
names does not cancel the timer that was stored there. `InstallOverStoredLeaks`
proves that timer is then orphaned. Restoring into empty tables keeps both
invariants (`RestoreAllKeeps`).

## Model

| member | source | states |
|---|---|---|
| Text.Lower | fetch_target.js:17 | the lower-cased string has the same length, with each ASCII capital mapped to its small letter and every other character kept |
| Text.NatTextRoundTrip | fetch_time.js:49 | the decimal text of a number is a digit string that reads back as the number |
| Text.DoubleNewlines | fetcher.js:46 | replacing every line break by two lengthens the text by exactly the number of line breaks |
| Constants.TimeUnits | constants.js:4-5 | a minute is 60000 ms and an hour 3600000 ms |
| Constants.SignCount | constants.js:6-19 | the sign table has twelve entries |
| Constants.SignKeysArePrefixes | constants.js:6-19 | every key is the lower-cased first three letters of its sign's name |
| Constants.SignNamesDistinct | constants.js:6-19 | no two keys name the same sign |
| Communicator.IsUser | communicator.js:28-30 | throws exactly when the entity is undefined; otherwise true exactly when the entity has no type |
| Communicator.IsDm | communicator.js:32-34 | throws exactly when the entity is undefined; otherwise true exactly when the type is "dm" |
| Communicator.Id | communicator.js:12-14 | the entity's id, throwing exactly when the entity is undefined |
| Communicator.Mention | communicator.js:16-18 | the entity's string form, throwing exactly when the entity is undefined |
| Communicator.Code | communicator.js:20-22 | 'u' exactly for a user and 'c' exactly for a channel |
| Communicator.Preposition | communicator.js:24-26 | "for" exactly for a user and "in" exactly for a channel |
| Communicator.Name | communicator.js:6-10 | a user's username, a DM channel's other party, otherwise the channel's name |
| Communicator.ById | communicator.js:36-40 | null exactly for an absent or empty id; otherwise wraps the user or channel cached under the id, or undefined on a cache miss |
| FetchTarget.NormalizeWhat | fetch_target.js:16-21 | a normalised kind, when there is one, is a canonical kind |
| FetchTarget.NormalizeWhatRules | fetch_target.js:16-21 | "sky…" is Skywatch; otherwise "aa" or "astro…" is AstrologyAnswers; otherwise a sign's three-letter prefix gives that sign; fewer than three letters (other than "aa") give undefined; and conversely a kind is found only when one of these rules applies |
| FetchTarget.NormalizeWhatIdempotent | fetch_target.js:16-21 | every canonical kind normalises to itself |
| FetchTarget.KindsAreWords | fetch_target.js:56 | every canonical kind is a non-empty run of word characters, so the job-name pattern can match it |
| FetchTarget.New | fetch_target.js:5-14 | a missing recipient gives only the error "couldn't find that recipient"; otherwise the guild, the normalised kind and the recipient |
| FetchTarget.TargetId | fetch_target.js:23-25 | the recipient's id, throwing when there is no recipient or it wraps nothing |
| FetchTarget.InWords | fetch_target.js:31-33 | "<what> <for\|in> <mention>", throwing exactly when the recipient is undefined |
| FetchTarget.ForLog | fetch_target.js:35-37 | throws exactly when the recipient is undefined |
| FetchTarget.ToString | fetch_target.js:39-41 | the job name `<what>@<guildId>#<code><id>`, throwing exactly when the recipient is undefined |
| FetchTarget.WordRun | fetch_target.js:56 | the longest prefix of word characters (`\w+`, greedy) |
| FetchTarget.DigitRun | fetch_target.js:56 | the longest prefix of digits (`\d+`, greedy) |
| FetchTarget.Parse | fetch_target.js:56 | a match is well formed, is a prefix of the name, and is not followed by a digit |
| FetchTarget.ParseGuild | fetch_target.js:56 | the guild id, '#', code and id captured after the '@' are a well-formed prefix of the rest |
| FetchTarget.ParseRecipient | fetch_target.js:56 | the code and id captured after the '#' are a well-formed prefix of the rest |
| FetchTarget.ParseRender | fetch_target.js:56 | a rendered job name, followed by anything that does not start with a digit, parses back to its parts |
| FetchTarget.FromString | fetch_target.js:55-61 | throws exactly when the pattern does not match; otherwise the target with the captured guild, the normalised kind and the recipient looked up in the cache the code selects |
| FetchTarget.ToStringFromString | fetch_target.js:39-61 | round trip: parsing the job name of a target with a canonical kind, digit ids and a cached recipient gives back the same target |
| FetchTarget.ChooseRecipient | fetch_target.js:44-48 | the mentioned user, else the author for "me", else the mentioned channel, else the current channel |
| FetchTarget.FromMatches | fetch_target.js:43-53 | throws exactly when the chosen recipient is undefined; otherwise the target exactly when it is the author or the current channel, or the author is an admin, and null otherwise |
| FetchTime.MakeDate | fetch_time.js:33 | a Date is valid exactly within ±8.64e15 ms, and then holds the value |
| FetchTime.MeridiemHour | fetch_time.js:12-21 | as written: "pm" in any case adds 12 whatever the hour; "am" turns 12 into 0; anything else keeps the hour |
| FetchTime.Clock | fetch_time.js:6-34 | `error` is set exactly for a given zone that is missing or has offset 0; a missing zone gives NaN; otherwise the time is the hour and minute in ms minus the offset in minutes |
| FetchTime.FromClock | fetch_time.js:9-28 | the step-by-step constructor computes exactly `Clock` |
| FetchTime.FromMs | fetch_time.js:29-31 | built from stored milliseconds, with no error |
| FetchTime.Hours | fetch_time.js:36-38 | the UTC hour, below 24, NaN exactly for an Invalid Date |
| FetchTime.Minutes | fetch_time.js:40-42 | the UTC minute, below 60, NaN exactly for an Invalid Date |
| FetchTime.Ms | fetch_time.js:44-46 | `ms` is NaN exactly when the hour and minute are NaN, that is, for an Invalid Date |
| FetchTime.Gmt | fetch_time.js:48-50 | an Invalid Date reads "NaN:NaN"; the valid case is stated by `GmtReadsBack` |
| FetchTime.Cron | fetch_time.js:52-54 | the cron text always ends in " * * *", and is "NaN NaN * * *" for an Invalid Date; the valid case is stated by `CronReadsBack`; `DailyPeriodic` states that it repeats daily |
| FetchTime.TimeOfDay | fetch_time.js:36-42 | the ms since UTC midnight, also before 1970, are hour·3600000 + minute·60000 + the ms within the minute |
| FetchTime.FromMsKeepsMs | fetch_time.js:44-46 | stored milliseconds read back unchanged within the Date range, as NaN outside it |
| FetchTime.DailyPeriodic | fetch_time.js:48-54 | times a whole number of days apart give the same `gmt` and `cron` text |
| FetchTime.GmtReadsBack | fetch_time.js:48-50 | `gmt` is the hour's digits, a colon, then exactly two digits that read back as the minute |
| FetchTime.CronReadsBack | fetch_time.js:52-54 | for a valid date, `cron` is the minute's digits, a space, the hour's digits, then " * * *"; both digit runs read back as the UTC minute and hour |
| FetchTime.AfternoonInZoneBehindUtc | fetch_time.js:6-28 | 3:30pm in a zone with offset −300 is 20:30 UTC, with no error |
| FetchTime.MidnightIsZero | fetch_time.js:17-18 | 12am is UTC hour 0 |
| FetchTime.UnknownZoneReported | fetch_time.js:24-27 | an unknown zone sets the error and makes the time NaN |
| FetchTime.NoonAsWritten | fetch_time.js:14-15 | as written, 12pm becomes hour 24, which is UTC hour 0 |
| FetchTime.ZeroOffsetFlagged | fetch_time.js:26 | as written, a known zone with offset 0 sets the error although the time is right |
| FetchTime.MeridiemHourFixed | fetch_time.js:12-21 | corrected: for hours 1–12, "am" gives hours mod 12 and "pm" gives hours mod 12 + 12; for any hour other than 12 it agrees with the code as written |
| FetchTime.TwelveHourReading | fetch_time.js:12-21 | corrected: every hour of the day is the corrected reading of exactly one 12-hour clock hour with its am/pm marker |
| FetchTime.ClockFixed | fetch_time.js:6-34 | corrected: `error` is set exactly for a missing zone; otherwise as `Clock` but with the corrected marker |
| FetchTime.ClockFixedAgrees | fetch_time.js:6-34 | away from 12 o'clock and zero-offset zones, the corrected constructor equals the one as written |
| FetchTime.NoonFixed | fetch_time.js:12-28 | corrected: 12pm is UTC hour 12, 12am hour 0, and a zero-offset zone is accepted without error |
| Files.StorageName | scheduler.js:87 | a guild's file name (`<guildId>.json`, here and in listeners.js line 66) is its id plus five characters |
| Files.GuildOfFile | scheduler.js:69 | `slice(0, -5)`, here and in listeners.js line 55: the name without its last five characters, or empty for a shorter name |
| Files.GuildOfStorageName | scheduler.js:69 | a file written at line 87 is read back into the guild it was written for |
| Files.SuffixIsNotChecked | scheduler.js:69 | any five-character suffix is dropped, so `42.back` is read into guild 42 too |
| Files.FileNames | scheduler.js:87 | the files written for a list of guilds, one per guild, in order |
| Scheduler.Find | scheduler.js:20 | a found index holds the name; no index holds it when nothing is found |
| Scheduler.Put | scheduler.js:23 | assigning an existing name replaces it in place; a new name goes at the end (object key order) |
| Scheduler.Cut | scheduler.js:35 | removing one entry keeps the others in order |
| Scheduler.Delete | scheduler.js:35 | `delete` removes the name's entry, and changes nothing when the name is absent |
| Scheduler.FindAt | scheduler.js:20 | in a table with unique names, each name is found at its own index |
| Scheduler.PutSpec | scheduler.js:23 | after assignment the names stay unique and the name holds the new entry, in place or at the end |
| Scheduler.PutOthers | scheduler.js:23 | assignment leaves every other name where it was, with the same entry |
| Scheduler.DeleteSpec | scheduler.js:35 | after `delete` the names stay unique, the name is gone, and every other name keeps its entry |
| Scheduler.Schedule | scheduler.js:17-26 | scheduling adds one live timer for the new entry and gives the guild a table; `ScheduleTimers` says which earlier timer is cancelled, and `ScheduleConsistent` and `ScheduleNoLeak` give the invariants |
| Scheduler.ScheduleTimers | scheduler.js:22-24 | scheduling cancels exactly the name's previous live timer, if any, and leaves every other earlier timer as it was |
| Scheduler.ScheduleConsistent | scheduler.js:17-26 | scheduling keeps every table's names unique and every stored job with its own live timer |
| Scheduler.ScheduleNoLeak | scheduler.js:17-26 | scheduling orphans no live timer, because the replaced job's timer is cancelled |
| Scheduler.ScheduleEffect | scheduler.js:17-26 | after scheduling, the name holds the new time and a new timer; the old timer, if any, is cancelled; other guilds' tables are unchanged |
| Scheduler.OneLiveTimerPerJob | scheduler.js:22-24 | with no orphaned timer, a job name has at most one live timer |
| Scheduler.RescheduleLastWriterWins | scheduler.js:17-26 | scheduling the same name twice keeps the table's names and order; the second time wins; the first timer is cancelled and only the second is live |
| Scheduler.Unschedule | scheduler.js:28-38 | the result is true exactly when the name had a live timer; no timer is added, and the guild has a table; `UnscheduleTimers` says which timer is cancelled, and `UnscheduleConsistent` and `UnscheduleNoLeak` give the invariants |
| Scheduler.UnscheduleTimers | scheduler.js:33-34 | cancelling cancels exactly the name's live timer, if any, and leaves every other timer as it was |
| Scheduler.UnscheduleConsistent | scheduler.js:28-38 | cancelling keeps every table's names unique and every stored job with its own live timer |
| Scheduler.UnscheduleOthers | scheduler.js:28-38 | cancelling leaves every other job's timer handle as it was |
| Scheduler.UnscheduleNoLeak | scheduler.js:28-38 | cancelling orphans no live timer |
| Scheduler.UnscheduleEffect | scheduler.js:28-38 | the result is true exactly when the job existed; its timer is then cancelled and the name gone; otherwise only the guild's empty table may be created |
| Scheduler.CancelTwice | scheduler.js:28-38 | cancelling the same name again returns false and changes nothing |
| Scheduler.Install | scheduler.js:74-75 | restoring an entry appends one timer for it, keeps every earlier timer, and installs the entry in the guild's table; `InstallSpec` and `InstallOverStoredLeaks` state what it does to the invariants |
| Scheduler.InstallSpec | scheduler.js:71-76 | restoring an entry keeps consistency, gives the name a new live timer, and orphans nothing when the name had no timer |
| Scheduler.InstallOverStoredLeaks | scheduler.js:71-76 | restoring an entry over a name that already has a timer leaves that timer live and orphaned |
| Scheduler.Persisted | scheduler.js:82-85 | the written object maps each job name to its stored ms, in key order |
| Scheduler.Touch | scheduler.js:90-92 | `jobsForGuild` changes no guild's table (it only creates an empty one) |
| Scheduler.TouchPresent | scheduler.js:90-92 | a guild that already has a table keeps the state as it was |
| Scheduler.TouchKeeps | scheduler.js:90-92 | creating an empty table keeps consistency and orphans nothing |
| Scheduler.InstallTables | scheduler.js:74 | restoring an entry changes only its guild's table, by assignment |
| Scheduler.RestoreFile | scheduler.js:66-77 | reading a file adds one timer per stored entry after the existing ones, and keeps every guild's table while giving the file's guild one; the restored content is in `RestoreFileTable` |
| Scheduler.RestoreFileTable | scheduler.js:66-77 | reading a file with unique names into an empty table restores exactly the written object |
| Scheduler.RestoreFileOthers | scheduler.js:66-77 | reading a file changes no other guild's table |
| Scheduler.RestoreFileConsistent | scheduler.js:66-77 | reading a file keeps every stored job with its own live timer |
| Scheduler.RestoreFileNoLeak | scheduler.js:66-77 | reading a file with unique names into an empty table orphans no timer |
| Scheduler.PersistedUnique | scheduler.js:82-85 | a table with unique names is written with unique names |
| Scheduler.RestoreAll | scheduler.js:59-80 | reading the listed files only adds timers after the existing ones and keeps every guild that had a table; what is restored is in `RestoreAllTable` and `RestartRestoresJobs` |
| Scheduler.RestoreAllOthers | scheduler.js:59-80 | reading files that belong to other guilds leaves a guild's table alone |
| Scheduler.RestoreAllTable | scheduler.js:59-88 | reading the files of distinct visible guilds into empty tables gives each guild exactly the object written for it |
| Scheduler.RestoreAllKeeps | scheduler.js:59-80 | reading such files keeps consistency and orphans no timer |
| Scheduler.RestartRestoresJobs | scheduler.js:59-88 | restart round trip: files written for distinct guilds, read into a fresh scheduler, give each guild its jobs' names and times back, consistent and with no orphaned timer |
| Scheduler.JobLineSpec | scheduler.js:52-57 | `jobString` throws the parser's own error when the name does not parse, and the TypeError for reading `time` of `undefined` when the guild's table lacks it; otherwise it is the target in words at the stored time's "H:MM" GMT |
| Scheduler.JobLineTables | scheduler.js:52-57 | a job line depends only on the tables, not on which guilds have one |
| Scheduler.ListJobsText | scheduler.js:47-50 | the listing succeeds exactly when every job line of the guild does, and is "" for a guild without jobs |
| Scheduler.Collect | scheduler.js:49 | `map` with a throwing callback: succeeds exactly when every line does, and then holds every value in order |
| Scheduler.CollectFirstError | scheduler.js:49 | the error is the one of the first line that throws |
| Scheduler.JobLines | scheduler.js:49 | one line per job name of the guild |
| Scheduler.ScheduledJobListed | scheduler.js:52-57 | a job just scheduled for a cached recipient is listed as its target in words at the hour and minute of the given time |
| Scheduler.RunJob | scheduler.js:40-45 | a job that runs dispatches the target its name parses to; an uncached recipient makes it throw |
| Scheduler.RunJobDispatchesTarget | scheduler.js:40-45 | a timer dispatches the handler of the target it was scheduled for, while the recipient is cached |
| Scheduler.Scheduler.constructor | scheduler.js:9-15 | empty tables, then the directory's files read in the listed order |
| Scheduler.Scheduler.JobsForGuild | scheduler.js:90-92 | the guild's table, created empty on first access; the invariants are kept |
| Scheduler.Scheduler.WriteJobs | scheduler.js:82-88 | the guild's file now holds exactly its table's names and times |
| Scheduler.Scheduler.ScheduleJob | scheduler.js:17-26 | throws and changes nothing when the job name throws; otherwise the state is `Schedule` of the old state, the guild's file is rewritten, and both invariants are kept |
| Scheduler.Scheduler.CancelJob | scheduler.js:28-38 | throws and changes nothing when the job name throws; otherwise the result and state are `Unschedule`'s, the file is rewritten only when a job was removed, and both invariants are kept |
| Scheduler.Scheduler.JobString | scheduler.js:52-57 | the line for a name, as `JobLine` on the tables before the call; no table's content changes |
| Scheduler.Scheduler.ListJobs | scheduler.js:47-50 | the guild's lines in key order joined by newlines, or the first line's error; no table's content changes |
| Scheduler.Scheduler.ReadJobs | scheduler.js:59-80 | every visible, readable listed file is restored in order, and consistency is kept |
| Scheduler.Scheduler.Store | scheduler.js:74-75 | one restored entry is assigned its time and a new timer, as `Install` |
| Scheduler.Scheduler.ReadFile | scheduler.js:66-77 | one file's entries restored in order into the guild's table |
| Listeners.Touch | listeners.js:41-43 | the guild gets an empty list on first access and keeps its list afterwards; no other guild changes |
| Listeners.TouchIdempotent | listeners.js:41-43 | a second `forGuild` changes nothing |
| Listeners.Include | listeners.js:16-17 | the id is appended exactly when it is absent; the ids present afterwards are the old ones plus the id |
| Listeners.IncludeNoDup | listeners.js:16-17 | `add` never creates a duplicate |
| Listeners.AddKeepsNoDup | listeners.js:13-20 | adding keeps every guild's list free of duplicates |
| Listeners.IndexOf | listeners.js:24 | −1 exactly when the id is absent; otherwise the first position holding it |
| Listeners.RemoveAt | listeners.js:27 | `splice(i, 1)`: one entry fewer, the others in order, the same multiset less that entry |
| Listeners.Exclude | listeners.js:22-30 | corrected removal: an absent id changes nothing; a present one is removed exactly once |
| Listeners.ExcludeNoDup | listeners.js:22-30 | in a list without duplicates, corrected removal leaves exactly the other ids, without duplicates |
| Listeners.ExcludeInclude | listeners.js:13-30 | round trip: removing (corrected) an id just added gives back the list |
| Listeners.Mentions | listeners.js:34 | the listeners' string forms in order, throwing exactly when some id is not in the user cache |
| Listeners.ListText | listeners.js:32-35 | `list` throws exactly when some listener is not cached; it gives "" for no listeners and the one string form for a single cached listener |
| Listeners.SendOne | listeners.js:38 | one callback: an uncached id throws on looking up `send`, before the argument is read; a cached id throws on `msg`, or is handed `data` when that is the argument |
| Listeners.ForEachSend | listeners.js:38 | `forEach` over the list: the deliveries made are the successful callbacks in order, and the loop throws exactly when some callback throws, with the first such callback's error |
| Listeners.SendAsWritten | listeners.js:37-39 | as written: nothing is delivered; it throws exactly when the list is non-empty, on the first listener (`msg` is not defined, or the id is not cached) |
| Listeners.Fanout | listeners.js:37-39 | corrected: each listener in order is handed the data; it throws exactly when an id is not cached, at the first such id |
| Listeners.SendLosesNotice | listeners.js:38 | with every listener cached, the code as written throws before any delivery, while the corrected send reaches all of them |
| Listeners.LoadAll | listeners.js:45-60 | loading keeps every guild that had a list, and the last listed file, when visible and readable, gives its guild that file's list; the other guilds are covered by `LoadAllOthers` |
| Listeners.LoadAllOthers | listeners.js:45-60 | loading other guilds' files leaves a guild's list alone |
| Listeners.RestartRestoresListeners | listeners.js:45-67 | save/load round trip: the saved files of distinct visible guilds, loaded into an empty registry, give each guild its list back |
| Listeners.RemoveKeepsId | listeners.js:22-30 | counterexample: removing "u7" from ["u7"] succeeds but leaves ["u7"], while the corrected removal leaves [] |
| Listeners.Listeners.constructor | listeners.js:6-11 | an empty registry, then the directory's files loaded in the listed order |
| Listeners.Listeners.ForGuild | listeners.js:41-43 | the guild's list, created empty on first access; nothing else changes |
| Listeners.Listeners.Save | listeners.js:62-67 | the guild's file now holds exactly its current list |
| Listeners.Listeners.Add | listeners.js:13-20 | false, with the list and files unchanged, exactly when the id is present; otherwise the id is appended and the file rewritten |
| Listeners.Listeners.Remove | listeners.js:22-30 | as written: true exactly when the id is present, and then the file is rewritten, but no list changes |
| Listeners.Listeners.RemoveFixed | listeners.js:22-30 | corrected: true exactly when the id is present; its first occurrence is removed from the list and the file |
| Listeners.Listeners.List | listeners.js:32-35 | the guild's listeners one per line, as `ListText` |
| Listeners.Listeners.Send | listeners.js:37-39 | as written: the deliveries and the error are exactly `SendAsWritten`'s, so nothing is delivered and it throws exactly when the guild has listeners |
| Listeners.SendEach | listeners.js:38 | the `forEach` loop: its deliveries and its exception are exactly `ForEachSend`'s |
| Listeners.Listeners.SendFixed | listeners.js:37-39 | corrected: the deliveries and the error are exactly `Fanout`'s, in list order |
| Listeners.Listeners.Load | listeners.js:45-60 | each visible, readable listed file replaces the list of the guild its name gives, in order |
| Fetcher.Dispatch | fetcher.js:11-16 | for a target whose kind came from normalisation, a handler exists exactly when the target has a kind; Skywatch and AstrologyAnswers go to their own handlers and every sign name to `Sign` |
| Fetcher.DispatchTotal | fetcher.js:11-16 | every sign name goes to `Sign`, and every kind normalisation produces has a handler |
| Fetcher.FirstUrl | fetcher.js:51 | the first URL is the retry URL for a count equal to the year, and never the URL without a suffix |
| Fetcher.RetryUrl | fetcher.js:39-41 | a count at or below 1 gives the URL without a suffix; above 1, the URL is longer by `-` and the count's digits, so it differs from it |
| Fetcher.PlainUrl | fetcher.js:39-41 | the URL without a suffix is on the Skywatch host and ends in `/` |
| Fetcher.WeekendUrl | fetcher.js:33-35 | the weekend page is `the-weekend-…` on the Skywatch host and has no trailing `/` |
| Fetcher.SkywatchText | fetcher.js:45-48 | the text sent starts with the weekday in bold and ends with the site's address |
| Fetcher.UrlShapes | fetcher.js:33-41 | a retry URL has a `-mod` suffix exactly when `mod` is above 1, and the weekend URL is never a retry URL |
| Fetcher.OnNotFound | fetcher.js:28-42 | after a 404 the count retreats. While suffixes remain it retries with the new count and never gives up. Once they are used up it gives up exactly when the weekend page was already tried or the day is not a Saturday or Sunday; otherwise it marks the weekend page as tried |
| Fetcher.Retreat | fetcher.js:29-30 | after a 404 the count is at most 3, and lower than before unless it was above 3 |
| Fetcher.Step | fetcher.js:27-49 | as written: a 404 lowers the count; exactly at 0 it tries the weekend page once on a Saturday or Sunday, else gives up; otherwise it retries; a page is sent; a stream error is reported |
| Fetcher.StepFixed | fetcher.js:27-49 | corrected: a count at or below 0 means the suffixes are used up; otherwise as written |
| Fetcher.Trace | fetcher.js:27-49 | the actions taken while every fetch answers 404, one per response, up to the first that is not a fetch; what they are is stated by `WeekdayGivesUp` and `WeekendNeverGivesUp` |
| Fetcher.WeekdayGivesUp | fetcher.js:27-51 | on a weekday the policy fetches `-3`, `-2` and the plain URL, then reports the error once |
| Fetcher.NeverGivesUp | fetcher.js:29-41 | as written: once the weekend page has been tried, every 404 refetches the plain URL, for any number of responses |
| Fetcher.WeekendNeverGivesUp | fetcher.js:27-51 | as written: on a weekend day after `-3`, `-2`, the plain URL and the weekend page, the plain URL is fetched again on every 404, without end |
| Fetcher.WeekendFirstFour | fetcher.js:27-51 | on a weekend day the first four 404s lead to `-3`, `-2`, the plain URL and the weekend page |
| Fetcher.TraceFixed | fetcher.js:27-49 | corrected: the same actions under the corrected guard; what they are is stated by `FixedGivesUp` and `FixedWeekendGivesUp` |
| Fetcher.FixedGivesUp | fetcher.js:27-49 | corrected: from any state, a run of 404s ends after exactly `FetchesLeft` fetches with one error report |
| Fetcher.FixedWeekendGivesUp | fetcher.js:27-51 | corrected: on a weekend day, `-3`, `-2`, the plain URL, the weekend page, then the error once |
| Fetcher.SkywatchFetch.constructor | fetcher.js:24 | the count starts at the year and the weekend page is not yet tried |
| Fetcher.SkywatchFetch.OnResponse | fetcher.js:27-49 | the callback updates `mod` and `weekend` and acts exactly as `Step` |
| Fetcher.SignUrl | fetcher.js:72-73 | the sign page is on the horoscope host, and its path starts with the sign's first three letters lower-cased |
| Fetcher.SignUrlsDistinct | fetcher.js:72-73 | different signs are fetched from different URLs |
| Fetcher.SignResult | fetcher.js:75-86 | a single attempt: a 404 reports "404", a stream error reports itself, and it never fetches again |
| Fetcher.AstrologyAnswersResult | fetcher.js:63-68 | a single attempt: a 404 reports "404", a stream error reports itself, and a page sends the post's image URL |
| Fetcher.FirstFetch | fetcher.js:14-16 | dispatch throws exactly when there is no handler; otherwise the first fetch is the URL the handler requests: the Skywatch page (line 50), the https search on api.twitter.com built from the request options (lines 53-62 and 92), or the sign's horoscope page (lines 70-73) |
| Fetcher.Send | fetcher.js:100-107 | succeeds exactly when the recipient is defined and cached in the table its kind selects, and then hands that entity the data |
| Fetcher.SendReachesRecipient | fetcher.js:100-107 | a recipient that is still cached gets the data itself |
| Fetcher.OnError | fetcher.js:109-114 | the notice goes to the target's guild and reads "Failed to fetch <what>: <err>" |
| Fetcher.Perform | fetcher.js:89-114 | a fetch continues, a failure becomes the guild's notice, and a page is delivered exactly when `send` succeeds |

## Left out

- Logging: the logger calls are dropped. Building a log line is kept wherever it can throw (`forLog` in `runJob` and `send`).
- The filesystem:
  - The schedule and listener directories are maps from file name to the parsed content, and the `readdir` order is a parameter.
  - A read error is a listed name missing from the map. A `readdir` error is an empty listing.
  - Write errors are not modelled.
  - The directory names (`SCHED_DIR`, `LIST_DIR`, `LOG_FILE`) are not modelled.
- Malformed JSON is not modelled. `JSON.parse` would throw inside a file callback, and stored files hold already-parsed values.
- Asynchrony: each `readFile` callback is run to completion in listing order. Interleaving with commands that arrive while files are still being read is not modelled. `InstallOverStoredLeaks` states what such an overlap does to a stored job.
- The scheduling library (node-schedule):
  - A timer is a record holding its guild, job name, time and a `cancelled` flag.
  - Firing is `RunJob` called with the job name.
  - Cron parsing and the clock are not modelled.
- HTTPS, HTML parsing and the Twitter response:
  - A response is reduced to a 404, the extracted content, or a stream error.
  - The `.entry-content` and `.horoscope_summary` lookups, stripping `ul` and `structuredText` are not modelled.
  - The TypeErrors thrown when a lookup finds nothing are not modelled.
  - The bearer token from `auth.json` is not modelled.
- The current date: `new Date()` and `toLocaleString` become the `Day` parameter (weekday and month names, day of the month, year).
- The timezone table (timezone-abbr-offsets) is the `offsets` parameter. `parseInt` on the hour and minute is not modelled: they arrive as numbers.
- `this.cache` of the Scheduler, Fetcher and Listeners objects is a parameter of each operation, because the chat platform updates the cache between calls.
- Fetcher.Trace: the number of responses is bounded by a fuel parameter. `NeverGivesUp` is proved for every fuel, which is how unbounded retrying is stated.
- Scheduler.Scheduler.ScheduleJob: requires a valid date. An Invalid Date would store NaN (written as `null`) and a cron text of "NaN NaN * * *", which the model does not represent.
- FetchTarget.ForLog: states only when it throws, not the log text.
- Text.Lower: lowers ASCII capitals only. JavaScript's `toLowerCase` also maps non-ASCII capitals, so "S\u212AY" (with KELVIN SIGN) lowers to "sky" there and the model's `NormalizeWhat` does not accept it.
- FetchTime.Cron: node-schedule reads the cron text in the host's time zone, so the job runs at the stored UTC hour and minute only on a host that runs in UTC. The host's zone is not modelled.
- Scheduler.Scheduler.ReadJobs: a stored file is a sequence of name and time pairs, which could repeat a name where a parsed JSON object cannot. `ReadJobs` accepts any such sequence; the restore lemmas (`RestoreFileTable`, `RestoreAllTable`, `RestartRestoresJobs`) ask for `UniqueStoredKeys`.
- Fan-out isolation: a listener the user cache lacks stops the `forEach`, so later listeners get nothing, also in `SendFixed`. The model follows the code here, not the design goal that one failing listener must not stop the rest.
- Clock readings: 12pm adds 12 to the hour, and a zero-offset zone is reported as unknown. The design says 12pm stays 12 and only unknown zones are errors. The model follows the code and records both as findings.

## Findings

| source | as written | input that shows it | evidently intended | confidence | as-written member | corrected member |
|---|---|---|---|---|---|---|
| fetcher.js:31 | the suffixes count as used up only when `mod === 0` | a Saturday where every fetch answers 404: `mod` goes 3, 2, 1, 0 (the weekend page), then −1, −2, … and the plain URL is fetched forever | `mod <= 0`, so the error is reported once after the weekend page | high, not executed | Fetcher.WeekendNeverGivesUp | Fetcher.FixedWeekendGivesUp |
| listeners.js:27 | `guildLists.slice(index, 1)` returns a copy that is dropped | `remove("1", "u7")` on the list ["u7"] returns true and the list is still ["u7"] | `splice(index, 1)` | high, not executed | Listeners.RemoveKeepsId | Listeners.Listeners.RemoveFixed |
| listeners.js:38 | each listener is sent `msg`, which names no variable | `send("1", "Failed to fetch Leo: 404")` with one cached listener throws a ReferenceError and delivers nothing | `send(data)` | high, not executed | Listeners.SendLosesNotice | Listeners.Listeners.SendFixed |
| fetch_time.js:14-15 | "pm" adds 12 to every hour | 12:00 pm becomes hour 24, which is 0:00 UTC of the next day | 12pm stays 12 | high, not executed | FetchTime.NoonAsWritten | FetchTime.MeridiemHourFixed |
| fetch_time.js:26 | `!offset` is also true for a zone whose offset is 0 | 9:00 "UTC" with offset 0 sets the unknown-zone error | `offset === undefined` | medium, not executed | FetchTime.ZeroOffsetFlagged | FetchTime.ClockFixed |
