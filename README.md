# Weather shutdown, natural assistant and announcements: a Dafny model

This project models the decision logic of three plugins for a Red Discord bot.

- **nwsshutdown**: the severe-weather shutdown sequencer.
  - State:
    - one cog-wide `shutdown_pending` flag;
    - the handle of the countdown task;
    - the per-guild configuration record.
  - Behaviour:
    - the hourly poll skips guilds, filters the fetched alerts and debounces repeated triggers;
    - `handle_alert` notifies the admin;
    - the countdown task sends five direct messages, saying 5, 4, 3, 2 and 1 minutes, then the optional channel announcement, then the final wait and the shutdown;
    - the `shutdown yes|no` command can reach into a running countdown;
    - the `addalert`, `removealert` and `toggle` commands edit the configuration;
    - the two embeds render the alert as text.
- **naturalassistant**: how a chat message is routed to a stored intent.
  - `match_intent` finds the first stored phrase contained in the message, ignoring case.
  - `check_user_permission` is the role check.
  - The configuration store covers insert, overwrite and delete of intents, and the two API keys.
  - `on_message` is a sequence of guards and dispatch.
  - `setmonitorinterval` validates its argument.
- **announcements**: the single announcement record.
  - `fivemstatus` overwrites it.
  - `get_latest` reads it.

Where the source works by updating state in place, the model is a class with those fields. The classes are:

- `NwsCog.WeatherShutdown`;
- `AssistantConfig.ConfigManager`;
- `AssistantCog.NaturalAssistant`;
- `AnnouncementsCog.Announcements`.

Each of their methods is proved to leave exactly the state that a pure specification function computes. Properties of those functions are then proved as lemmas.

Effects are recorded in order in an `effects` log. They are:

- the messages sent;
- the creation of the countdown task;
- the shutdown itself.

Message texts are computed separately from the effects by `NwsSequencer.MessageText`.

The model treats the following as inputs:

- the weather feed;
- the member and channel lookups;
- the success of each send;
- the clock;
- the Pterodactyl/GPT outcome;
- the points at which a `shutdown` command arrives.

Concurrency is modelled by naming the suspension points of the countdown task (`NwsSequencer.Point`). At most one `shutdown` command runs at each of these points (see `NwsSequencer.TimerInputs` under "## Left out"):

- the wait before each round;
- each round's direct message;
- the channel lookup;
- the final five-minute wait.

A cancellation requested at a point is raised there when the task resumes. `handle_alert` also waits twice before it creates the task: once reading the admin setting and once sending the alert embed. `NwsSequencer.HandleAlertAt` models commands arriving at those two points.

The model keeps two behaviours of the code as written:

- The poll reads the admin through a key (`admin_id`) that differs from the one the schema registers (`admin_ids`). So whether an admin is found is an input, as it is in the code.
- A failed announcement raises out of the countdown and leaves the flag up (`NwsSequencer.AnnouncementFailureStrandsPending`). It is not treated as a skipped, ignored failure.

The countdown asks the admin to answer `!shutdown yes` or `!shutdown no` (nwsshutdown/core.py:64). A "no" is answered "Shutdown has been cancelled." (core.py:85). The code keeps that promise in most cases:

- A "no" during any wait of the countdown stops it, under either handler (`NwsSequencer.CancelAtWaitStops`).
- A "yes" or any other word leaves the shutdown to happen (`NwsSequencer.NoCancelShutsDown`).

The code breaks the promise in two places:

- A `shutdown no` during a direct message is swallowed by the bare `except:` (see Findings).
- A `shutdown no` while `handle_alert` waits is answered "cancelled", yet the task is still created afterwards.

In both places the countdown runs with the flag down, so the next matching poll starts a second countdown (`NwsSequencer.SwallowedCancelRearmsPoll`).

## Model

| member | source | states |
|---|---|---|
| Common.LowerIdempotent | nwsshutdown/core.py:81-86 | lower-casing a lower-cased argument changes nothing, so the command's two `.lower()` comparisons see a stable value |
| Common.NatToStringRoundTrip | nwsshutdown/core.py:64 | the decimal rendering of the minutes in the countdown text reads back as the same number |
| NwsConfig.DefaultGuildConfig | nwsshutdown/config.py:5-12 | the default record has the alert list exactly ["Tornado Warning", "Severe Thunderstorm Warning"], no latitude/longitude, an empty admin list and no channel; it is disabled, hence not monitored, and well formed |
| NwsConfig.AddAlert | nwsshutdown/core.py:120-123 | the name is in the list afterwards; an already listed name leaves the list as it was, otherwise the old list is a prefix of the new one, which is one longer |
| NwsConfig.AddAlertKeepsWellFormed | nwsshutdown/core.py:119-126 | adding keeps the list free of duplicates and keeps both protected names |
| NwsConfig.FirstIndex | nwsshutdown/core.py:132 | the index `list.remove` uses is an occurrence of the name with no earlier occurrence |
| NwsConfig.RemoveFirst | nwsshutdown/core.py:132 | `list.remove` makes the list one shorter and removes exactly one copy of the name (multiset difference) |
| NwsConfig.RemoveFirstKeepsOthers | nwsshutdown/core.py:132 | every other listed name survives the removal |
| NwsConfig.RemoveFirstRemovesAll | nwsshutdown/core.py:132 | in a duplicate-free list the name is gone afterwards and the list stays duplicate-free |
| NwsConfig.RemoveAlert | nwsshutdown/core.py:130-133 | an absent or protected name leaves the list unchanged; otherwise exactly one copy of the name goes |
| NwsConfig.RemoveAlertKeepsWellFormed | nwsshutdown/core.py:129-136 | a removal never drops "Tornado Warning" or "Severe Thunderstorm Warning", and a removed unprotected name is no longer listed |
| NwsFilter.Matches | nwsshutdown/core.py:36 | an alert is in the match list iff it was fetched and its event is in the configured list; the list is no longer than the fetched one |
| NwsFilter.MatchesIsSubsequence | nwsshutdown/core.py:36 | the matches keep the order in which the alerts were fetched |
| NwsFilter.MatchesCounts | nwsshutdown/core.py:36 | each matching alert is kept as many times as it was fetched, every other alert zero times |
| NwsFilter.FirstMatch | nwsshutdown/core.py:36-40 | `matches[0]` exists iff some fetched alert's event is configured, and it is the first such alert |
| NwsEmbeds.TruncateDescription | nwsshutdown/embeds.py:5 | a description of at most 500 characters is kept; a longer one becomes its first 500 characters followed by "..." (503 characters); the result always begins with the original's first min(len, 500) characters |
| NwsEmbeds.ExpiresField | nwsshutdown/embeds.py:11 | the Expires field is the alert's `expires` when present, "Unknown" otherwise |
| NwsEmbeds.AdminDescriptionLayout | nwsshutdown/embeds.py:8-9 | the admin embed names the event, the area and the issuer at increasing positions and ends with the truncated description |
| NwsEmbeds.AdminDescription | nwsshutdown/embeds.py:8-9 | the admin embed's description starts with the type label and ends with the truncated description |
| NwsEmbeds.AnnouncementNamesEvent | nwsshutdown/embeds.py:18-19 | the shutdown notice contains the alert's event type |
| NwsEmbeds.AnnouncementDescription | nwsshutdown/embeds.py:18-19 | the shutdown notice starts with the fixed safety statement and ends with the closing advice |
| NwsSequencer.DecideIgnoresCase | nwsshutdown/core.py:81-86 | the command's decision does not depend on the letter case of its argument |
| NwsSequencer.Decide | nwsshutdown/core.py:81-86 | the argument reads as cancel iff it lower-cases to "no", and as confirm iff it lower-cases to "yes" |
| NwsSequencer.Decided | nwsshutdown/core.py:81-89 | every command gets exactly one reply; "no" clears the flag and cancels the stored task whatever the state; "yes" and any other word leave the state unchanged |
| NwsSequencer.ShutdownCommand | nwsshutdown/core.py:80-89 | `shutdown` sends exactly one reply for the classified argument; an argument that lower-cases to "no" clears the flag and cancels the stored task, and any other leaves the state unchanged |
| NwsSequencer.CancelIdempotent | nwsshutdown/core.py:81-85 | a second "no" leaves the same state as the first and again replies "cancelled" |
| NwsSequencer.HandleAlert | nwsshutdown/core.py:42-55 | `handle_alert` never raises the flag; without an admin it clears the flag and creates no task and sends nothing; with one it sends the alert embed if delivery succeeds and then creates exactly one task |
| NwsSequencer.HandleAlertAt | nwsshutdown/core.py:42-55 | `handle_alert` with commands at its two waits (:43 and :51); with no commands it is exactly `HandleAlert` |
| NwsSequencer.CancelInHandleAlertStillStarts | nwsshutdown/core.py:43-55 | a "no" at either wait of `handle_alert` is answered "cancelled", yet the countdown task is still created, and it runs with the flag down |
| NwsSequencer.PollGuild | nwsshutdown/core.py:21-40 | a guild that is disabled, has a falsy latitude or longitude, or has no matching alert, or a tick while the flag is up, changes nothing; otherwise the flag goes up and `handle_alert` runs on the first match |
| NwsSequencer.Tick | nwsshutdown/core.py:21-40 | a tick leaves the task handle alone or installs a new running task |
| NwsSequencer.TickDebounced | nwsshutdown/core.py:38 | while a sequence is pending a whole tick changes nothing and sends nothing |
| NwsSequencer.PollGuildStartsAtMostOne | nwsshutdown/core.py:38-55 | one guild's turn creates at most one task, only from an idle state, and leaves the state unchanged otherwise |
| NwsSequencer.TickStartsAtMostOneTimer | nwsshutdown/core.py:21-40 | one tick (with no command during `handle_alert`) creates at most one countdown task; if it does, the flag was down and ends up with that task running; if not, the state is unchanged |
| NwsSequencer.TickWithoutAdmins | nwsshutdown/core.py:38-47 | when no admin resolves, an idle tick ends idle with no message and no task |
| NwsSequencer.TickStartsOnFirstMatch | nwsshutdown/core.py:22-40 | every task a tick creates is for a monitored guild and carries the first fetched alert whose event that guild tracks |
| NwsSequencer.NoticeAt | nwsshutdown/core.py:61-66 | round i yields a message iff the admin was found and that send was delivered, and the message says 5-i minutes |
| NwsSequencer.InterjectFacts | nwsshutdown/core.py:79-89 | a command during the countdown appends only its reply; only "no" changes the state, by clearing the flag and cancelling the task |
| NwsSequencer.RoundQuiet | nwsshutdown/core.py:61-66 | a round with no command adds only its own message |
| NwsSequencer.RoundOnlyAppends | nwsshutdown/core.py:61-66 | a countdown round (`Round`) only adds to the log and never raises the flag |
| NwsSequencer.RoundsOnlyAppend | nwsshutdown/core.py:61-66 | the remaining rounds (`RoundsFrom`) only add to the log and never raise the flag |
| NwsSequencer.QuietRounds | nwsshutdown/core.py:61-66 | rounds with no command add exactly their own messages, in round order |
| NwsSequencer.RoundFacts | nwsshutdown/core.py:61-66 | a round preserves the invariant: a stopped task took the flag down and the task itself logged nothing after the "cancelled" reply; a live task is running; and there is no shutdown yet. A surviving round saw no "no" during its wait, and with `except Exception:` none during its message either |
| NwsSequencer.RoundsKeepSettled | nwsshutdown/core.py:61-66 | all remaining rounds preserve that invariant |
| NwsSequencer.RunningMeansNoCancel | nwsshutdown/core.py:61-66 | with `except Exception:` a task still running after the rounds received no "no" at any point those rounds reached |
| NwsSequencer.SleepCancelStops | nwsshutdown/core.py:61-62 | under either handler a "no" during the wait before round k has stopped the task by the end of the rounds |
| NwsSequencer.FinishFacts | nwsshutdown/core.py:68-77 | the end of the task always leaves it finished. A task already stopped by a "no", or a "no" before the announcement or during the final wait, prevents the shutdown and leaves the flag down, and the task itself logs nothing after the reply |
| NwsSequencer.Finish | nwsshutdown/core.py:68-77 | the end of the task only adds to the log, never raises the flag, and leaves a task that reached it finished |
| NwsSequencer.Countdown | nwsshutdown/core.py:57-77 | the whole countdown task, under either handler, never raises the flag |
| NwsSequencer.CatchErrorsHonorsCancel | nwsshutdown/core.py:57-77 | with `except Exception:`, a "no" at any point the countdown reaches means the shutdown never happens and the flag ends down. The task itself logs nothing after the "cancelled" reply: no message, no announcement, no shutdown |
| NwsSequencer.CancelAtWaitStops | nwsshutdown/core.py:57-77 | under either handler, including the bare `except:` as written, a "no" during a round's wait (:62), at the channel lookup (:68) or during the final wait (:75) means no shutdown and the flag down, and the task itself logs nothing after the "cancelled" reply |
| NwsSequencer.SingleSleepCancel | nwsshutdown/core.py:57-77 | a single "no" during the wait before round k leaves exactly the messages of the earlier rounds followed by the reply, with the flag down and the task finished |
| NwsSequencer.NoCancelRounds | nwsshutdown/core.py:61-66 | when no command is a "no", the rounds leave the task running in the same state, with no shutdown yet |
| NwsSequencer.NoCancelShutsDown | nwsshutdown/core.py:57-89 | when every command during the countdown is "yes" or an unrecognised word, under either handler, the shutdown is triggered exactly once, as the last effect, and the flag ends down with the task finished |
| NwsSequencer.CountdownUninterrupted | nwsshutdown/core.py:57-77 | with no commands the countdown does the following in order: sends the five rounds' messages, posts the announcement if a channel is found, triggers the shutdown, and takes the flag down |
| NwsSequencer.AnnouncementFailureStrandsPending | nwsshutdown/core.py:71-77 | a failing announcement send ends the task before the shutdown and before the flag is reset, so the flag stays up |
| NwsSequencer.SwallowedRound | nwsshutdown/core.py:63-66 | under the bare `except:` a "no" during round k's message clears the flag, but the task goes on running |
| NwsSequencer.SwallowedRounds | nwsshutdown/core.py:61-66 | under the bare `except:` a single "no" during round k's message leaves the other rounds' messages and the task running |
| NwsSequencer.FinishQuiet | nwsshutdown/core.py:68-77 | a running task with no late command posts the optional announcement, triggers the shutdown and takes the flag down |
| NwsSequencer.CatchAllSwallowsCancelInSend | nwsshutdown/core.py:63-66 | as written, a "no" during a round's message is answered "cancelled", yet the shutdown is the last thing the task does |
| NwsSequencer.SwallowedCancelRearmsPoll | nwsshutdown/core.py:38-40 | after a "no" swallowed in round k the flag is down while the task runs, and the next matching poll starts a second countdown task |
| NwsSequencer.NoticesCountDown | nwsshutdown/core.py:61-64 | all round messages go to the admin found at the start (none without one), there is at most one per round, and the minutes strictly decrease within the bounds of the rounds |
| NwsSequencer.NoticesBelow | nwsshutdown/core.py:61-64 | no message of rounds lo and later says more than 5-lo minutes |
| NwsSequencer.NoticePresentIffDelivered | nwsshutdown/core.py:61-66 | the message for round i, saying 5-i minutes, is sent iff that round's send went through; a failed send skips only that round |
| NwsSequencer.FullCountdownMessages | nwsshutdown/core.py:61-64 | with every send delivered the messages say exactly 5, 4, 3, 2, 1 minutes, in that order |
| NwsSequencer.NoticeText | nwsshutdown/core.py:64 | a round's text starts with "@" followed by the admin's display name |
| NwsSequencer.NoticeTextStatesMinutes | nwsshutdown/core.py:64 | the round text starts with "@" and the admin's name, and its number reads back as the minutes |
| NwsSequencer.MessagesNameTheirSubject | nwsshutdown/embeds.py:8-19 | the admin embed and the shutdown notice contain the event, a round message contains the admin's name, and only the task bookkeeping effects have no text |
| NwsCog.WeatherShutdown.constructor | nwsshutdown/core.py:9-13 | the cog starts with no pending sequence, no task and no stored guild record |
| NwsCog.WeatherShutdown.ApplyDecision | nwsshutdown/core.py:81-89 | the state and the log after a classified command are exactly `Decided` |
| NwsCog.WeatherShutdown.Shutdown | nwsshutdown/core.py:79-89 | `shutdown` lower-cases its argument and leaves exactly the state and log of `ShutdownCommand` |
| NwsCog.WeatherShutdown.HandleAlert | nwsshutdown/core.py:42-55 | the state and the log after `handle_alert` are exactly those of `NwsSequencer.HandleAlert` |
| NwsCog.WeatherShutdown.PollOne | nwsshutdown/core.py:22-40 | one guild's turn leaves exactly the state and the log of `PollGuild` |
| NwsCog.WeatherShutdown.AlertCheckLoop | nwsshutdown/core.py:19-40 | the loop over the guilds leaves exactly the state and the log of `Tick`, and does not change the configuration |
| NwsCog.WeatherShutdown.InterjectAt | nwsshutdown/core.py:79-89 | a command run at a suspension point of the countdown performs `Interject` on the fields |
| NwsCog.WeatherShutdown.CountdownRound | nwsshutdown/core.py:61-66 | one round performs `Round` on the fields under the given handler: the wait, then the direct message; a "no" during the message ends the task under `except Exception:` and is swallowed under the bare `except:` |
| NwsCog.WeatherShutdown.StartShutdownTimer | nwsshutdown/core.py:57-77 | the countdown loop leaves exactly the state and the log of `Countdown` under the given handler: the bare `except:` as written, or `except Exception:` |
| NwsCog.WeatherShutdown.FinishTask | nwsshutdown/core.py:68-77 | the announcement, the last wait and the shutdown perform `Finish` on the fields |
| NwsCog.WeatherShutdown.AddAlert | nwsshutdown/core.py:118-126 | the guild's list becomes `NwsConfig.AddAlert` of the old one, the stored records stay well formed, other guilds are untouched, and the reply is the duplicate message or "Alert '…' added." |
| NwsCog.WeatherShutdown.RemoveAlert | nwsshutdown/core.py:128-136 | the guild's list becomes `NwsConfig.RemoveAlert` of the old one, the records stay well formed, other guilds are untouched, and the reply says removed or refused |
| NwsCog.WeatherShutdown.Toggle | nwsshutdown/core.py:112-116 | `enabled` is flipped for that guild only, and the reply names the new setting |
| IntentHandler.MatchIntent | naturalassistant/intent_handler.py:1-6 | None iff no stored phrase, lower-cased, occurs in the lower-cased message (so also when nothing is stored); otherwise the record of the first matching entry in insertion order |
| IntentHandler.EmptyPhraseMatches | naturalassistant/intent_handler.py:4 | the empty phrase matches every message |
| IntentHandler.MatchIgnoresCase | naturalassistant/intent_handler.py:4 | lower-casing the message does not change which intent matches |
| IntentHandler.MatchIsStored | naturalassistant/intent_handler.py:3-5 | a matched record is the one stored under a phrase that matches |
| IntentHandler.LookupAt | naturalassistant/intent_handler.py:3-5 | in a dictionary each entry's phrase reads back as that entry's record |
| PermissionChecker.AnyRoleAllowed | naturalassistant/permission_checker.py:4-7 | the role search succeeds iff some role of the member is allowed |
| PermissionChecker.CheckUserPermission | naturalassistant/permission_checker.py:1-7 | an administrator always passes; anyone else passes iff one of their roles is allowed |
| PermissionChecker.EmptyAllowedOnlyAdmins | naturalassistant/permission_checker.py:2-7 | with no allowed roles only administrators pass |
| PermissionChecker.MoreRolesNeverDeny | naturalassistant/permission_checker.py:4-6 | allowing more roles never turns an allowed member away |
| PermissionChecker.RoleOrderIrrelevant | naturalassistant/permission_checker.py:4-7 | only which roles a member has matters, not their order |
| AssistantConfig.Phrases | naturalassistant/config_manager.py:16-17 | the phrases are listed in the order of the entries |
| AssistantConfig.Lookup | naturalassistant/config_manager.py:7-8 | reading a phrase gives None iff it is not stored, and otherwise a record stored under it |
| AssistantConfig.Put | naturalassistant/config_manager.py:8 | assignment adds an entry only for a new phrase |
| AssistantConfig.Delete | naturalassistant/config_manager.py:13 | `pop` never adds an entry |
| AssistantConfig.LookupPut | naturalassistant/config_manager.py:7-9 | after `add_intent` the phrase reads as the new record, overwriting any earlier one, and every other phrase reads as before |
| AssistantConfig.PutOrder | naturalassistant/config_manager.py:8 | assignment keeps an existing phrase in place and adds a new one last, and the table stays a dictionary |
| AssistantConfig.PutPhrases | naturalassistant/config_manager.py:8 | the phrase order after an assignment, for any table |
| AssistantConfig.LookupDelete | naturalassistant/config_manager.py:12-14 | after `remove_intent` the phrase is absent and every other phrase reads as before |
| AssistantConfig.DeleteAbsent | naturalassistant/config_manager.py:13 | removing an absent phrase is a silent no-op |
| AssistantConfig.DeleteKeepsOrder | naturalassistant/config_manager.py:13 | removal keeps exactly the other entries and the table stays a dictionary; removing a stored phrase cuts out its one entry, so the entries before and after it stay in order |
| AssistantConfig.DeleteKeepsOthers | naturalassistant/config_manager.py:13 | removal keeps exactly the entries with other phrases, and the table stays a dictionary |
| AssistantConfig.DeleteCutsEntry | naturalassistant/config_manager.py:13 | popping the phrase of entry k gives the table with just entry k cut out |
| AssistantConfig.ConfigManager.constructor | naturalassistant/core.py:26-27 | the store starts with no intents and both API keys None |
| AssistantConfig.ConfigManager.AddIntent | naturalassistant/config_manager.py:5-9 | the intents become `Put` of the old ones with the new record; the keys are unchanged |
| AssistantConfig.ConfigManager.RemoveIntent | naturalassistant/config_manager.py:11-14 | the intents become `Delete` of the old ones; the keys are unchanged |
| AssistantConfig.ConfigManager.ListIntents | naturalassistant/config_manager.py:16-17 | returns the stored intents |
| AssistantConfig.ConfigManager.SetPteroApiKey | naturalassistant/config_manager.py:19-21 | sets the Pterodactyl key and leaves the GPT key and the intents alone |
| AssistantConfig.ConfigManager.GetPteroApiKey | naturalassistant/config_manager.py:23-24 | returns the last key set, or None before any |
| AssistantConfig.ConfigManager.SetGptApiKey | naturalassistant/config_manager.py:26-27 | sets the GPT key and leaves the Pterodactyl key and the intents alone |
| AssistantConfig.ConfigManager.GetGptApiKey | naturalassistant/config_manager.py:29-30 | returns the last key set, or None before any |
| AssistantCog.RolesOf | naturalassistant/core.py:123 | a record without "roles" counts as allowing no role |
| AssistantCog.OnMessage | naturalassistant/core.py:114-135 | a message from a bot or outside a guild gets nothing; an action is never started without a reply; a started action is answered with the formatted text, or with the generic error when it raised |
| AssistantCog.InvokesOnlyPermittedMatch | naturalassistant/core.py:121-132 | an action is started only for the first matching stored phrase, and only when the author passes that intent's role check, with its action and server id; conversely, a guild message from a person whose first match the author may use starts exactly that intent's action |
| AssistantCog.NoMatchIsSilent | naturalassistant/core.py:121-122 | a message matching no phrase gets no reply and starts nothing |
| AssistantCog.DeniedStartsNothing | naturalassistant/core.py:123-126 | a matched intent the author may not use gets the denial reply and no action |
| AssistantCog.MissingRolesOnlyAdmins | naturalassistant/core.py:123-124 | an intent without "roles" starts an action iff the author is an administrator |
| AssistantCog.ErrorsGiveGenericReply | naturalassistant/core.py:133-135 | an exception in the lookup or the action gives the single generic error reply |
| AssistantCog.NaturalAssistant.constructor | naturalassistant/core.py:22 | the monitor interval starts at 5 minutes |
| AssistantCog.NaturalAssistant.SetMonitorInterval | naturalassistant/core.py:103-111 | below one minute is refused with the fixed reply and the interval is unchanged; otherwise the interval becomes the argument and the reply states it |
| AnnouncementsCog.TwoDigits | announcements/announcements.py:20 | a clock field is printed as exactly two decimal digits |
| AnnouncementsCog.FormatClock | announcements/announcements.py:20 | `%H:%M:%S` is eight characters with colons at positions 2 and 5 |
| AnnouncementsCog.FormatClockRoundTrip | announcements/announcements.py:20 | the hour, minute and second read back from the printed time |
| AnnouncementsCog.StatusMessage | announcements/announcements.py:20 | the stored message is 11 characters longer than the status |
| AnnouncementsCog.StatusMessageParts | announcements/announcements.py:20 | the stored message is "[", the time, "] " and then the status unchanged |
| AnnouncementsCog.Announcements.constructor | announcements/announcements.py:6-12 | the record starts as "Red", the fixed avatar URL and "Server is offline." |
| AnnouncementsCog.Announcements.FiveMStatus | announcements/announcements.py:14-22 | all three fields are replaced: the author's name, the avatar URL or "" without one, and the stamped status; the reply quotes the status |
| AnnouncementsCog.Announcements.GetLatest | announcements/announcements.py:24-31 | the current fields are returned unchanged with the given timestamp, and the record is not modified |

## Left out

- NwsSequencer.SwallowedCancelRearmsPoll: the model keeps one task handle, as `shutdown_timer_task` is one attribute. When a second countdown is created (nwsshutdown/core.py:55), the first task is no longer referenced but keeps running. A later `shutdown no` (core.py:83-84) cancels only the new task. The orphaned first task still sends its messages and the announcement, and triggers the shutdown (core.py:76-77). The model does not represent that first task after the second starts.
- NwsSequencer.TimerInputs: at most one `shutdown` command runs at each suspension point. In the code several can run during one wait, for example a "no" and then a "yes" during `asyncio.sleep(60)` (core.py:62). The "confirmed" reply then follows the "cancelled" one before the task ends. Hence the cancel lemmas promise only that the task itself logs nothing after the reply. The settings read at core.py:58 is folded into the first round's wait, and a "no" there has the same effect. The read at core.py:68 is the channel-lookup point.
- NwsSequencer.HandleAlert: treats `handle_alert` as one step with no command during its two waits (nwsshutdown/core.py:43 and :51). `PollGuild`, `Tick`, `NwsCog.WeatherShutdown.HandleAlert` and `NwsCog.WeatherShutdown.AlertCheckLoop` use that case. `NwsSequencer.HandleAlertAt` models commands at those waits on its own, and `CancelInHandleAlertStillStarts` states the outcome.
- Fetching alerts over HTTP (nwsshutdown/utils.py), the Pterodactyl client and the OpenAI formatter are foreign I/O. They enter as inputs: the fetched alert list and the outcome of the action plus formatting.
- NwsSequencer.Tick: the fetched list is empty for a non-200 reply (nwsshutdown/utils.py:7-8). A connection error or an undecodable body raises instead, and core.py:31 has no `try`. That run of `alert_check_loop` then ends at that guild, so it equals `Tick` over the guilds before it. The model has no raising fetch of its own.
- The resource monitor (psutil, float thresholds), the Flask server and its thread, and the plugins' `setup` functions are I/O and concurrency with no decision logic of the core.
- Sleep durations (60 s, 300 s) and `tasks.loop` scheduling are not modelled. The model keeps only the points where the task yields. A poll tick running in the middle of a countdown is a separate step, not interleaved with the task. While the flag is up it changes nothing (`TickDebounced`). When a swallowed or early "no" has taken the flag down under a running task, it starts a second countdown (`SwallowedCancelRearmsPoll`).
- A cancellation that arrives while `channel.send` of the announcement is in flight is not a separate point. The cancellation points are the channel lookup and the final wait.
- The admin lookup (`admin_id` read and `get_member`) and the channel lookup are inputs. The mismatch between the `admin_id` key and the registered `admin_ids` key means that, in the code, the admin is found only if `setadmin` stored one.
- Embed titles, colours and footers are not modelled, and neither is Discord message delivery beyond success or failure. Only the description texts and the field values are modelled.
- The `status`, `checknow`, `testalert` and `testshutdown` commands are debug or rendering paths over logic modelled elsewhere. They reuse the same filter, `handle_alert` and countdown.
- The `setlocation`, `setadmin` and `setchannel` commands only store a value. Float parsing of lat/lon is not modelled.
- Latitude and longitude are reals. NaN and -0.0 are not modelled, and the falsy test is `None` or `0.0`.
- `str.lower` is modelled on ASCII letters only. This is exact for the comparisons with "no" and "yes", but not for non-ASCII phrases in `match_intent`.
- The reply texts of `addintent`, `removeintent`, `listintents`, `setapikey` and `setgptkey` are not modelled. They are fixed strings around the store operations, which are modelled.
- Exceptions raised by the permission check or by the denial send inside `on_message` are not modelled.
- The `get_latest` timestamp (`datetime.now().isoformat()`) and the `fivemstatus` clock are inputs.
- nwsshutdown/core.py:8 derives the cog from `commands.Cog` without importing `commands`. Loading the module would fail. The model describes the class as if the import were present.

## Findings

| source | as written | input that shows it | evidently intended | confidence | as-written member | corrected member |
|---|---|---|---|---|---|---|
| nwsshutdown/core.py:63-66 | the round's bare `except:` also catches the `CancelledError` that `task.cancel()` raises at the pending `admin.send`, and continues with the next round | an admin is found and the channel send does not fail; a single `shutdown no` arrives while round k's direct message is being sent | the "no" ends the countdown before the shutdown, as `except Exception:` would | not executed | NwsSequencer.CatchAllSwallowsCancelInSend | NwsSequencer.CatchErrorsHonorsCancel |
