# chadd-tools core, modelled in Dafny

This project models the decision logic of five scripts from the chadd-tools
repository: a voicemail, two Bluesky tools, a calendar reader and an uptime monitor.

- **Voicemail webhook** (`ab/ai-flow-webhook.py`). For each call event the telephony
  platform posts, the handler updates a map from session id to a record. The
  record holds the caller, the collected messages and the `beeped` and `thanked`
  flags. The handler answers with at most one `speak` or `audio` action.
  Notifications are kept in a ghost log. `AiFlowWebhook.FlowHandler` changes its
  map in place. `AiFlowWebhook.Step` is the same transition as a function, and
  `AiFlowWebhook.Run` folds it over a sequence of events, so that whole calls can
  be reasoned about.
- **Bluesky post queue** (`bluesky/bsky-dashboard.py`). The class
  `BskyDashboard.PostQueue` holds the list of post records. Its methods are add,
  approve, reject, edit, delete and mark-posted. The pure views are the counts
  per tab, the tab list sorted newest first, the oldest approved post and the
  API token check.
- **Settings file** (`load_env` in `bluesky/bsky-dashboard.py` and
  `bluesky/bsky-autoposter.py`, which carry the same code). This is module
  `EnvFile`. `calendar/cal-check.py` reads the same kind of file with the same
  loop but a different line rule (`CalCheck.EnvLine`).
- **Auto-poster run** (`bluesky/bsky-autoposter.py`), module `BskyAutoposter`:
  - the quiet hours;
  - the daily reset;
  - the one-standalone-post-per-day limit;
  - the counter update;
  - the notification text.
- **Calendar reader** (`calendar/cal-check.py`), module `CalCheck`:
  - line unfolding, as in section 3.1 of RFC 5545;
  - VEVENT extraction;
  - the printed records with their defaults and truncation;
  - the final sort by start.
- **Uptime monitor** (`monitoring/uptime-check.py`), module `UptimeCheck`:
  - the hostname, and the `ok` rule of `check_site`;
  - the five alert rules;
  - the state update of the loop over the sites.

Shared modules:

- `PyStr` holds the Python `str` operations with Python's semantics:
  - `strip()` over Python's white-space set, and `strip(c)`;
  - `find` and `in`;
  - `split` and `join`;
  - `partition`;
  - `replace(p, "")`;
  - `[:n]`;
  - string ordering.
- `KeySort` holds `sort(key=…)` in both directions.
- `Wrappers` holds `Option`.

Several things are parameters of the model rather than modelled:

- the clock (time, date, hour, timestamps);
- uuids;
- the beep clip;
- the lines of settings files;
- the HTTP outcomes and the certificate check;
- `parse_dt`;
- the dashboard's and Bluesky's answers.

Where the repository's description of the webhook and its code differ, the model
follows the code:

- `session_start` overwrites an existing record.
- Lazily created records have no `beeped` key.
- A repeated `session_end`, or one for an unknown id, notifies again
  (`AiFlowWebhook.DuplicateEndNotifiesAgain`).
- An unknown id gets the beep on every `assistant_speech_ended`
  (`AiFlowWebhook.UnknownSessionBeepsEachTime`).

## Model

| member | source | states |
|---|---|---|
| AiFlowWebhook.OnSessionStart | ab/ai-flow-webhook.py:108-125 | the map gets `sid` and keeps every other entry; the record is the payload's caller with no messages, `beeped` false and not thanked; no notification; the reply is `speak` with the greeting and timeout 30 |
| AiFlowWebhook.OnUserSpeak | ab/ai-flow-webhook.py:127-138 | the entry exists afterwards; its caller and flags are those of the old record (or of a lazily created one); its messages are the old ones plus the stripped text exactly when that is non-empty; other entries are untouched; no reply and no notification |
| AiFlowWebhook.OnInputTimeout | ab/ai-flow-webhook.py:140-165 | a notification is sent iff the record has messages and is not thanked; in that case the record becomes thanked, the notification carries its caller and messages, and the reply is the thank-you with no timeout; with no messages the record is only created if missing and the re-prompt with timeout 15 is sent; when already thanked there is no reply |
| AiFlowWebhook.OnSessionEnd | ab/ai-flow-webhook.py:167-177 | the id is removed and every other entry is unchanged; a notification is sent iff there was no thanked record, and it carries the record's caller and messages, or the defaults "unbekannt" and none; no reply |
| AiFlowWebhook.OnSpeechEnded | ab/ai-flow-webhook.py:182-193 | the audio reply is sent iff the beep clip is non-empty and the id has no record already marked beeped; a known record is then marked; no key is added, so an unknown id stays unknown; no notification |
| AiFlowWebhook.Step | ab/ai-flow-webhook.py:103-195 | only the event's session entry can change; any notification and reply are for that session; `assistant_speak` and unknown event types change nothing and answer nothing |
| AiFlowWebhook.FlowHandler.constructor | ab/ai-flow-webhook.py:23-34 | an empty session map, an empty notification log and the beep clip as loaded |
| AiFlowWebhook.FlowHandler.SessionStart | ab/ai-flow-webhook.py:108-125 | the map in place becomes what `OnSessionStart` gives, and the reply is its action |
| AiFlowWebhook.FlowHandler.UserSpeak | ab/ai-flow-webhook.py:127-138 | the map in place becomes what `OnUserSpeak` gives; no action |
| AiFlowWebhook.FlowHandler.InputTimeout | ab/ai-flow-webhook.py:140-165 | map and log become what `OnInputTimeout` gives, the notification appended to the log |
| AiFlowWebhook.FlowHandler.SessionEnd | ab/ai-flow-webhook.py:167-177 | map and log become what `OnSessionEnd` gives (the `pop` and the notification) |
| AiFlowWebhook.FlowHandler.SpeechEnded | ab/ai-flow-webhook.py:182-193 | the map becomes what `OnSpeechEnded` gives for the loaded clip; the log is unchanged |
| AiFlowWebhook.FlowHandler.HandleEvent | ab/ai-flow-webhook.py:103-195 | the in-place map and the ghost log after the event are exactly `Step` of the old map, and the returned action is `Step`'s reply |
| AiFlowWebhook.FlowHandler.HandlePost | ab/ai-flow-webhook.py:68-101 | the status is `ResponseStatus` of the token check, the decoding (`body` is None when `json.loads` raised `JSONDecodeError`) and the action; a rejected request changes neither map nor log; an accepted one is `Step` |
| AiFlowWebhook.Authorized | ab/ai-flow-webhook.py:72-77 | the request passes iff no secret is configured or the `X-API-TOKEN` header equals it |
| AiFlowWebhook.ResponseStatus | ab/ai-flow-webhook.py:72-101 | 401 iff unauthorized; 400 iff authorized and `json.loads` raised `JSONDecodeError`; 200 iff decoded with an action; 204 iff decoded without one |
| AiFlowWebhook.Bullets | ab/ai-flow-webhook.py:40 | one line per message, in order, each `"  > "` followed by the message |
| AiFlowWebhook.HeaderJoin | ab/ai-flow-webhook.py:42-47 | the four header lines joined by newlines, plus a newline, are the text's header |
| AiFlowWebhook.NotificationText | ab/ai-flow-webhook.py:40-48 | the notification text is the four header lines, then one `  > m` line per message or the "(keine Nachricht hinterlassen)" line, joined by newlines |
| AiFlowWebhook.FlowHandler.NotifyClawdbot | ab/ai-flow-webhook.py:38-64 | sending appends exactly one notification (session, caller, messages) to the log; nothing else changes |
| AiFlowWebhook.NotificationLines | ab/ai-flow-webhook.py:40-47 | splitting the text at newlines gives the four header lines, then one `  > m` line per message in order, or the single "(keine Nachricht hinterlassen)" line when there are none |
| AiFlowWebhook.BodyLinesWithoutNewline | ab/ai-flow-webhook.py:41 | when no message contains a newline, no bullet line does |
| AiFlowWebhook.NotificationLinesWithoutNewline | ab/ai-flow-webhook.py:41-47 | when the caller, the time and the messages contain no newline, no line of the notification does |
| AiFlowWebhook.RunWith | ab/ai-flow-webhook.py:103-195 | events handled one after the other by a given transition give one reply per event; `RunWithAppend` is its composition law |
| AiFlowWebhook.Run | ab/ai-flow-webhook.py:103-195 | the handler's own transition `Step` with the loaded clip, folded over a sequence of events: one reply per event |
| AiFlowWebhook.RunWithAppend | ab/ai-flow-webhook.py:103-195 | handling `a + b` is handling `a` and then `b` from the resulting map; logs and replies concatenate |
| AiFlowWebhook.RunUnfold | ab/ai-flow-webhook.py:103-195 | a run is its first step followed by the run of the rest |
| AiFlowWebhook.RunAppend | ab/ai-flow-webhook.py:103-195 | `RunWithAppend` for the handler's own transition |
| AiFlowWebhook.NotificationsForAppend | ab/ai-flow-webhook.py:37-48 | the per-session notification count of a concatenated log is the sum |
| AiFlowWebhook.SessionIsolation | ab/ai-flow-webhook.py:103-195 | events for other sessions never change the record of `sid`, never notify for it and never reply for it |
| AiFlowWebhook.StepThanked | ab/ai-flow-webhook.py:140-177 | an event that neither starts nor ends `sid` notifies for it exactly when it turns its record thanked |
| AiFlowWebhook.ThankedTracksNotifications | ab/ai-flow-webhook.py:140-165 | between start and end of a call, the notifications for it equal the change of its `thanked` flag, so at most one |
| AiFlowWebhook.StartLogsNothing | ab/ai-flow-webhook.py:108-125 | a `session_start` sends no notification and leaves the record not thanked |
| AiFlowWebhook.EndNotifiesUnlessThanked | ab/ai-flow-webhook.py:167-177 | a `session_end` sends one notification for the session unless its record was already thanked, and none if it was |
| AiFlowWebhook.ExactlyOneNotificationPerCall | ab/ai-flow-webhook.py:108-177 | a call from `session_start` to `session_end`, with neither in between, sends exactly one notification for its session, whatever else happens |
| AiFlowWebhook.TimeoutThenEndNotifiesOnce | ab/ai-flow-webhook.py:140-177 | a timeout with messages followed by the end logs exactly one notification with the caller and messages |
| AiFlowWebhook.DuplicateEndNotifiesAgain | ab/ai-flow-webhook.py:167-177 | two `session_end` events for an unthanked call notify twice |
| AiFlowWebhook.StepBeeped | ab/ai-flow-webhook.py:182-193 | for a known session, one event plays the beep exactly when it sets `beeped` |
| AiFlowWebhook.BeepAtMostOnce | ab/ai-flow-webhook.py:182-193 | for a known session, audio replies plus the initial flag equal the final flag, so the beep plays at most once until the call restarts or ends |
| AiFlowWebhook.UnknownSessionBeepsEachTime | ab/ai-flow-webhook.py:185 | an id with no record gets the audio reply on each of two `assistant_speech_ended` events |
| AiFlowWebhook.Utterances | ab/ai-flow-webhook.py:127-128 | the events built are `user_speak` events for `sid` carrying the given texts |
| AiFlowWebhook.UtterancesUnfold | ab/ai-flow-webhook.py:127-138 | a run of utterances is the `user_speak` transition of the first followed by the run of the rest |
| AiFlowWebhook.SpeakAppends | ab/ai-flow-webhook.py:127-138 | one utterance creates the record if needed and appends its stripped text unless blank |
| AiFlowWebhook.KeptCons | ab/ai-flow-webhook.py:128-135 | the kept texts of a list are the first text's kept text (its strip, or nothing when blank) followed by those of the rest |
| AiFlowWebhook.CollectCompose | ab/ai-flow-webhook.py:135 | appending `k1` and then `k2` to the caller's messages is appending `k1 + k2` |
| AiFlowWebhook.UtterancesCollect | ab/ai-flow-webhook.py:127-138 | after a run of utterances the caller's record exists iff it did before or some utterance came, and its messages are the old ones followed by the kept texts |
| AiFlowWebhook.UtterancesSilent | ab/ai-flow-webhook.py:127-138 | a run of utterances sends no notification and no reply |
| AiFlowWebhook.UtterancesKeepOrder | ab/ai-flow-webhook.py:127-138 | after a run of utterances the record holds its old messages followed by the non-blank stripped texts in order; caller and flags unchanged; no reply, no notification |
| EnvFile.ParseLine | bluesky/bsky-dashboard.py:27-30 | a line is skipped iff, once stripped, it has no '=' or starts with '#'; a kept key has no '=' and is stripped |
| EnvFile.UnquoteQuoted | bluesky/bsky-dashboard.py:30 | stripping white space, then '"', then '\'' from a bare, double- or single-quoted clean value gives the value back |
| EnvFile.ParseRender | bluesky/bsky-dashboard.py:27-30 | a rendered line `key=value`, with the value bare or quoted, parses back to exactly that key and value |
| EnvFile.Load | bluesky/bsky-dashboard.py:22-31 | the dictionary built line by line is `EnvOf` of the lines under the line rule |
| EnvFile.KeySetByALine | bluesky/bsky-dashboard.py:26-30 | a key is in the result iff some line sets it |
| EnvFile.LastLineWins | bluesky/bsky-autoposter.py:26-30 | a key's value comes from a line setting it to that value after which no line sets the key |
| BskyDashboard.FirstIndex | bluesky/bsky-dashboard.py:328-332 | the position found has the id and no earlier post has it; None iff no post has it |
| BskyDashboard.PostQueue.constructor | bluesky/bsky-dashboard.py:287 | a queue holding the loaded posts |
| BskyDashboard.PostQueue.Add | bluesky/bsky-dashboard.py:305-322 | added iff the stripped text is non-empty; if not, the queue is unchanged; if so, exactly one post is appended: new id, stripped text, "pending", created now, no approval, posting or URI |
| BskyDashboard.PostQueue.UpdateFirstMatch | bluesky/bsky-dashboard.py:328-332 | the loop with `break` finds `FirstIndex` and changes only that post |
| BskyDashboard.PostQueue.Approve | bluesky/bsky-dashboard.py:326-334 | the queue becomes `UpdateFirst` with the approval stamp |
| BskyDashboard.PostQueue.Reject | bluesky/bsky-dashboard.py:336-345 | the queue becomes `UpdateFirst` with the status set to "rejected" |
| BskyDashboard.PostQueue.MarkPosted | bluesky/bsky-dashboard.py:399-407 | the queue becomes `UpdateFirst` with the posted stamp and the optional URI |
| BskyDashboard.PostQueue.Edit | bluesky/bsky-dashboard.py:349-363 | blank text changes nothing; otherwise only the first matching post gets the stripped text, and the tab is the status of the last post with that id, or "pending" |
| BskyDashboard.PostQueue.Delete | bluesky/bsky-dashboard.py:367-371 | the queue becomes `Without` the id |
| BskyDashboard.FirstIndexIs | bluesky/bsky-dashboard.py:328-332 | a matching position with no match before it is `FirstIndex` |
| BskyDashboard.UpdateFirst | bluesky/bsky-dashboard.py:328-332 | length kept, only the first match is changed (to `update` of itself), and an unknown id changes nothing |
| BskyDashboard.ApproveEffect | bluesky/bsky-dashboard.py:328-332 | the first post with the id, and no other, becomes "approved" with `approved_at` = now and otherwise unchanged; an unknown id changes nothing |
| BskyDashboard.RejectEffect | bluesky/bsky-dashboard.py:340-343 | only the first matching post's status changes, to "rejected"; its timestamps and all other posts are kept |
| BskyDashboard.MarkPostedEffect | bluesky/bsky-dashboard.py:400-406 | the matching post becomes "posted" at now; its URI changes only when a non-empty different one is given; nothing else changes |
| BskyDashboard.UpdateFirstKeepsStatus | bluesky/bsky-dashboard.py:354-362 | an edit keeps the last status of every id, so the tab is computed as on the old queue |
| BskyDashboard.SameIdsAndStatuses | bluesky/bsky-dashboard.py:359-362 | the tab depends only on the ids and statuses |
| BskyDashboard.EditTabOfUniqueId | bluesky/bsky-dashboard.py:359-362 | with one post of that id, the tab is its status |
| BskyDashboard.EditTabOfUnknownId | bluesky/bsky-dashboard.py:359 | with no post of that id, the tab is "pending" |
| BskyDashboard.Without | bluesky/bsky-dashboard.py:369 | a post remains iff it was there and has another id; the queue does not grow |
| BskyDashboard.DeleteAppend | bluesky/bsky-dashboard.py:369 | deleting works piecewise over a concatenation, so the relative order of the rest is kept |
| BskyDashboard.DeleteUnknown | bluesky/bsky-dashboard.py:369 | deleting an id no post has leaves the queue unchanged |
| BskyDashboard.WithStatus | bluesky/bsky-dashboard.py:295 | exactly the posts with the tab's status and no more than the queue |
| BskyDashboard.Count | bluesky/bsky-dashboard.py:291-295 | the count per status is the length of that tab's list, and at most the queue length |
| BskyDashboard.CountsBounded | bluesky/bsky-dashboard.py:291-293 | the four counts add up to at most the queue length |
| BskyDashboard.TabView | bluesky/bsky-dashboard.py:295-297 | a permutation of the tab's posts, containing exactly those with the tab's status, sorted by `created_at` (default "") descending |
| BskyDashboard.NextApproved | bluesky/bsky-dashboard.py:382-388 | None iff no post is approved; otherwise an approved post of the queue whose `created_at` is not greater than that of any approved post |
| BskyDashboard.Pin | bluesky/bsky-dashboard.py:22-38 | over the env file's lines: "yuzu2026" when no line sets BSKY_DASHBOARD_PIN; otherwise the value of a line that sets it with no later line setting it |
| BskyDashboard.ApiAuthorized | bluesky/bsky-dashboard.py:378-380 | a non-empty header decides alone; a missing or empty header defers to the `token` argument; with neither the call is refused |
| BskyAutoposter.IsQuietHours | bluesky/bsky-autoposter.py:41-43 | for an hour 0..23, quiet iff hour ≥ 23 or hour < 8, that is the nine hours from 23:00 |
| BskyAutoposter.ResetForDay | bluesky/bsky-autoposter.py:152-155 | the date becomes today; on the same day the state is untouched; on another day the counter is 0 |
| BskyAutoposter.ResetIdempotent | bluesky/bsky-autoposter.py:152-155 | resetting twice on one day is resetting once |
| BskyAutoposter.LimitReached | bluesky/bsky-autoposter.py:157-160 | a reply is never held back; a standalone post is held back iff the day's counter is at least 1 |
| BskyAutoposter.RecordKey | bluesky/bsky-autoposter.py:118 | the last '/'-segment of the URI: a suffix without '/', preceded by '/' when shorter than the URI |
| BskyAutoposter.ConcatEnds | bluesky/bsky-autoposter.py:114-120 | a message built by appending starts with its first part and ends with its second |
| BskyAutoposter.NotifyMessage | bluesky/bsky-autoposter.py:110-120 | the message starts with the lead and a quoted prefix of at most 200 characters of the text (all of it when short); it ends with the profile link iff the record key is non-empty, and otherwise with the closing quote |
| BskyAutoposter.RunOnce | bluesky/bsky-autoposter.py:135-176 | one iff per outcome: quiet hours; missing BSKY_HANDLE; nothing approved; limit hit (a standalone post with the reset counter ≥ 1); publish failed. When published, the post's id and URI are sent to `mark_posted`, the saved state is dated today, its counter is the reset one plus 1 for a standalone post and unchanged for a reply, and the message is `NotifyMessage` |
| BskyAutoposter.OneStandalonePerDay | bluesky/bsky-autoposter.py:152-170 | after a standalone post the counter is 1, a second reset that day changes nothing, and then exactly the standalone posts hit the limit |
| BskyAutoposter.DefaultStateAllowsPost | bluesky/bsky-autoposter.py:36 | the default state resets to today with counter 0, and then no post is held back |
| BskyAutoposter.NewDayLiftsLimit | bluesky/bsky-autoposter.py:152-160 | on a new day no post hits the limit |
| CalCheck.EnvLine | calendar/cal-check.py:15-17 | a line is used iff it contains '='; its key has no '=' and the stripped line is key '=' value |
| CalCheck.LoadEnv | calendar/cal-check.py:11-18 | the dictionary filled line by line is `EnvOf` under this script's line rule |
| CalCheck.EnvLineVerbatim | calendar/cal-check.py:15-17 | key and value are kept as written, quotes and a leading '#' included |
| CalCheck.Unfold | calendar/cal-check.py:36 | unfolding never lengthens the text |
| CalCheck.UnfoldSpaceFolds | calendar/cal-check.py:36 | pieces without '\r' joined by CRLF-space unfold to the pieces run together |
| CalCheck.UnfoldTabFolds | calendar/cal-check.py:36 | pieces without '\r' joined by CRLF-tab unfold to the pieces run together |
| CalCheck.UnfoldOneFold | calendar/cal-check.py:36 | `a` CRLF-space `b`, neither with '\r', unfolds to `a + b` |
| CalCheck.UnfoldSinglePass | calendar/cal-check.py:36 | each removal is one left-to-right pass: CRLF CRLF-space space unfolds to CRLF-space, not to nothing |
| CalCheck.Lines | calendar/cal-check.py:36 | the lines joined by CRLF are the unfolded text, and no line contains CRLF |
| CalCheck.NoCarriageReturn | calendar/cal-check.py:36 | text without '\r' is left as it is and is a single line |
| CalCheck.PropKey | calendar/cal-check.py:44-45 | the key has neither ':' nor ';' and is a prefix of the line |
| CalCheck.ContentLineShape | calendar/cal-check.py:44-45 | the line is name ':' value with no ':' in the name, and the key is the name up to its first ';' |
| CalCheck.ParseIcalEvents | calendar/cal-check.py:31-47 | the loop's events are those of `ScanFrom` over the unfolded lines |
| CalCheck.ScanAppend | calendar/cal-check.py:36-46 | reading `a + b` is reading `a`, then `b` |
| CalCheck.OneEventPerEnd | calendar/cal-check.py:40-42 | one event is appended per line whose strip is END:VEVENT |
| CalCheck.ScanLine | calendar/cal-check.py:37-46 | BEGIN opens an empty event and keeps the events; END closes and appends the current event, so the events grow by one exactly for END; earlier events are kept; inside a block a content line sets its key's value; outside a block any other line changes nothing |
| CalCheck.ScanSingle | calendar/cal-check.py:36-46 | the loop over a single line is that line's branch, `ScanLine` |
| CalCheck.MarkersAreMarkers | calendar/cal-check.py:37-40 | the two marker lines are recognised as BEGIN and END respectively, and not as the other |
| CalCheck.InnerLines | calendar/cal-check.py:43-46 | inside a block the current event is the properties of the lines read so far, later keys overwriting earlier ones |
| CalCheck.BlockIsOneEvent | calendar/cal-check.py:37-46 | BEGIN, inner lines, END appends exactly one event, holding the inner lines' properties |
| CalCheck.MakeRecord | calendar/cal-check.py:116-124 | the record names its calendar, and its description is a prefix of at most 500 characters |
| CalCheck.RecordDefaults | calendar/cal-check.py:114-124 | no SUMMARY gives "(kein Titel)"; missing LOCATION, STATUS or DESCRIPTION give ""; a short description is kept whole; the start is the parsed value, or else the raw value or "?" |
| CalCheck.RecordsFor | calendar/cal-check.py:113-124 | one record per event, in order |
| CalCheck.RecordsForAppend | calendar/cal-check.py:113-124 | records of a concatenation are the concatenated records |
| CalCheck.AppendRecords | calendar/cal-check.py:113-124 | the inner loop appends `RecordsFor` the events |
| CalCheck.Collect | calendar/cal-check.py:100-126 | the result is a permutation of the records of all sources, sorted by start ascending |
| UptimeCheck.Hostname | monitoring/uptime-check.py:44 | the host contains no '/' |
| UptimeCheck.RemoveLeading | monitoring/uptime-check.py:44 | removing a scheme that occurs only at the front leaves the rest |
| UptimeCheck.NoHttpsAfterHttp | monitoring/uptime-check.py:44 | "https://" cannot occur in "http://" followed by a text without ':' |
| UptimeCheck.SchemeRemoved | monitoring/uptime-check.py:44 | both scheme removals together take a leading "http://" or "https://" off a text without ':' |
| UptimeCheck.HostnameOfPlainUrl | monitoring/uptime-check.py:44 | for http or https, a host and an empty or '/'-path without ':', the hostname is the host |
| UptimeCheck.CheckSite | monitoring/uptime-check.py:36-67 | ok iff a response arrived with 200 ≤ status < 400 (default not ok); ms only for a response; status for a response or an HTTP error; an error text for every failure; the SSL check iff the URL starts with "https://", on its hostname |
| UptimeCheck.DownAlert | monitoring/uptime-check.py:96-97 | one DOWN alert for the url iff not ok now and ok before |
| UptimeCheck.UpAlert | monitoring/uptime-check.py:100-101 | one UP alert for the url iff ok now and not ok before |
| UptimeCheck.ExpiringAlert | monitoring/uptime-check.py:104-106 | one expiry alert iff the certificate is valid and days left (default 999) < 14 |
| UptimeCheck.BrokenAlert | monitoring/uptime-check.py:109-110 | one SSL-error alert iff SSL info is present and not valid |
| UptimeCheck.SlowAlert | monitoring/uptime-check.py:113-114 | one slow alert iff the response time (default 0) exceeds 5000 ms |
| UptimeCheck.AlertsMembership | monitoring/uptime-check.py:96-114 | an alert is listed iff one of the five rules produced it |
| UptimeCheck.AlertRules | monitoring/uptime-check.py:92-114 | each kind occurs iff its rule holds, with a missing history counting as ok |
| UptimeCheck.SiteAlerts | monitoring/uptime-check.py:96-114 | every alert names the site, and there are at most three per site |
| UptimeCheck.QuietWhenHealthy | monitoring/uptime-check.py:96-114 | a site that stays ok, is fast and has a sound certificate raises no alert |
| UptimeCheck.RunChecks | monitoring/uptime-check.py:83-117 | one result per site, each `CheckSite` of its probe; the alerts are `AlertsOf`, comparing each site with the state as it stood; the state is `Recorded` |
| UptimeCheck.RecordedKeys | monitoring/uptime-check.py:117 | the urls in the state after storing the results are those in it before plus those checked |
| UptimeCheck.ChecksSnoc | monitoring/uptime-check.py:88-117 | one more site appends its alerts and stores its entry |
| UptimeCheck.StateHoldsLatest | monitoring/uptime-check.py:117 | a url not checked again later ends holding the ok and timestamp of that check |
| UptimeCheck.StateKeepsOthers | monitoring/uptime-check.py:117 | urls never checked keep their entries |
| UptimeCheck.DistinctSitesEndWithOwnResult | monitoring/uptime-check.py:88-117 | with distinct sites, every checked url ends holding exactly its current ok and timestamp |
| PyStr.TrimLeftShape | ab/ai-flow-webhook.py:128 | the left trim is a suffix, starting with a kept character, after only dropped ones |
| PyStr.TrimRightShape | ab/ai-flow-webhook.py:128 | the right trim is a prefix, ending with a kept character, before only dropped ones |
| PyStr.TrimSlice | ab/ai-flow-webhook.py:128 | the trim is the slice of the input between the dropped ends |
| PyStr.TrimEnds | ab/ai-flow-webhook.py:128 | the trim is empty or both its end characters are kept |
| PyStr.TrimShape | ab/ai-flow-webhook.py:128 | `strip` keeps the middle slice between dropped ends, and its own ends are kept characters |
| PyStr.Strip | bluesky/bsky-dashboard.py:27 | `strip()` never lengthens the text, and the result is empty or neither of its ends is white space |
| PyStr.StripIdempotent | bluesky/bsky-dashboard.py:306 | stripping twice is stripping once |
| PyStr.TrimFixed | bluesky/bsky-dashboard.py:30 | a string whose ends are kept is its own trim |
| PyStr.StripSubset | bluesky/bsky-dashboard.py:27-30 | stripping adds no character |
| PyStr.StripKeeps | calendar/cal-check.py:15-16 | stripping keeps every character that is not white space |
| PyStr.TrimWrapped | bluesky/bsky-dashboard.py:30 | `strip(c)` removes one wrapping `c` from a value whose ends are not `c` |
| PyStr.Find | monitoring/uptime-check.py:44 | the result is the first occurrence, or None when there is none |
| PyStr.ContainsChar | calendar/cal-check.py:43 | a one-character `in` test is membership of the character |
| PyStr.Split | calendar/cal-check.py:36 | at least one piece; the pieces joined by the separator give the input back; no piece contains it |
| PyStr.JoinAppend | ab/ai-flow-webhook.py:40-47 | joining a concatenation is joining each half, separated |
| PyStr.FindAfterHead | ab/ai-flow-webhook.py:40-47 | the first occurrence of a character is right after a head without it |
| PyStr.SplitJoin | ab/ai-flow-webhook.py:40-47 | splitting a join on a character no part contains gives the parts back |
| PyStr.BeforeFirst | monitoring/uptime-check.py:44 | a prefix without `c`, followed by `c` when shorter than the input |
| PyStr.BeforeFirstAbsent | monitoring/uptime-check.py:44 | with no `c`, the whole string |
| PyStr.BeforeFirstOf | calendar/cal-check.py:45 | `a` for `a + c + b` when `a` has no `c` |
| PyStr.AfterLast | bluesky/bsky-autoposter.py:118 | a suffix without `c`, preceded by `c` when shorter than the input |
| PyStr.JoinLast | bluesky/bsky-autoposter.py:118 | a join ends with its last part, preceded by the separator when there are several |
| PyStr.PartitionAt | calendar/cal-check.py:44 | the input is before + c + after, with no `c` before |
| PyStr.RemoveAll | calendar/cal-check.py:36 | removal never lengthens the text |
| PyStr.RemoveAllStep | calendar/cal-check.py:36 | where the pattern does not start, the first character is kept and the pass moves on by one |
| PyStr.RemoveAllSkip | calendar/cal-check.py:36 | a prefix without the pattern's first character is kept as it is |
| PyStr.RemoveAllFold | calendar/cal-check.py:36 | `a + p + b`, with `a` free of `p`'s first character, becomes `a` followed by the removal on `b` |
| PyStr.RemoveAllMismatch | calendar/cal-check.py:36 | a near match (same first character, then a difference) is kept, and the pass resumes after it |
| PyStr.ConcatWithout | calendar/cal-check.py:36 | a character in none of the pieces is not in their concatenation |
| PyStr.RemoveJoined | calendar/cal-check.py:36 | removing the separator from a join of pieces free of its first character gives the pieces run together |
| PyStr.RemoveOtherJoined | calendar/cal-check.py:36 | removing a pattern that only nearly matches the separator leaves such a join unchanged |
| PyStr.RemoveAbsent | calendar/cal-check.py:36 | removing a pattern that does not occur changes nothing |
| PyStr.AbsentByChar | monitoring/uptime-check.py:44 | a pattern containing a character absent from the text does not occur in it |
| PyStr.Take | bluesky/bsky-autoposter.py:114-116 | `[:n]` is the prefix of length min(n, length) |
| PyStr.LexLeRefl | bluesky/bsky-dashboard.py:297 | string order is reflexive |
| PyStr.LexLeTotal | bluesky/bsky-dashboard.py:297 | string order is total |
| PyStr.LexLeTrans | bluesky/bsky-dashboard.py:297 | string order is transitive |
| PyStr.LexLeAntisym | bluesky/bsky-dashboard.py:297 | string order is antisymmetric |
| KeySort.InOrderTotal | bluesky/bsky-dashboard.py:297 | any two elements can be ordered one way or the other |
| KeySort.InOrderTrans | bluesky/bsky-dashboard.py:297 | the order is transitive, in both directions |
| KeySort.Insert | bluesky/bsky-dashboard.py:297 | inserting into a sorted list keeps it sorted and adds exactly that element |
| KeySort.SortBy | calendar/cal-check.py:126 | `sort(key=…)`, ascending or with `reverse=True`: a permutation, sorted |
| KeySort.SortedHeadIsLeast | bluesky/bsky-dashboard.py:384-387 | the head of the ascending sort has the smallest key of the input |

`PyStr.SliceOfSuffix` (a slice of a suffix is a slice of the whole) and `PyStr.Concat` (Python's `"".join(pieces)`, used by the fold lemmas) are helpers and have no row.

## Left out

- HTTP servers and routing are left out: `BaseHTTPRequestHandler`, Flask, login sessions and cookies, redirects and the HTML templates. This is I/O; `AiFlowWebhook.FlowHandler.HandlePost` models only the status choice. The `Content-Length` read and the log lines are I/O too.
- Network clients are left out. This covers:
  - the delivery in `notify_clawdbot`, which becomes an entry in the ghost log;
  - the dashboard's API as seen from the auto-poster: the answer of `get_next_approved` is the parameter `next` of `BskyAutoposter.RunOnce`, and the `mark_posted` call is recorded as the `marked` field of the `Published` outcome, with its HTTP request left out (a failed request is caught and printed, bluesky/bsky-autoposter.py:63-64, so the run goes on);
  - the atproto login and the reply-root resolution in `publish_post`, whose resulting URI is a parameter;
  - the `notify_stefan` delivery and its fallback file;
  - the CalDAV `REPORT` and the XML around the calendar data;
  - the HTTP request and the certificate check of the uptime monitor, whose outcomes are parameters.
- Concurrency is left out. The `threading.Lock` and the timeout branch's split of check and update across two lock acquisitions are not modelled; events are handled one at a time.
- Files, the clock and ids are parameters:
  - the queue file, the state files and the settings file (the model takes the file's lines);
  - the beep file;
  - `datetime.now`, the time zone and `uuid`.
- JSON decoding is left out. A decoded event or post is a datatype whose missing fields are `None`. A JSON `null` where a string or a dict is expected is not modelled. That includes `reply_to: null` in `notify_stefan`, which makes the script raise.
- Bodies that `json.loads` accepts but that have the wrong types are not modelled, and neither are bodies it rejects with an error other than `JSONDecodeError`. `FlowHandler.HandlePost` takes the body as `None` exactly when `json.loads` raised `JSONDecodeError` (ab/ai-flow-webhook.py:79-84), and it only chooses among 401, 400, 200 and 204. Some wrong-typed bodies still get an answer: a `type` that is not a string (`{"type": 5}`) matches no branch, falls through to ab/ai-flow-webhook.py:195 and gets 204, the answer the model gives any unknown type; a `from_phone_number` that is not a string is stored (:109) and formatted into the notification (:45). The following raise inside `do_POST` after the token check, so no status line is sent:
  - a body that is not valid UTF-8: `json.loads` raises `UnicodeDecodeError`, which `except json.JSONDecodeError` (:81) does not catch;
  - a body that is not an object (`[]`, `5`, `"x"`) fails at its first `.get` (ab/ai-flow-webhook.py:86);
  - a `session` that is not an object fails at ab/ai-flow-webhook.py:87 and again at :106;
  - a `session.id` that is a number fails at `session_id[:12]` (ab/ai-flow-webhook.py:88);
  - a `text` that is not a string fails at its `.strip()` (ab/ai-flow-webhook.py:128).
- CalCheck.Unfold: its own contract is only the length bound. What unfolding does is stated by `CalCheck.UnfoldSpaceFolds`, `CalCheck.UnfoldTabFolds`, `CalCheck.UnfoldOneFold` and `CalCheck.UnfoldSinglePass`, and by `CalCheck.NoCarriageReturn` for text without folds.
- PyStr.RemoveAll: its own contract is only the length bound. Its behaviour is stated by `PyStr.RemoveAbsent`, `PyStr.RemoveAllStep`, `PyStr.RemoveAllSkip`, `PyStr.RemoveAllFold`, `PyStr.RemoveAllMismatch`, `PyStr.RemoveJoined` and `PyStr.RemoveOtherJoined`.
- `parse_dt` and the `isoformat` after it are not modelled. `strptime` parsing becomes a parameter of `CalCheck.MakeRecord`.
- `splitlines()` and iterating a file's lines are not modelled, because the lines are given.
- Missing files are not modelled. The calendar checker raises when the settings file is missing, and the auto-poster raises on a malformed state file; both are I/O failures.
- `get_pin` caches the PIN in a global. `BskyDashboard.Pin` models the value read from the env file's lines, not the caching.
- KeySort.SortBy: stability is not proved. Equal keys keep their input order, as in Python, but only sortedness and permutation are proved. So `BskyDashboard.NextApproved` is proved to return an approved post with a minimal `created_at`, not the first such post in queue order.
- The command-line options of the calendar checker and the uptime monitor are not modelled: `--days`, `--calendar`, `--json` and `--quiet`. Neither is the printed output, since these are I/O.
