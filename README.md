# VRChat chatbox status core, modelled in Dafny

This project models the status-aggregation core of a small tray application.
Every two seconds the application composes a short text from three sources
and pushes it to the VRChat chatbox, but only when the text changed. The
three sources are the system load, the Spotify track playing now and the
video a browser extension reports. All of the modelled code is in `osc.py`.

- `text.dfy` (module `Text`): `shorten_title`, and `format_time` with
  Python's floor `divmod` chain. The partner of `format_time` is a reader,
  `ParseTime`, which inverts it on every integer.
- `playback.dfy` (module `Playback`): the `spotify_cache` record as a class.
  Its refresh `fetch_spotify_playback` is a loop proved against a
  closed-form reference, `Refresh`. The playback line of
  `get_spotify_message_with_progress_update` has a staleness rule,
  progress extrapolation with a clamp, and a ten-second grace window after
  a stop.
- `extension.dfy` (module `Extension`): the `extension_data` record as a
  class. The per-connection read loop of `ws_handler` overwrites it, and
  `get_extension_message` formats it with a ten-second freshness window.
- `listener.dfy` (module `Listener`): the start/stop flags of the push
  listener, and the mode rule of `on_mode_change`.
- `status.dfy` (module `Status`): one tick of `update_loop` (per-mode
  composition and the `last_message` de-duplication), the mode switch and
  quitting.
- `wrappers.dfy` (module `Wrappers`): an `Option` type.

Conventions of the model:
- Time is an integer.
- The clock inside a refresh is the start time plus the sleeps taken so far.
- The Spotify query is an input: the answer each attempt would get
  (`NoClient`, `Failed`, `Idle` or `Playing`).
- An inbound push frame arrives already decoded: `Malformed`,
  `NotAnObject` or `Object` with its recognised keys.
- The system text is an input string.
- The chat sink is the log `sent` of texts pushed.

## Model

| member | source | states |
|---|---|---|
| `Text.ShortenTitle` | osc.py:82-83 | a title no longer than the limit is returned unchanged; a longer one keeps its first `limit - 1` characters and gains one ellipsis, so it is exactly `limit` long; with a limit of at least one the result never exceeds it |
| `Text.Split` | osc.py:107-110 | the `divmod` chain gives hours < 24, minutes < 60 and seconds < 60, and the fields recombine to the input; days are zero exactly for inputs in `[0, 86400)`, and then hours are zero exactly below 3600 |
| `Text.FormatTime` | osc.py:106-116 | the rendering always ends in a colon and a two-character seconds field, and starts with `-` exactly for a negative count |
| `Text.FormatTimeLayout` | osc.py:106-116 | for a non-negative count the rendering has four colon-separated fields exactly from a day up, three exactly from an hour up to a day, two below an hour; every field after the first is two digits |
| `Text.FormatTimeFields` | osc.py:111-116 | the fields of the rendering are the leading number and the zero-padded lower fields, per branch |
| `Text.ParseFormatTime` | osc.py:106-116 | reading a rendering back gives the input, for every integer including negative ones |
| `Text.FormatTimeInjective` | osc.py:106-116 | different counts never render alike |
| `Text.FormatTimeEndsWithDigit` | osc.py:111-116 | every rendering ends with a digit of the seconds field |
| `Text.FormatTimeExamples` | osc.py:106-116 | 60 renders as `1:00`, 200 as `3:20` and -2 as `-1:23:59:58` |
| `Playback.Attempts` | osc.py:131 | `range(1, max_retries + 1)` makes `max_retries` attempts, and none for a bound of zero or below |
| `Playback.FirstDecisive` | osc.py:131-161 | the index of the first answer that is not an error: the answers before it are all errors |
| `Playback.Backoff` | osc.py:162-163 | the sleep after failed attempt `k` is `delay * k` |
| `Playback.BackoffIncreasing` | osc.py:162-163 | with a positive delay the sleeps strictly increase |
| `Playback.BackoffTotal` | osc.py:162-163 | `m` sleeps take `delay * m * (m + 1) / 2` seconds in all |
| `Playback.Settle` | osc.py:137-155 | a decisive answer succeeds exactly when it is a playing one; without a client the cache is untouched; otherwise the fetch time is stamped and the playing flag follows the answer; the cache invariant is kept |
| `Playback.Refresh` | osc.py:130-164 | a refresh makes at most `max_retries` attempts; a success leaves a playing cache stamped at the clock after the sleeps; a failure changes the cache only when its last answer was idle |
| `Playback.RefreshDecisive` | osc.py:131-155 | the first decisive answer, after `k` errors, settles the refresh: `k + 1` attempts, `k` sleeps, and that answer applied at the clock after the sleeps |
| `Playback.RefreshPlaying` | osc.py:137-148 | a playing answer stores the track, the joined artists, and whole seconds of duration and progress; it sets playing, clears the stop stamp, stamps the fetch time, and succeeds with no further attempt |
| `Playback.RefreshIdle` | osc.py:149-155 | an idle answer clears playing and stamps the fetch time; it stamps the stop time only on a playing-to-stopped transition and otherwise keeps it; it keeps the track and fails with no further attempt |
| `Playback.RefreshNoClient` | osc.py:133-135 | without a client the refresh fails at once and leaves the cache as it was |
| `Playback.RefreshAllFailed` | osc.py:156-164 | when every answer is an error there are exactly `max_retries` attempts, a sleep after each but the last, an unchanged cache, and failure |
| `Playback.RefreshOk` | osc.py:130-164 | a refresh succeeds exactly when its first decisive answer is a playing one |
| `Playback.RefreshBounds` | osc.py:130-164 | a refresh keeps the cache invariant (playing implies a known track) and makes at most `max_retries` attempts and fewer sleeps than attempts |
| `Playback.Progress` | osc.py:173-174 | the shown progress never exceeds the duration or the extrapolated progress, and equals one of the two |
| `Playback.ProgressMonotone` | osc.py:173-174 | between refreshes the shown progress is non-decreasing in the clock |
| `Playback.RenderPlayback` | osc.py:172-180 | a playing cache always gives a non-empty text; otherwise the text is either empty or the stop notice |
| `Playback.RenderPlaying` | osc.py:172-176 | while playing, the text is the shortened track and artist lines followed by the clamped progress and the duration |
| `Playback.RenderNothingPlaying` | osc.py:177-178 | the text is the stop notice exactly when nothing plays, a stop was stamped, and it is less than ten seconds old |
| `Playback.RenderEmpty` | osc.py:172-180 | the text is empty exactly when nothing plays and no stop was stamped within the last ten seconds |
| `Playback.PlayingExample` | osc.py:172-176 | a 3:20 track fetched at 50 s shows `1:00 / 3:20` ten seconds later |
| `Playback.StoppedExample` | osc.py:177-180 | a stop stamped at `t` shows the notice at `t + 5` and an empty text at `t + 15` |
| `Playback.RefreshIfStale` | osc.py:169-170 | a refresh happens only when the cache is more than 15 s old; otherwise there are no attempts, no sleeps and no change |
| `Playback.PlaybackMessageAsWritten` | osc.py:167-180 | the message as the source computes it, rendered with the clock read before the refresh; a cache at most 15 s old is rendered as it is |
| `Playback.MessageAsWrittenNegativeProgress` | osc.py:168-174 | as the source computes it, one failed attempt followed by a track just started shows a progress of -2 s, rendered `-1:23:59:58` |
| `Playback.MessageProgressInRange` | osc.py:167-176 | rendered with the clock after the refresh, the shown progress lies between 0 and the duration |
| `Playback.PlaybackCache.constructor` | osc.py:119-127 | the cache starts empty and not playing |
| `Playback.PlaybackCache.Apply` | osc.py:137-155 | one decisive attempt updates the record in place as `Settle` says |
| `Playback.PlaybackCache.Fetch` | osc.py:130-164 | the retry loop returns the success flag, the attempts and the sleeps, and leaves the cache as `Refresh` specifies |
| `Playback.PlaybackCache.Message` | osc.py:167-180 | refreshes when stale, then renders the cache with the post-refresh clock |
| `Extension.Uploader` | osc.py:234 | the uploader is empty exactly when neither the streamer nor the uploader is non-empty, and otherwise is one of the two |
| `Extension.Ingest` | osc.py:232-239 | the write stamps the clock, copies the title, stores the resolved uploader, stores a present duration, position and live flag, and defaults a missing duration or position to 0 and a missing live flag to false |
| `Extension.IngestResolvesUploader` | osc.py:232-239 | a non-empty streamer wins, then a non-empty uploader, else the empty string; present numbers and live flag are copied, missing numbers default to 0 and a missing live flag to false; the title is copied and the update time is the clock |
| `Extension.Cut` | osc.py:228-245 | the connection loop ends at the first frame that decodes to something other than an object |
| `Extension.AfterFrames` | osc.py:228-245 | after a connection the record is the one before it or the write of an object delivered before the connection ended |
| `Extension.NoObjectKeepsRecord` | osc.py:228-245 | a connection that delivers no object before it ends leaves the record unchanged |
| `Extension.LastWriteWins` | osc.py:228-245 | after a connection, the record is the write of the last object delivered before it ended |
| `Extension.DurationSlotLive` | osc.py:295 | the duration slot reads `LIVE` exactly for a live stream |
| `Extension.ExtensionMessage` | osc.py:288-298 | a record that is not fresh gives the empty text; a fresh one gives a text starting with the title line |
| `Extension.ExtensionMessageNonEmpty` | osc.py:291-298 | the video text is non-empty exactly when the record has a non-empty title and is less than ten seconds old |
| `Extension.ExtensionMessageLines` | osc.py:292-297 | a fresh text is the title line, then the uploader line exactly when the uploader is non-empty, then the progress line |
| `Extension.ExtensionMessageLive` | osc.py:295-296 | a fresh text ends with ` / LIVE` exactly for a live stream |
| `Extension.ExtensionStore.constructor` | osc.py:209-216 | the record starts with no title, no uploader, zeros and not live |
| `Extension.ExtensionStore.Write` | osc.py:231-239 | all six fields are replaced by the resolved message |
| `Extension.ExtensionStore.HandleConnection` | osc.py:225-247 | the read loop skips malformed frames, writes objects, and stops at the first frame that raises |
| `Extension.ExtensionStore.Message` | osc.py:288-298 | returns the formatted video text, which is non-empty exactly when the record is fresh |
| `Listener.Start` | osc.py:271-276 | starting while serving changes nothing; otherwise it clears the stop signal and records a thread, which serves exactly when it could bind |
| `Listener.Stop` | osc.py:279-285 | after a stop the listener is not serving; stopping while not serving changes nothing |
| `Listener.OnModeChange` | osc.py:346-349 | after a mode change the listener serves only for a mode that shows pushed data, and the flag invariant is kept |
| `Listener.StartStopIdempotent` | osc.py:271-285 | a start that took effect, repeated, changes nothing; a repeated stop changes nothing |
| `Listener.ModeChangeRunning` | osc.py:346-349 | after a mode change the listener serves exactly when the mode is `full` or `media` and it already served or could bind; a stopped listener can start again |
| `Listener.ListenerControl.constructor` | osc.py:220-222 | no server thread, not serving, no stop signalled |
| `Listener.ListenerControl.MaybeStart` | osc.py:271-276 | the flags change as `Start` says |
| `Listener.ListenerControl.MaybeStop` | osc.py:279-285 | the flags change as `Stop` says |
| `Status.Compose` | osc.py:318-332 | the `full` and `system` texts start with the system text; every other mode gives a non-empty text |
| `Status.ComposeRules` | osc.py:318-332 | `full` gives the system text plus, after a blank line, the video text if any, else the playback text if any; `system` gives the system text whatever the sources hold; `spotify` and `media` fall back to fixed notices; any other mode gives `Unknown mode` |
| `Status.Debounce` | osc.py:334-336 | never more sends than ticks; a text differing from the last one sent is sent first |
| `Status.DebounceConcat` | osc.py:308-338 | the sends of successive ticks are the sends of the first ticks followed by those of the later ones, starting from the last text composed before them |
| `Status.DebounceNoRepeat` | osc.py:334-336 | no text is sent twice in a row, the first differs from the last text sent before, and only composed texts are sent |
| `Status.DebounceLast` | osc.py:334-336 | something is sent exactly when a composed text differs from the one before it, and the last text sent is the last one composed |
| `Status.IdleRun` | osc.py:334-336 | a composed text that differs from the last one sent is always sent |
| `Status.StatusApp.constructor` | osc.py:301-384 | start-up with the globals of osc.py:301-304 (mode `full`, nothing sent yet) and empty caches, then the listener started for that mode as at osc.py:383-384 |
| `Status.StatusApp.Tick` | osc.py:308-338 | one tick refreshes the cache when it is stale, composes per mode, sends only a text that differs from the last one sent, and sets the last text to the composed one |
| `Status.StatusApp.SetMode` | osc.py:341-349 | the mode is switched; the listener is started for `full` and `media` and stopped for every other mode |
| `Status.StatusApp.Quit` | osc.py:361-364 | quitting stops the listener |

## Findings

| source | as written | input that shows it | evidently intended | confidence | as-written member | corrected member |
|---|---|---|---|---|---|---|
| osc.py:168-174 | the render clock `now` is read before the refresh, but the refresh stamps `last_fetch_time` after its back-off sleeps; elapsed time is then negative and so is the progress the text shows | cache older than 15 s at clock 100; the first attempt raises and the second finds a track 0.5 s in; the cache is stamped at 102 and the text shows progress -2, which `format_time` renders as `-1:23:59:58` | measure elapsed time from the fetch on the current clock, so the progress stays in `[0, duration]` | not executed | `Playback.MessageAsWrittenNegativeProgress` | `Playback.MessageProgressInRange` |

`Playback.PlaybackMessageAsWritten` is the message computed as the source
does it. `PlaybackCache.Message`, and through it `StatusApp.Tick`, render
with the clock after the refresh instead. The two
differ only after a retried refresh. A slow first query can cause the same
defect in the source; the model gives queries no latency.

## Left out

- Icon drawing (`create_chat_bubble_icon`), the tray menu (`create_menu`), and the icon refresh in `on_mode_change` and `on_quit`: user interface.
- `get_spotify_client` (OAuth, the token cache, the authorize URL) and `current_playback()`: foreign library calls. Each attempt's result is an input `Outcome`. A response that is playing but has no item counts as `Idle`.
- `get_system_stats` (psutil, NVML, the wall clock): external readers. The system text is an input.
- `send_to_vrchat` (the UDP/OSC send and its logged errors): I/O. The sink is the log `sent`. A failed send still updates `last_message` in the source, and the model does the same.
- The websocket server loop of `start_ws_server` and `json.loads`: network and parsing. Frames arrive decoded. The model types the keys: the title, streamer and uploader are strings, the numbers whole seconds and the live flag a boolean. In the source a null title only makes the record not shown, a null or non-string streamer or uploader passes through the `or` chain (and a non-string one is printed as it is), and a non-boolean live flag is read by truthiness. Values outside the modelled types can raise in `int()` (osc.py:107: `currentTime`, and `duration` unless `live` is truthy) or in `shorten_title` (osc.py:83), for example a null `currentTime`, a JSON `NaN` duration of a non-live video, or a numeric title; a numeric string such as `"90"` is parsed by `int()` without raising. Such an exception escapes `get_extension_message` and ends the `update_loop` thread, which has no handler (osc.py:308-338); the model does not capture that loss of the status loop. Fractional pushed seconds are truncated by that `int()`, where the model takes whole seconds.
- Threads, locks, stop events and the five-second `join`: concurrency. The model is sequential. `Listener.Stop` assumes the accept loop exits within the join timeout; the loop polls every second. The thread sets the serving flag asynchronously; the model sets it inside the start, from the bind result `bindOk`.
- `time.sleep`: sleeps are logged as values. The two-second cadence of `update_loop` and its stop event are outside the single modelled tick.
- Floating-point time and `int()` of the elapsed float: the clock is integer seconds.
- Log output (`print`): not modelled.
- The stop stamp is cleared to 0, not to an absent value (osc.py:146). `last_message` is updated even when a send fails (osc.py:201-206, 334-336). Mode names are not validated, so any name other than the four yields `Unknown mode` (osc.py:331-332).
- Playback.PlaybackCache.Message: renders with the post-refresh clock rather than the source's pre-refresh clock; see Findings.
- Status.StatusApp.Tick: composes and sends a playback text rendered with the post-refresh clock, through `PlaybackCache.Message`, while the source renders with the clock read before the refresh (osc.py:168-176). After a retried refresh the sent text therefore differs: on the Findings input the source sends `⌛ -1:23:59:58 / 3:20` where the model sends `⌛ 0:00 / 3:20`.
