# YouTube playlist downloader: a Dafny model of its core

The downloader is a command-line tool. It resolves a playlist into a flat list of
entries, prints a table of them, and downloads them one at a time. While it runs it
shows two progress displays: an overall task that counts finished entries, and one
task per video that a `RichProgressHook` moves as transfer events arrive.

This project models the logic the tool itself contains:

- `Playlist` (`playlist.dfy`): the resolver's response and the pure per-entry rules.
  These are the `entries` check in `get_playlist_info`, the URL fallback to the watch
  URL, the default titles (`"N/A"` in the table, `"Video <i>"` for the download
  label), and the 50-character display-title truncation.
- `Decimal` (`decimal.dfy`): Python's `str(i)` for the index column and the
  placeholder title, with its read-back property.
- `ProgressBars` (`progress.dfy`): a progress display as a class. It holds a map from
  task id to `Task(description, completed, total: Option<int>)` and a next-id counter.
  It has `AddTask`, `Update` and `RemoveTask`, as the downloader uses them.
- `Hook` (`hook.dfy`): `RichProgressHook` as a class bound to one display and one
  task id. The specification function `HookEffect` gives the effect of one event and
  `Replay` the effect of a sequence of events. Lemmas say what the bar shows after
  any sequence of events.
- `Downloader` (`downloader.dfy`): the table loop, the download loop (`RunPlaylist`,
  one `DownloadEntry` per entry) and the whole `download` command (`Download`).

The transfer library is an input. Each entry gets one `DownloadOutcome`: the
transfer events the library would deliver to the hook, in order, and whether the
download call returned or raised. The extraction call is also an input: an
`ExtractResponse` that either raised or returned an info dictionary.

The terminal library's `Progress` is a third-party library. Its `update`
semantics are assumed, and they cover only what the downloader uses: a given `total`
replaces the total, `advance` is added, a given `completed` replaces the count, and a
given `description` replaces the label. Task ids are handed out in increasing order.

Two behaviours of the code worth noting:

- A `finished` event with no known size sets both completed and total to 0. It is not
  a no-op (downloader.py:57-58).
- The two fatal resolution failures, "raised" and "no `entries` key", both make
  `get_playlist_info` return nothing. The command then exits with code 1. The model takes the failure's message as part of the response
  and discards it, since it is only printed. The same holds for the playlist title.

## Model

| member | source | states |
|---|---|---|
| `Playlist.GetPlaylistInfo` | downloader.py:31-39 | Returns the info exactly when extraction returned a dictionary with an `entries` key. A raise or a missing key gives nothing. |
| `Playlist.VideoUrl` | downloader.py:124 | The entry's `url` is used when it is present and non-empty. Otherwise the URL is the watch prefix followed by the id. The URL is never empty. |
| `Playlist.WatchIdOfSynthesizedUrl` | downloader.py:124 | A synthesized URL parses back to exactly the entry's id. |
| `Playlist.TableTitle` | downloader.py:96 | The table shows the entry's title, or `"N/A"` when it has none. |
| `Playlist.DownloadTitle` | downloader.py:125 | The download label uses the entry's title, or `"Video "` followed by the 1-based index. |
| `Playlist.PlaceholderTitleNamesIndex` | downloader.py:125 | A placeholder title is `"Video "` followed by digits that read back as the entry's 1-based position. |
| `Playlist.DisplayTitle` | downloader.py:127 | The result is at most 50 characters. A title over 50 becomes exactly 50: its first 47 characters followed by `"..."`. A title of 50 or fewer is unchanged. |
| `Playlist.DisplayTitleLength` | downloader.py:127 | The label length is the smaller of the title's length and 50. A title is kept if and only if it fits in 50. |
| `Playlist.DisplayTitleIdempotent` | downloader.py:127 | Truncating a display title again changes nothing. |
| `Decimal.NatToString` | downloader.py:95-96 | `str(i)` is non-empty, all decimal digits, and has no leading zero unless it is `"0"`. |
| `Decimal.DigitsValueOfNatToString` | downloader.py:95-96 | Reading the numeral back gives the number. |
| `Decimal.NatToStringInjective` | downloader.py:95-96 | Distinct indices get distinct index strings. |
| `ProgressBars.Progress.constructor` | downloader.py:101-115 | A new display has no tasks and has added none. |
| `ProgressBars.Progress.AddTask` | downloader.py:117 | Adds one task under a fresh id, with nothing completed and the given total, and records it in the ghost list of added tasks. No other task changes. |
| `ProgressBars.Progress.Update` | downloader.py:143-147 | Changes the named task as the arguments say, following the assumed `update` semantics written down as `Updated`: a given total replaces the total, an advance is added, a given completed count and a given description replace the old ones. No other task changes. |
| `ProgressBars.Progress.RemoveTask` | downloader.py:144 | Removes the named task. The other tasks stay. |
| `Hook.ResolvedTotal` | downloader.py:49 | Uses `total_bytes` if it is non-zero, else `total_bytes_estimate`, else 0. The result is positive if and only if either field is positive. |
| `Hook.HookEffect` | downloader.py:46-58 | A `downloading` event with a known size sets completed to the downloaded bytes (0 when absent) and sets the total. A size of 0 changes nothing. A `finished` event sets completed and total to the size, even when it is 0. Any other status changes nothing. The label is never changed. |
| `Hook.EffectiveEventOverwrites` | downloader.py:47-58 | After an event that moves the bar, the task's numbers do not depend on what it showed before. |
| `Hook.HookEffectIdempotent` | downloader.py:46-58 | Delivering the same event twice has the effect of delivering it once. |
| `Hook.LastEffective` | downloader.py:47-58 | A found event is one of the events and moves the bar. |
| `Hook.LastEffectiveNoneIffNoneEffective` | downloader.py:47-58 | No event is found if and only if no event moves the bar. |
| `Hook.LastEffectiveIsLast` | downloader.py:47-58 | A found event moves the bar, and no later event does. |
| `Hook.ReplayKeepsDescription` | downloader.py:46-58 | No sequence of events relabels the task. |
| `Hook.ReplayIsLastEffective` | downloader.py:46-58 | After any sequence of events, the task shows what the last event that moves the bar says. If no event moves the bar, the task is unchanged. |
| `Hook.ProgressHook.constructor` | downloader.py:42-44 | The hook is bound to the given display and task id. |
| `Hook.ProgressHook.Call` | downloader.py:46-58 | Only the bound task changes, as `HookEffect` says. Every other task of that display, and every other object, stays the same. |
| `Downloader.FailedTasksAreFailures` | downloader.py:143-147 | After the loop, a task remains if and only if its entry's download failed. A remaining task is the failed entry's task, labelled `"[red]Error: "` followed by its display title. |
| `Downloader.FailedTaskProgress` | downloader.py:129 | A failed entry's task shows the last transfer event that moved its bar. If no event did, it stays at 0 with an unknown total, as it was added. |
| `Downloader.BuildTable` | downloader.py:95-96 | There is one row per entry, in order. Each row holds the 1-based index as text and the table title. |
| `Downloader.TableIndexReadsBack` | downloader.py:95-96 | Every row's index reads back as its position. |
| `Downloader.Transfer` | downloader.py:136-141 | Delivering an entry's events through its hook leaves the bound task as `Replay` says, where `Replay` applies `HookEffect` for each event in order. Nothing else changes. The ghost result lists the task as shown before the first event and after each one. |
| `Downloader.DownloadEntry` | downloader.py:124-147 | Requests the entry's URL. The display records exactly one added task: `DownloadingLabel` (`"Downloading: "` followed by the display title) with nothing completed and an unknown total. The ghost result `shown` is that task as displayed before and after each transfer event, and it keeps that label in every state. Advances the overall task by exactly 1, whether the download succeeds or fails. On success it removes the entry's new task. On failure it leaves that task relabelled `ErrorLabel` (`"[red]Error: "` followed by the display title). |
| `Downloader.RunPlaylist` | downloader.py:122-147 | Requests the URLs in entry order. Advances the overall task by exactly the number of entries. The remaining per-video tasks are `FailedTasks`: the failed entries' tasks, each under the id it was added with. |
| `Downloader.Download` | downloader.py:76-147 | Exits with 1 if and only if there is no playlist, and then nothing is listed or requested. Otherwise: the table lists every entry, every URL is requested once and in order, the overall task ends at completed == total == number of entries, the remaining tasks are exactly the failed entries', and the exit code is 0. |

## Left out

- Playlist extraction and the per-video download through `yt_dlp` (downloader.py:26-33, 131-141): these are network and library code. They are inputs (`ExtractResponse`, `DownloadOutcome`). The format `best` and the `outtmpl` filename template are not modelled.
- Terminal rendering (downloader.py:72, 91-93, 98-115, 122): the panel, the table styling, the columns and the live refresh at 10 Hz. Only each task's description, completed count and total are modelled. The table is modelled as its rows.
- Console messages (downloader.py:38, 80, 87-89, 149): output only. The final "All downloads completed!" is printed whatever failed. `Download`'s exit code 0 after failures reflects this.
- The playlist title, `'Unknown Playlist'` by default (downloader.py:83): it is only printed.
- Argument parsing and creating the output directory (downloader.py:60-74): CLI and filesystem I/O.
- `speed` and `eta` (downloader.py:53-54): they are read but never used.
- Python's dynamic-typing edge cases: a key present with the value `None` (`total_bytes_estimate`, `downloaded_bytes`, `title`, `entries`) and a missing `id` (which would produce the URL text `...?v=None`). Byte counts are non-negative integers with explicit defaults. The id is a string.
- Exceptions raised by the hook itself are not modelled. The model's hook is only called on a live task, as the loop guarantees.
