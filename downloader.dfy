/**
 * The `download` command: resolve the playlist, list its entries, then
 * download them one at a time while an overall task counts finished entries
 * and each entry has its own task driven by a RichProgressHook.
 *
 * The transfer library is represented by one DownloadOutcome per entry: the
 * transfer events it would deliver to the hook, in order, and whether the
 * download call returned or raised.
 */
module Downloader {
  import opened Wrappers
  import opened Decimal
  import opened Playlist
  import opened ProgressBars
  import opened Hook

  datatype DownloadOutcome = DownloadOutcome(events: seq<TransferEvent>, succeeded: bool)

  /** One row of the playlist table: the 1-based index as text, and the title. */
  datatype Row = Row(index: string, title: string)

  const OverallDescription: string := "Total Progress"

  /** The label of an entry's task while it downloads. */
  function DownloadingLabel(display: string): string {
    "Downloading: " + display
  }

  /** The label an entry's task is given when its download raises. */
  function ErrorLabel(display: string): string {
    "[red]Error: " + display
  }

  /** The label text of the `index`-th entry (1-based). */
  function EntryDisplay(e: VideoEntry, index: nat): string {
    DisplayTitle(DownloadTitle(e, index))
  }

  /** `shown` lists the task starting as `start`, then after each of `events` in turn. */
  ghost predicate ReplayTrace(shown: seq<Task>, start: Task, events: seq<TransferEvent>) {
    |shown| == |events| + 1 && forall k :: 0 <= k < |shown| ==> shown[k] == Replay(start, events[..k])
  }

  /** Every state in `shown` carries the label `description`. */
  ghost predicate LabelledThroughout(shown: seq<Task>, description: string) {
    forall k :: 0 <= k < |shown| ==> shown[k].description == description
  }

  /**
   * The task a failed entry leaves on the display: added with an unknown
   * total, moved by its transfer events, then relabelled as errored.
   */
  function FailedTask(e: VideoEntry, index: nat, events: seq<TransferEvent>): Task {
    var display := EntryDisplay(e, index);
    Replay(Task(DownloadingLabel(display), 0, None), events).(description := ErrorLabel(display))
  }

  /**
   * The per-video tasks left after the first `n` entries were processed, when
   * the first entry's task got id `base`: the failed entries' tasks, each
   * under the id it was added with.
   */
  function FailedTasks(entries: seq<VideoEntry>, outcomes: seq<DownloadOutcome>, base: nat, n: nat)
    : map<nat, Task>
    requires n <= |entries| == |outcomes|
  {
    if n == 0 then map[]
    else
      var earlier := FailedTasks(entries, outcomes, base, n - 1);
      if outcomes[n - 1].succeeded then earlier
      else earlier[base + n - 1 := FailedTask(entries[n - 1], n, outcomes[n - 1].events)]
  }

  /**
   * The remaining tasks are exactly those of failed entries, each marked as
   * errored with the entry's display title and showing that entry's transfer.
   */
  lemma {:induction false} FailedTasksAreFailures(entries: seq<VideoEntry>, outcomes: seq<DownloadOutcome>,
                                                  base: nat, n: nat, id: nat)
    requires n <= |entries| == |outcomes|
    ensures id in FailedTasks(entries, outcomes, base, n) <==>
      base <= id < base + n && !outcomes[id - base].succeeded
    ensures id in FailedTasks(entries, outcomes, base, n) ==>
      var k := id - base;
      && FailedTasks(entries, outcomes, base, n)[id] == FailedTask(entries[k], k + 1, outcomes[k].events)
      && FailedTasks(entries, outcomes, base, n)[id].description == ErrorLabel(EntryDisplay(entries[k], k + 1))
  {
    if n > 0 {
      FailedTasksAreFailures(entries, outcomes, base, n - 1, id);
    }
  }

  /** One more entry: a failure adds its task under the next id, a success adds nothing. */
  lemma FailedTasksStep(entries: seq<VideoEntry>, outcomes: seq<DownloadOutcome>, base: nat, i: nat,
                        shownBefore: map<nat, Task>)
    requires i < |entries| == |outcomes|
    requires base + i !in shownBefore
    ensures shownBefore + FailedTasks(entries, outcomes, base, i + 1) ==
      if outcomes[i].succeeded then shownBefore + FailedTasks(entries, outcomes, base, i)
      else (shownBefore + FailedTasks(entries, outcomes, base, i))[base + i :=
        FailedTask(entries[i], i + 1, outcomes[i].events)]
  {
  }

  /**
   * A failed entry's task shows the numbers of its last effective transfer
   * event, or stays indeterminate (nothing completed, total unknown) when
   * there was none.
   */
  lemma FailedTaskProgress(e: VideoEntry, index: nat, events: seq<TransferEvent>)
    ensures LastEffective(events).None? ==>
      FailedTask(e, index, events).completed == 0 && FailedTask(e, index, events).total.None?
    ensures LastEffective(events).Some? ==>
      var t := FailedTask(e, index, events);
      var last := LastEffective(events).value;
      t.total == Some(ResolvedTotal(last)) &&
      t.completed == (if last.status == "finished" then ResolvedTotal(last) else last.downloadedBytes.GetOr(0))
  {
    ReplayIsLastEffective(Task(DownloadingLabel(EntryDisplay(e, index)), 0, None), events);
  }

  /** The table loop: one row per entry, numbered from 1, with "N/A" for a missing title. */
  method BuildTable(entries: seq<VideoEntry>) returns (rows: seq<Row>)
    ensures |rows| == |entries|
    ensures forall k :: 0 <= k < |entries| ==> rows[k] == Row(NatToString(k + 1), TableTitle(entries[k]))
  {
    rows := [];
    var i := 0;
    while i < |entries|
      invariant 0 <= i <= |entries| && |rows| == i
      invariant forall k :: 0 <= k < i ==> rows[k] == Row(NatToString(k + 1), TableTitle(entries[k]))
    {
      rows := rows + [Row(NatToString(i + 1), TableTitle(entries[i]))];
      i := i + 1;
    }
  }

  /** Every row's index reads back as its 1-based position. */
  lemma TableIndexReadsBack(rows: seq<Row>, entries: seq<VideoEntry>, k: nat)
    requires |rows| == |entries| && k < |rows|
    requires forall j :: 0 <= j < |entries| ==> rows[j] == Row(NatToString(j + 1), TableTitle(entries[j]))
    ensures AllDigits(rows[k].index) && DigitsValue(rows[k].index) == k + 1
  {
    DigitsValueOfNatToString(k + 1);
  }

  /**
   * The transfer library delivering an entry's events to its hook, in order.
   * `shown` is the bound task as the display shows it before the first event
   * and after each event.
   */
  method Transfer(hook: ProgressHook, events: seq<TransferEvent>) returns (ghost shown: seq<Task>)
    requires hook.progress.Valid() && hook.taskId in hook.progress.tasks
    modifies hook.progress
    ensures hook.progress.Valid() && hook.progress.nextId == old(hook.progress.nextId)
    ensures hook.progress.added == old(hook.progress.added)
    ensures hook.progress.tasks ==
      old(hook.progress.tasks)[hook.taskId := Replay(old(hook.progress.tasks)[hook.taskId], events)]
    ensures ReplayTrace(shown, old(hook.progress.tasks)[hook.taskId], events)
  {
    ghost var start := hook.progress.tasks[hook.taskId];
    shown := [start];
    assert events[..0] == [];
    var j := 0;
    while j < |events|
      invariant 0 <= j <= |events|
      invariant hook.progress.Valid() && hook.progress.nextId == old(hook.progress.nextId)
      invariant hook.progress.added == old(hook.progress.added)
      invariant hook.progress.tasks ==
        old(hook.progress.tasks)[hook.taskId := Replay(start, events[..j])]
      invariant |shown| == j + 1 && forall k :: 0 <= k < |shown| ==> shown[k] == Replay(start, events[..k])
    {
      assert events[..j + 1][..j] == events[..j];
      hook.Call(events[j]);
      shown := shown + [hook.progress.tasks[hook.taskId]];
      j := j + 1;
    }
    assert events[..j] == events;
  }

  /**
   * One pass of the download loop, for the `index`-th entry (1-based): add a
   * task labelled with the entry's display title and an unknown total, let
   * the transfer run, advance the overall task by one, then remove the
   * entry's task on success or relabel it as errored on failure. Returns the
   * URL handed to the transfer library.
   */
  method DownloadEntry(entry: VideoEntry, index: nat, outcome: DownloadOutcome,
                       overall: Progress, overallTask: nat, videos: Progress)
    returns (videoUrl: string, ghost shown: seq<Task>)
    requires overall != videos
    requires overall.Valid() && overallTask in overall.tasks && videos.Valid()
    modifies overall, videos
    ensures videoUrl == VideoUrl(entry)
    ensures videos.added == old(videos.added) + [Task(DownloadingLabel(EntryDisplay(entry, index)), 0, None)]
    ensures ReplayTrace(shown, videos.added[|old(videos.added)|], outcome.events)
    ensures LabelledThroughout(shown, DownloadingLabel(EntryDisplay(entry, index)))
    ensures overall.Valid() && overall.nextId == old(overall.nextId)
    ensures overall.tasks == old(overall.tasks)[overallTask :=
      old(overall.tasks)[overallTask].(completed := old(overall.tasks)[overallTask].completed + 1)]
    ensures videos.Valid() && videos.nextId == old(videos.nextId) + 1
    ensures videos.tasks == if outcome.succeeded then old(videos.tasks)
      else old(videos.tasks)[old(videos.nextId) := FailedTask(entry, index, outcome.events)]
  {
    videoUrl := VideoUrl(entry);
    var display := DisplayTitle(DownloadTitle(entry, index));

    var videoTask := videos.AddTask(DownloadingLabel(display), None);
    var hook := new ProgressHook(videos, videoTask);
    shown := Transfer(hook, outcome.events);
    forall k | 0 <= k < |shown|
      ensures shown[k].description == DownloadingLabel(display)
    {
      ReplayKeepsDescription(Task(DownloadingLabel(display), 0, None), outcome.events[..k]);
    }

    if outcome.succeeded {
      overall.Update(overallTask, None, None, Some(1), None);
      videos.RemoveTask(videoTask);
    } else {
      overall.Update(overallTask, None, None, Some(1), None);
      videos.Update(videoTask, None, None, None, Some(ErrorLabel(display)));
    }
  }

  /**
   * The download loop: every entry in order, one pass each. The overall task
   * advances by exactly the number of entries; the per-video tasks left are
   * exactly the failed entries' tasks; the URLs are requested in entry order.
   */
  method RunPlaylist(entries: seq<VideoEntry>, outcomes: seq<DownloadOutcome>,
                     overall: Progress, overallTask: nat, videos: Progress)
    returns (requested: seq<string>)
    requires |outcomes| == |entries|
    requires overall != videos
    requires overall.Valid() && overallTask in overall.tasks && videos.Valid()
    modifies overall, videos
    ensures overall.Valid() && overall.nextId == old(overall.nextId)
    ensures overall.tasks == old(overall.tasks)[overallTask :=
      old(overall.tasks)[overallTask].(completed := old(overall.tasks)[overallTask].completed + |entries|)]
    ensures videos.Valid() && videos.nextId == old(videos.nextId) + |entries|
    ensures videos.tasks == old(videos.tasks) + FailedTasks(entries, outcomes, old(videos.nextId), |entries|)
    ensures |requested| == |entries| && forall k :: 0 <= k < |entries| ==> requested[k] == VideoUrl(entries[k])
  {
    var base := videos.nextId;
    var startCount := overall.tasks[overallTask].completed;
    requested := [];
    var i := 0;
    while i < |entries|
      invariant 0 <= i <= |entries|
      invariant overall.Valid() && overall.nextId == old(overall.nextId)
      invariant overall.tasks == old(overall.tasks)[overallTask :=
        old(overall.tasks)[overallTask].(completed := startCount + i)]
      invariant videos.Valid() && videos.nextId == base + i
      invariant videos.tasks == old(videos.tasks) + FailedTasks(entries, outcomes, base, i)
      invariant |requested| == i && forall k :: 0 <= k < i ==> requested[k] == VideoUrl(entries[k])
    {
      ghost var shown;
      var videoUrl;
      FailedTasksStep(entries, outcomes, base, i, old(videos.tasks));
      videoUrl, shown := DownloadEntry(entries[i], i + 1, outcomes[i], overall, overallTask, videos);
      requested := requested + [videoUrl];
      i := i + 1;
    }
  }

  /** The downloader can only be described when there is one outcome per resolved entry. */
  predicate OutcomesFit(response: ExtractResponse, outcomes: seq<DownloadOutcome>) {
    GetPlaylistInfo(response).Some? ==> |outcomes| == |response.info.entries.value|
  }

  /**
   * The `download` command after option parsing. Without a playlist it exits
   * with code 1 before any table, task or download. Otherwise it lists every
   * entry, requests every entry's URL once, in order, leaves the overall task
   * at "all entries done", and leaves on the display exactly the failed
   * entries' tasks; it exits with code 0 whatever failed.
   */
  method Download(response: ExtractResponse, outcomes: seq<DownloadOutcome>)
    returns (exitCode: int, table: seq<Row>, requested: seq<string>,
             overallBar: Option<Task>, remaining: map<nat, Task>)
    requires OutcomesFit(response, outcomes)
    ensures exitCode == 1 <==> GetPlaylistInfo(response).None?
    ensures exitCode == 0 <==> GetPlaylistInfo(response).Some?
    ensures exitCode == 1 ==> table == [] && requested == [] && overallBar.None? && remaining == map[]
    ensures exitCode == 0 ==>
      var entries := response.info.entries.value;
      && |table| == |entries|
      && (forall k :: 0 <= k < |entries| ==> table[k] == Row(NatToString(k + 1), TableTitle(entries[k])))
      && |requested| == |entries|
      && (forall k :: 0 <= k < |entries| ==> requested[k] == VideoUrl(entries[k]))
      && overallBar == Some(Task(OverallDescription, |entries|, Some(|entries|)))
      && remaining == FailedTasks(entries, outcomes, 0, |entries|)
  {
    var info := GetPlaylistInfo(response);
    if info.None? {
      return 1, [], [], None, map[];
    }
    var entries := info.value.entries.value;
    table := BuildTable(entries);

    var overall := new Progress();
    var videos := new Progress();
    var overallId := overall.AddTask(OverallDescription, Some(|entries|));
    requested := RunPlaylist(entries, outcomes, overall, overallId, videos);
    assert videos.tasks == map[] + FailedTasks(entries, outcomes, 0, |entries|);
    overallBar := Some(overall.tasks[overallId]);
    remaining := videos.tasks;
    exitCode := 0;
  }

  /**
   * A client: playlist "Test Mix" with two entries, the second of which
   * raises. Both URLs are requested, the overall task ends at 2 of 2, only
   * the second entry's task remains, and the exit code is 0.
   */
  method TestMixScenario()
  {
    var a := VideoEntry("a", Some("Song A"), None);
    var b := VideoEntry("b", Some("Song B"), None);
    var response := Returned(InfoDict(Some("Test Mix"), Some([a, b])));
    var outcomes := [DownloadOutcome([], true), DownloadOutcome([], false)];
    var exitCode, table, requested, overallBar, remaining := Download(response, outcomes);
    assert exitCode == 0;
    assert table[0].title == "Song A" && table[1].title == "Song B";
    assert requested == [WatchPrefix + "a", WatchPrefix + "b"];
    assert overallBar == Some(Task(OverallDescription, 2, Some(2)));
    FailedTasksAreFailures([a, b], outcomes, 0, 2, 0);
    FailedTasksAreFailures([a, b], outcomes, 0, 2, 1);
    assert 0 !in remaining && 1 in remaining;
    assert remaining[1].description == ErrorLabel("Song B");

    var exitCode', _, requested', _, _ := Download(Returned(InfoDict(Some("Not a playlist"), None)), []);
    assert exitCode' == 1 && requested' == [];
  }
}
