/**
 * RichProgressHook: the callback the downloader hands to the transfer
 * library. It is bound to one progress task and turns each transfer event
 * into an update of that task alone.
 */
module Hook {
  import opened Wrappers
  import opened ProgressBars

  /**
   * A transfer event. The byte fields are dictionary keys that may be absent;
   * `speed` and `eta` are read by the source but never used, so they are not
   * carried.
   */
  datatype TransferEvent = TransferEvent(
    status: string,
    downloadedBytes: Option<nat>,
    totalBytes: Option<nat>,
    totalBytesEstimate: Option<nat>)

  /**
   * The size an event announces: `total_bytes` when it is present and
   * non-zero, else `total_bytes_estimate`, else 0.
   */
  function ResolvedTotal(e: TransferEvent): (r: nat)
    ensures r > 0 <==> e.totalBytes.GetOr(0) > 0 || e.totalBytesEstimate.GetOr(0) > 0
    ensures e.totalBytes.GetOr(0) > 0 ==> r == e.totalBytes.value
    ensures e.totalBytes.GetOr(0) == 0 ==> r == e.totalBytesEstimate.GetOr(0)
  {
    if e.totalBytes.Some? && e.totalBytes.value > 0 then e.totalBytes.value
    else e.totalBytesEstimate.GetOr(0)
  }

  /** Events that move the bar: a `downloading` event with a known size, or `finished`. */
  predicate Effective(e: TransferEvent) {
    (e.status == "downloading" && ResolvedTotal(e) > 0) || e.status == "finished"
  }

  /**
   * What one event does to the bound task. A `downloading` event with a known
   * size sets completed to the downloaded bytes (0 when absent) and the total
   * to that size; a `finished` event sets both completed and total to the
   * resolved size, even when it is 0; any other event changes nothing.
   */
  function HookEffect(t: Task, e: TransferEvent): (r: Task)
    ensures r.description == t.description
    ensures !Effective(e) ==> r == t
    ensures e.status == "downloading" && ResolvedTotal(e) > 0 ==>
      r.completed == e.downloadedBytes.GetOr(0) && r.total == Some(ResolvedTotal(e))
    ensures e.status == "finished" ==> r.total == Some(ResolvedTotal(e)) && r.completed == ResolvedTotal(e)
  {
    if e.status == "downloading" then
      var total := ResolvedTotal(e);
      if total > 0 then Task(t.description, e.downloadedBytes.GetOr(0), Some(total)) else t
    else if e.status == "finished" then
      var total := ResolvedTotal(e);
      Task(t.description, total, Some(total))
    else t
  }

  /** An effective event overwrites the numbers entirely: what was there before does not matter. */
  lemma EffectiveEventOverwrites(t: Task, u: Task, e: TransferEvent)
    requires Effective(e) && t.description == u.description
    ensures HookEffect(t, e) == HookEffect(u, e)
  {
  }

  /** Delivering the same event twice is the same as delivering it once. */
  lemma HookEffectIdempotent(t: Task, e: TransferEvent)
    ensures HookEffect(HookEffect(t, e), e) == HookEffect(t, e)
  {
  }

  /** The bound task after a sequence of events, delivered in order. */
  function Replay(t: Task, events: seq<TransferEvent>): Task
  {
    if events == [] then t
    else HookEffect(Replay(t, events[..|events| - 1]), events[|events| - 1])
  }

  /** The last event that moved the bar, if any. */
  function LastEffective(events: seq<TransferEvent>): (r: Option<TransferEvent>)
    ensures r.Some? ==> r.value in events && Effective(r.value)
  {
    if events == [] then None
    else if Effective(events[|events| - 1]) then Some(events[|events| - 1])
    else LastEffective(events[..|events| - 1])
  }

  /** There is no last effective event exactly when no event is effective. */
  lemma {:induction false} LastEffectiveNoneIffNoneEffective(events: seq<TransferEvent>)
    ensures LastEffective(events).None? <==> forall k :: 0 <= k < |events| ==> !Effective(events[k])
  {
    if events != [] {
      var prefix := events[..|events| - 1];
      LastEffectiveNoneIffNoneEffective(prefix);
      assert forall k :: 0 <= k < |prefix| ==> prefix[k] == events[k];
    }
  }

  /** The event found is effective and no event after it is. */
  lemma {:induction false} LastEffectiveIsLast(events: seq<TransferEvent>)
    ensures LastEffective(events).Some? ==>
      exists k :: 0 <= k < |events| && events[k] == LastEffective(events).value &&
        forall j :: k < j < |events| ==> !Effective(events[j])
  {
    if events != [] && !Effective(events[|events| - 1]) {
      var prefix := events[..|events| - 1];
      LastEffectiveIsLast(prefix);
      if LastEffective(prefix).Some? {
        var k :| 0 <= k < |prefix| && prefix[k] == LastEffective(prefix).value &&
          forall j :: k < j < |prefix| ==> !Effective(prefix[j]);
        assert events[k] == prefix[k];
        assert forall j :: k < j < |events| - 1 ==> events[j] == prefix[j];
      }
    }
  }

  /** Events never relabel the task. */
  lemma {:induction false} ReplayKeepsDescription(t: Task, events: seq<TransferEvent>)
    ensures Replay(t, events).description == t.description
  {
    if events != [] {
      ReplayKeepsDescription(t, events[..|events| - 1]);
    }
  }

  /**
   * The bar shows exactly what the last effective event says; with no
   * effective event the task is as it was.
   */
  lemma {:induction false} ReplayIsLastEffective(t: Task, events: seq<TransferEvent>)
    ensures Replay(t, events) == match LastEffective(events)
                                 case None => t
                                 case Some(e) => HookEffect(t, e)
  {
    if events != [] {
      var prefix := events[..|events| - 1];
      ReplayIsLastEffective(t, prefix);
      ReplayKeepsDescription(t, prefix);
      if Effective(events[|events| - 1]) {
        EffectiveEventOverwrites(Replay(t, prefix), t, events[|events| - 1]);
      }
    }
  }

  class ProgressHook {
    const progress: Progress
    const taskId: nat

    constructor (progress: Progress, taskId: nat)
      ensures this.progress == progress && this.taskId == taskId
    {
      this.progress := progress;
      this.taskId := taskId;
    }

    /**
     * __call__: updates the bound task as HookEffect says. Only that task of
     * the bound display changes; no other object is touched.
     */
    method Call(e: TransferEvent)
      requires progress.Valid() && taskId in progress.tasks
      modifies progress
      ensures progress.Valid() && progress.nextId == old(progress.nextId) && progress.added == old(progress.added)
      ensures progress.tasks == old(progress.tasks)[taskId := HookEffect(old(progress.tasks)[taskId], e)]
    {
      if e.status == "downloading" {
        var downloaded := e.downloadedBytes.GetOr(0);
        var total := ResolvedTotal(e);
        if total > 0 {
          progress.Update(taskId, Some(total), Some(downloaded), None, None);
        }
      } else if e.status == "finished" {
        var total := ResolvedTotal(e);
        progress.Update(taskId, Some(total), Some(total), None, None);
      }
    }
  }
}
