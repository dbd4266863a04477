/**
 * The part of a terminal progress display the downloader relies on: a table
 * of tasks keyed by task id, each with a description, a completed count and
 * a total that may be unknown. Tasks are added with fresh, increasing ids,
 * updated field by field, and removed.
 */
module ProgressBars {
  import opened Wrappers

  datatype Task = Task(description: string, completed: int, total: Option<int>)

  /**
   * The task after one `update` call: a given total replaces the old one, an
   * advance is added, a given completed count replaces the result, and a
   * given description replaces the label. Absent arguments change nothing.
   */
  function Updated(t: Task, total: Option<int>, completed: Option<int>, advance: Option<int>,
                   description: Option<string>): Task
  {
    var afterAdvance := t.completed + advance.GetOr(0);
    Task(description.GetOr(t.description), completed.GetOr(afterAdvance),
         if total.Some? then total else t.total)
  }

  class Progress {
    var tasks: map<nat, Task>
    var nextId: nat
    /** Every task ever added, in order, as it was when added. */
    ghost var added: seq<Task>

    /** Every live task id was handed out before, so the next id is fresh. */
    ghost predicate Valid()
      reads this
    {
      forall id :: id in tasks ==> id < nextId
    }

    constructor ()
      ensures Valid() && tasks == map[] && nextId == 0 && added == []
    {
      tasks := map[];
      nextId := 0;
      added := [];
    }

    /** add_task: a new task with nothing completed, under a fresh id. */
    method AddTask(description: string, total: Option<int>) returns (id: nat)
      requires Valid()
      modifies this
      ensures Valid()
      ensures id == old(nextId) && id !in old(tasks) && nextId == old(nextId) + 1
      ensures tasks == old(tasks)[id := Task(description, 0, total)]
      ensures added == old(added) + [Task(description, 0, total)]
    {
      id := nextId;
      added := added + [Task(description, 0, total)];
      tasks := tasks[id := Task(description, 0, total)];
      nextId := nextId + 1;
    }

    /** update: changes the one task `id` and nothing else. */
    method Update(id: nat, total: Option<int>, completed: Option<int>, advance: Option<int>,
                  description: Option<string>)
      requires Valid() && id in tasks
      modifies this
      ensures Valid() && nextId == old(nextId) && added == old(added)
      ensures tasks == old(tasks)[id := Updated(old(tasks)[id], total, completed, advance, description)]
    {
      tasks := tasks[id := Updated(tasks[id], total, completed, advance, description)];
    }

    /** remove_task: the task disappears from the display; the others stay. */
    method RemoveTask(id: nat)
      requires Valid() && id in tasks
      modifies this
      ensures Valid() && nextId == old(nextId) && added == old(added)
      ensures tasks == old(tasks) - {id}
    {
      tasks := tasks - {id};
    }
  }
}
