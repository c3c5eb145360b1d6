/**
 * A Celery queue as the caller sees it: `task.delay(args)` hands the
 * arguments to the broker and returns at once; the workers that later run
 * the task are not part of this model.
 */
module TaskQueue {

  class Queue<T> {
    /** The jobs handed to the broker, oldest first. */
    var pending: seq<T>

    constructor()
      ensures pending == []
    {
      pending := [];
    }

    /** `task.delay(job)`: the job joins the end of the queue. */
    method Delay(job: T)
      modifies this
      ensures pending == old(pending) + [job]
    {
      pending := pending + [job];
    }
  }
}
