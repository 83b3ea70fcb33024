/** The background task a monitor starts with Task.Run and waits for when it stops: its
    life as far as `task?.Wait(TimeSpan.FromSeconds(2))` can tell. */
module Workers {

  /** NoTask: the field is still null. Running: the worker loops on a live token.
      Ended: the worker left its loop and the task ran to completion. Canceled: the
      worker's `await Task.Delay(1000, token)` threw on a cancelled token and the task
      ended Canceled. */
  datatype WorkerTask = NoTask | Running | Ended | Canceled

  /** What cancelling the token does to the worker. The model takes a running worker to
      be inside its Task.Delay or its work when the token turns, so that it next meets a
      cancelled Task.Delay. A worker whose delay has just completed would instead reach
      its loop test, leave the loop and end normally; that interleaving is not
      modelled. */
  function AfterCancel(t: WorkerTask): WorkerTask {
    if t == Running then Canceled else t
  }

  /** Task.Wait throws AggregateException on a Canceled task; on a null task (`?.`) or a
      task that ran to completion it returns. */
  predicate WaitThrows(t: WorkerTask) {
    t == Canceled
  }
}
