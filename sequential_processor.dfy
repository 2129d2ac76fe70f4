// The sequential item processor: a queue of items handed, one at a time and
// in arrival order, to a processing delegate that runs on a worker task.
//
// Threads are not modelled; the two locked sections of the worker routine
// become two methods (TakeNext before the delegate runs, FinishItem after it),
// and "a new worker task is started" becomes a boolean result.  Ghost history
// fields record which items were accepted and which were handed out, so that
// the first-in first-out promise and the at-most-one-in-process promise are
// invariants of the object.
module SequentialProcessing {
  import opened Wrappers

  class SequentialItemProcessor<T> {
    /** Items waiting to be processed, oldest first. */
    var queue: seq<T>
    var isRunning: bool
    var isProcessing: bool

    /** The item the delegate is processing now, if any. */
    ghost var current: Option<T>
    /** Every item accepted since the last Stop, in the order accepted. */
    ghost var accepted: seq<T>
    /** Every item handed to the delegate since the last Stop, in order. */
    ghost var delivered: seq<T>

    ghost predicate Valid()
      reads this
    {
      // items leave the queue only at its head, so the delegate sees the
      // accepted items in order and none twice
      && accepted == delivered + queue
      // at most one item is in process, and it is the last one handed out
      && (isProcessing <==> current.Some?)
      && (current.Some? ==> |delivered| > 0 && delivered[|delivered| - 1] == current.value)
    }

    constructor()
      ensures Valid()
      ensures queue == [] && !isRunning && !isProcessing
      ensures accepted == [] && delivered == []
    {
      queue := [];
      isRunning := false;
      isProcessing := false;
      current := None;
      accepted := [];
      delivered := [];
    }

    /**
     * Adds an item to the queue when the processor is running (an item
     * offered to a stopped processor is dropped) and reports whether a new
     * worker task is started, which happens when no item is in process.
     */
    method EnqueueMessage(item: T) returns (startsTask: bool)
      requires Valid()
      modifies this
      ensures Valid()
      ensures isRunning == old(isRunning) && isProcessing == old(isProcessing)
      ensures current == old(current) && delivered == old(delivered)
      ensures !old(isRunning) ==> queue == old(queue) && accepted == old(accepted) && !startsTask
      ensures old(isRunning) ==>
                queue == old(queue) + [item] && accepted == old(accepted) + [item]
                && startsTask == !isProcessing
    {
      if !isRunning {
        return false;
      }
      queue := queue + [item];
      accepted := accepted + [item];
      startsTask := !isProcessing;
    }

    method Start()
      requires Valid()
      modifies this
      ensures Valid()
      ensures isRunning
      ensures queue == old(queue) && isProcessing == old(isProcessing) && current == old(current)
      ensures accepted == old(accepted) && delivered == old(delivered)
    {
      isRunning := true;
    }

    /**
     * Stops the processor and drops every queued item.  The result says
     * whether Stop then blocks until the item in process is finished.
     */
    method Stop() returns (waitsForCurrent: bool)
      requires Valid()
      modifies this
      ensures Valid()
      ensures !isRunning && queue == []
      ensures isProcessing == old(isProcessing) && current == old(current)
      ensures delivered == old(delivered) && accepted == delivered
      ensures waitsForCurrent == isProcessing
    {
      isRunning := false;
      queue := [];
      accepted := delivered;
      waitsForCurrent := isProcessing;
    }

    /**
     * The first locked section of a worker task: when the processor is
     * running, idle and has work, marks it busy and takes the head of the
     * queue; otherwise the task ends with nothing to do.
     */
    method TakeNext() returns (item: Option<T>)
      requires Valid()
      modifies this
      ensures Valid()
      ensures isRunning == old(isRunning) && accepted == old(accepted)
      ensures if !old(isRunning) || old(isProcessing) || old(queue) == [] then
                item == None && queue == old(queue) && isProcessing == old(isProcessing)
                && current == old(current) && delivered == old(delivered)
              else
                item == Some(old(queue)[0]) && queue == old(queue)[1..]
                && isProcessing && current == item
                && delivered == old(delivered) + [old(queue)[0]]
    {
      if !isRunning || isProcessing {
        return None;
      }
      if |queue| <= 0 {
        return None;
      }
      isProcessing := true;
      item := Some(queue[0]);
      current := item;
      delivered := delivered + [queue[0]];
      queue := queue[1..];
    }

    /**
     * The second locked section of a worker task, after the delegate has
     * returned: clears the busy flag and reports whether a new worker task
     * is started for the rest of the queue.
     */
    method FinishItem() returns (startsTask: bool)
      requires Valid() && isProcessing
      modifies this
      ensures Valid()
      ensures !isProcessing && current == None
      ensures isRunning == old(isRunning) && queue == old(queue)
      ensures accepted == old(accepted) && delivered == old(delivered)
      ensures startsTask == (isRunning && queue != [])
    {
      isProcessing := false;
      current := None;
      if !isRunning || |queue| <= 0 {
        return false;
      }
      startsTask := true;
    }

    /**
     * A whole worker task as the source writes it: the busy flag is cleared
     * only when the delegate returns normally, since the second locked
     * section is not in a finally block.
     */
    method ProcessItemAsWritten(delegateThrows: bool) returns (item: Option<T>, startsTask: bool)
      requires Valid()
      modifies this
      ensures Valid()
      ensures isRunning == old(isRunning) && accepted == old(accepted)
      ensures item == None ==> queue == old(queue) && isProcessing == old(isProcessing) && !startsTask
      ensures item.None? <==> !old(isRunning) || old(isProcessing) || old(queue) == []
      ensures item.Some? ==> item.value == old(queue)[0] && queue == old(queue)[1..]
      ensures item.Some? && delegateThrows ==> isProcessing && !startsTask
      ensures item.Some? && !delegateThrows ==> !isProcessing && startsTask == (isRunning && queue != [])
    {
      item := TakeNext();
      startsTask := false;
      if item.Some? && !delegateThrows {
        startsTask := FinishItem();
      }
    }

    /**
     * A whole worker task with the second locked section in a finally
     * block: whatever the delegate does, the processor is idle afterwards.
     */
    method ProcessItem(delegateThrows: bool) returns (item: Option<T>, startsTask: bool)
      requires Valid()
      modifies this
      ensures Valid()
      ensures isRunning == old(isRunning) && accepted == old(accepted)
      ensures item == None ==> queue == old(queue) && isProcessing == old(isProcessing) && !startsTask
      ensures item.None? <==> !old(isRunning) || old(isProcessing) || old(queue) == []
      ensures item.Some? ==> item.value == old(queue)[0] && queue == old(queue)[1..]
      ensures item.Some? ==> !isProcessing && startsTask == (isRunning && queue != [])
    {
      item := TakeNext();
      startsTask := false;
      if item.Some? {
        // the delegate runs here; delegateThrows does not change the outcome
        startsTask := FinishItem();
      }
    }
  }

  /**
   * As written: once the delegate throws on one item, the processor stays
   * busy, so a later item starts no worker task and no worker can take it.
   */
  method ThrowingDelegateWedges() returns (secondStarts: bool, secondTaken: Option<int>)
    ensures !secondStarts && secondTaken == None
  {
    var p := new SequentialItemProcessor<int>();
    p.Start();
    var firstStarts := p.EnqueueMessage(1);
    var first, rescheduled := p.ProcessItemAsWritten(true);
    secondStarts := p.EnqueueMessage(2);
    secondTaken := p.TakeNext();
  }

  /**
   * Corrected: after the delegate throws on one item, the next item starts
   * a worker task and is handed out.
   */
  method ThrowingDelegateRecovers() returns (secondStarts: bool, secondTaken: Option<int>)
    ensures secondStarts && secondTaken == Some(2)
  {
    var p := new SequentialItemProcessor<int>();
    p.Start();
    var firstStarts := p.EnqueueMessage(1);
    var first, rescheduled := p.ProcessItem(true);
    secondStarts := p.EnqueueMessage(2);
    secondTaken := p.TakeNext();
  }
}
