/**
 * QueuedCommandExecutor and FileLogger: any number of threads put items into a queue, one worker thread
 * takes them out, and stop lets the worker drain what is left. Each step below is one critical section,
 * or one piece of work done outside the lock; the steps of all threads interleave freely.
 */
module WorkQueue {
  import opened Bytes

  /**
   * accepted is history: every item a producer has managed to queue. done is what the worker has executed
   * or written, hand the item it has taken and not finished.
   */
  datatype Worker<T> = Worker(accepted: seq<T>, done: seq<T>, hand: Option<T>, queue: seq<T>, running: bool, exited: bool)

  datatype Step<T> =
    | Post(item: T)     // post or enqueue: refused once running_ is false
    | Take              // the worker takes the front item under the lock
    | Work              // and executes or writes it after releasing the lock
    | Stop              // stop clears running_
    | Exit              // the worker finds the queue empty and running_ false
    | FlushReturns      // FileLogger::flush: the wait for an empty queue is over
    | StopReturns       // stop has joined the worker

  function Fresh<T>(): Worker<T> {
    Worker([], [], None, [], true, false)
  }

  function InHand<T>(w: Worker<T>): seq<T> {
    if w.hand.Some? then [w.hand.value] else []
  }

  /** The conditions the threads wait for. */
  predicate Enabled<T>(w: Worker<T>, step: Step<T>) {
    match step
    case Post(_) => true
    case Take => !w.exited && w.hand.None? && w.queue != []
    case Work => w.hand.Some?
    case Stop => true
    case Exit => !w.exited && w.hand.None? && w.queue == [] && !w.running
    case FlushReturns => w.queue == []
    case StopReturns => w.exited
  }

  function Next<T>(w: Worker<T>, step: Step<T>): Worker<T>
    requires Enabled(w, step)
  {
    match step
    case Post(item) => if w.running then w.(queue := w.queue + [item], accepted := w.accepted + [item]) else w
    case Take => w.(hand := Some(w.queue[0]), queue := w.queue[1..])
    case Work => w.(done := w.done + [w.hand.value], hand := None)
    case Stop => w.(running := false)
    case Exit => w.(exited := true)
    case FlushReturns => w
    case StopReturns => w
  }

  datatype Run<T> = Run(states: seq<Worker<T>>, steps: seq<Step<T>>)

  predicate IsRun<T(==)>(r: Run<T>) {
    && |r.states| == |r.steps| + 1
    && r.states[0] == Fresh()
    && forall j :: 0 <= j < |r.steps| ==> Enabled(r.states[j], r.steps[j]) && r.states[j + 1] == Next(r.states[j], r.steps[j])
  }

  // ----- nothing is lost, doubled or reordered -----

  ghost predicate Inv<T>(w: Worker<T>) {
    && w.accepted == w.done + InHand(w) + w.queue
    && (w.exited ==> w.hand.None? && w.queue == [] && !w.running)
  }

  lemma NextKeepsInv<T>(w: Worker<T>, step: Step<T>)
    requires Inv(w) && Enabled(w, step)
    ensures Inv(Next(w, step))
    ensures w.done <= Next(w, step).done && w.accepted <= Next(w, step).accepted
  {
  }

  /** In every run and at every moment: accepted items are done, at most one is in hand, the rest queued, in order. */
  lemma {:induction false} EveryItemAccountedFor<T>(r: Run<T>, j: nat)
    requires IsRun(r) && j < |r.states|
    ensures Inv(r.states[j])
  {
    if j > 0 {
      EveryItemAccountedFor(r, j - 1);
      NextKeepsInv(r.states[j - 1], r.steps[j - 1]);
    }
  }

  /** Somebody has called stop in the first j steps. */
  predicate Stopped<T>(steps: seq<Step<T>>, j: nat)
    requires j <= |steps|
  {
    exists i :: 0 <= i < j && steps[i].Stop?
  }

  /** The items of the Post steps among the first j that come before the first Stop, in order. */
  ghost function PostedInTime<T>(steps: seq<Step<T>>, j: nat): seq<T>
    requires j <= |steps|
  {
    if j == 0 then []
    else PostedInTime(steps, j - 1) + if steps[j - 1].Post? && !Stopped(steps, j - 1) then [steps[j - 1].item] else []
  }

  /** In every run exactly the items posted before the first stop have been accepted, in the order they were posted. */
  lemma {:induction false} AcceptedIsPosted<T>(r: Run<T>, j: nat)
    requires IsRun(r) && j < |r.states|
    ensures r.states[j].accepted == PostedInTime(r.steps, j)
    ensures r.states[j].running <==> !Stopped(r.steps, j)
  {
    if j > 0 {
      AcceptedIsPosted(r, j - 1);
      assert r.states[j] == Next(r.states[j - 1], r.steps[j - 1]);
      if r.steps[j - 1].Stop? {
        assert Stopped(r.steps, j);
      } else if Stopped(r.steps, j - 1) {
        var i :| 0 <= i < j - 1 && r.steps[i].Stop?;
        assert Stopped(r.steps, j);
      }
    }
  }

  lemma NothingAfterExit<T>(w: Worker<T>, step: Step<T>)
    requires Inv(w) && Enabled(w, step)
    ensures w.exited ==> Next(w, step) == w
  {
  }

  lemma {:induction false} DoneOnlyGrows<T>(r: Run<T>, i: nat, j: nat)
    requires IsRun(r) && i <= j < |r.states|
    ensures r.states[i].done <= r.states[j].done && r.states[i].accepted <= r.states[j].accepted
    ensures r.states[i].exited ==> r.states[j] == r.states[i]
    decreases j - i
  {
    hide Next, Inv, Enabled;
    if i < j {
      DoneOnlyGrows(r, i, j - 1);
      EveryItemAccountedFor(r, j - 1);
      NextKeepsInv(r.states[j - 1], r.steps[j - 1]);
      NothingAfterExit(r.states[j - 1], r.steps[j - 1]);
    }
  }

  /**
   * When stop returns, every item posted before stop cleared the flag has been executed exactly once and
   * in order, and nothing is executed or accepted afterwards.
   */
  lemma StopDrains<T>(r: Run<T>, i: nat, j: nat, k: nat)
    requires IsRun(r) && i <= j <= k < |r.states| && j < |r.steps| && r.steps[j] == StopReturns
    ensures r.states[i].accepted <= r.states[j].done == r.states[j].accepted
    ensures r.states[j].done == PostedInTime(r.steps, j) && Stopped(r.steps, j)
    ensures r.states[k] == r.states[j]
  {
    EveryItemAccountedFor(r, j);
    AcceptedIsPosted(r, j);
    DoneOnlyGrows(r, i, j);
    DoneOnlyGrows(r, j, k);
    assert r.states[j].done + [] + [] == r.states[j].done;
  }

  // ----- stop comes to an end -----

  /** The worker's steps. */
  predicate Internal<T>(step: Step<T>) {
    step.Take? || step.Work? || step.Exit?
  }

  /** What the worker still has to do once running_ is false. */
  function Remaining<T>(w: Worker<T>): nat {
    2 * |w.queue| + (if w.hand.Some? then 1 else 0) + (if w.exited then 0 else 1)
  }

  /** After stop has cleared running_, nobody's step adds work, and the worker's every step removes some. */
  lemma StopMakesProgress<T>(w: Worker<T>, step: Step<T>)
    requires Inv(w) && Enabled(w, step) && !w.running
    ensures !Next(w, step).running
    ensures Remaining(Next(w, step)) <= Remaining(w)
    ensures Internal(step) ==> Remaining(Next(w, step)) < Remaining(w)
  {
  }

  /** And until the worker has exited, it always has a step to take: stop cannot hang. */
  lemma WorkerNeverStuck<T>(w: Worker<T>)
    requires Inv(w) && !w.running && !w.exited
    ensures Enabled(w, Take) || Enabled(w, Work) || Enabled(w, Exit)
  {
  }

  // ----- flush -----

  /**
   * When flush returns, everything accepted so far has been written, but for at most one entry; and
   * everything has been written exactly if the writer has nothing in hand.
   */
  lemma FlushIff<T>(r: Run<T>, j: nat)
    requires IsRun(r) && j < |r.steps| && r.steps[j] == FlushReturns
    ensures var w := r.states[j];
            && w.done <= w.accepted && |w.done| >= |w.accepted| - 1
            && (w.done == w.accepted <==> w.hand.None?)
  {
    EveryItemAccountedFor(r, j);
    var w := r.states[j];
    assert w.accepted == w.done + InHand(w);
  }

  /** flush can return with the only entry still unwritten. */
  lemma FlushMayReturnEarly<T>(item: T)
    ensures exists r: Run<T>, j :: IsRun(r) && 0 <= j < |r.steps| && r.steps[j] == FlushReturns
                                   && r.states[j].accepted == [item] && r.states[j].done == []
  {
    var w0 := Fresh<T>();
    var w1 := w0.(queue := [item], accepted := [item]);
    var w2 := w1.(queue := [], hand := Some(item));
    assert w0.queue + [item] == [item] && w0.accepted + [item] == [item];
    assert w1.queue[1..] == [];
    var r := Run([w0, w1, w2, w2], [Post(item), Take, FlushReturns]);
    assert IsRun(r);
    assert r.steps[2] == FlushReturns && r.states[2] == w2;
  }

  // ----- the object -----

  /** The executor's fields; done stands for what its target has seen. The logger's differ in names only. */
  class Executor<T> {
    var done: seq<T>
    var hand: Option<T>
    var queue: seq<T>
    var running: bool
    var exited: bool
    ghost var accepted: seq<T>

    ghost function View(): Worker<T>
      reads this
    {
      Worker(accepted, done, hand, queue, running, exited)
    }

    constructor ()
      ensures View() == Fresh()
    {
      done, hand, queue, running, exited, accepted := [], None, [], true, false, [];
    }

    method PostItem(item: T)
      modifies this
      ensures View() == Next(old(View()), Post(item))
      ensures queue == if old(running) then old(queue) + [item] else old(queue)
      ensures running == old(running) && done == old(done) && hand == old(hand) && exited == old(exited)
    {
      if !running {
        return;
      }
      queue := queue + [item];
      accepted := accepted + [item];
    }

    /** The critical section of dispatcher_loop, once its wait is over. */
    method TakeFront()
      requires !exited && hand.None? && (queue != [] || !running)
      modifies this
      ensures View() == Next(old(View()), if old(queue) == [] then Exit else Take)
      ensures if old(queue) == [] then exited && hand.None? && queue == []
              else hand == Some(old(queue)[0]) && queue == old(queue)[1..] && !exited
    {
      if |queue| == 0 {
        exited := true;
      } else {
        hand := Some(queue[0]);
        queue := queue[1..];
      }
    }

    /** command->execute, outside the lock. */
    method Execute()
      requires hand.Some?
      modifies this
      ensures View() == Next(old(View()), Work)
      ensures done == old(done) + [old(hand).value] && hand.None? && queue == old(queue)
    {
      done := done + [hand.value];
      hand := None;
    }

    /** stop, with the dispatcher running to its end while it is joined. */
    method StopAndJoin()
      requires Inv(View())
      modifies this
      ensures Inv(View()) && exited && accepted == old(accepted) && done == accepted
      ensures done == old(done) + (if old(hand).Some? then [old(hand).value] else []) + old(queue)
    {
      running := false;
      while !exited
        invariant Inv(View()) && !running && accepted == old(accepted)
        decreases Remaining(View())
      {
        ghost var w := View();
        if hand.Some? {
          NextKeepsInv(w, Work);
          StopMakesProgress(w, Work);
          Execute();
        } else {
          ghost var step := if queue == [] then Exit else Take;
          NextKeepsInv(w, step);
          StopMakesProgress(w, step);
          TakeFront();
        }
      }
      assert done + [] + [] == done;
    }
  }
}
