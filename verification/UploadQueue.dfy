/** The upload queue (`runUploadQueue` in appHelpers.ts): a few asynchronous workers
    share one cursor into the items and one list of results.  The code of a worker
    between two awaits is one step; which worker steps next is arbitrary. */
module UploadQueue {

  const MAX_WORKERS := 12

  function Min(a: int, b: int): int {
    if a < b then a else b
  }

  function Max(a: int, b: int): int {
    if a < b then b else a
  }

  /** At least one worker, and otherwise the most that the limit, the setting and the items allow. */
  function WorkerCount(concurrency: int, items: nat): (n: nat)
    ensures n == Max(1, Min(MAX_WORKERS, Min(concurrency, items)))
    ensures 1 <= n <= MAX_WORKERS && (n > 1 ==> n <= concurrency && n <= items)
  {
    if concurrency < 1 || items < 1 then 1
    else if concurrency < MAX_WORKERS && concurrency < items then concurrency
    else if items < MAX_WORKERS then items
    else MAX_WORKERS
  }

  /** A worker has not begun its loop, awaits the upload of an item, or has left the loop. */
  datatype Worker = Fresh | Busy(item: nat) | Done

  /** Workers that have not left the loop. */
  function Active(workers: seq<Worker>): nat {
    if workers == [] then 0
    else Active(workers[..|workers| - 1]) + if workers[|workers| - 1].Done? then 0 else 1
  }

  /** The output a worker will add: that of its item, if it is busy. */
  ghost function Output<R>(w: Worker, outputs: seq<R>): multiset<R> {
    if w.Busy? && w.item < |outputs| then multiset{outputs[w.item]} else multiset{}
  }

  /** The outputs of the uploads in flight. */
  ghost function InFlight<R>(workers: seq<Worker>, outputs: seq<R>): multiset<R> {
    if workers == [] then multiset{}
    else InFlight(workers[..|workers| - 1], outputs) + Output(workers[|workers| - 1], outputs)
  }

  lemma {:induction false} ActiveUpdate(workers: seq<Worker>, i: nat, w: Worker)
    requires i < |workers|
    ensures Active(workers[i := w])
         == Active(workers) - (if workers[i].Done? then 0 else 1) + (if w.Done? then 0 else 1)
  {
    var n := |workers| - 1;
    if i < n {
      assert workers[i := w][..n] == workers[..n][i := w];
      ActiveUpdate(workers[..n], i, w);
    } else {
      assert workers[i := w][..n] == workers[..n];
    }
  }

  lemma Swap<R>(a: multiset<R>, b: multiset<R>, c: multiset<R>, d: multiset<R>, e: multiset<R>)
    requires a + b == c + d
    ensures (a + e) + b == (c + e) + d
  {
    assert (a + e) + b == (a + b) + e;
    assert (c + e) + d == (c + d) + e;
  }

  lemma InFlightSplit<R>(workers: seq<Worker>, outputs: seq<R>, n: nat)
    requires n + 1 == |workers|
    ensures InFlight(workers, outputs) == InFlight(workers[..n], outputs) + Output(workers[n], outputs)
  {
  }

  lemma Exchange<R>(a: multiset<R>, b: multiset<R>, c: multiset<R>)
    ensures (a + b) + c == (a + c) + b
  {
  }

  lemma {:induction false} InFlightUpdate<R>(workers: seq<Worker>, outputs: seq<R>, i: nat, w: Worker)
    requires i < |workers|
    ensures InFlight(workers[i := w], outputs) + Output(workers[i], outputs)
         == InFlight(workers, outputs) + Output(w, outputs)
    decreases |workers|
  {
    var n := |workers| - 1;
    var init := workers[..n];
    InFlightSplit(workers, outputs, n);
    InFlightSplit(workers[i := w], outputs, n);
    if i < n {
      assert workers[i := w][..n] == init[i := w] && init[i] == workers[i];
      InFlightUpdate(init, outputs, i, w);
      Swap(InFlight(init[i := w], outputs), Output(workers[i], outputs),
           InFlight(init, outputs), Output(w, outputs), Output(workers[n], outputs));
    } else {
      assert workers[i := w][..n] == init;
      Exchange(InFlight(init, outputs), Output(w, outputs), Output(workers[n], outputs));
    }
  }

  /** Workers of which none is busy have nothing in flight. */
  lemma {:induction false} NoneInFlight<R>(workers: seq<Worker>, outputs: seq<R>)
    requires forall k :: 0 <= k < |workers| ==> !workers[k].Busy?
    ensures InFlight(workers, outputs) == multiset{}
  {
    if workers != [] {
      NoneInFlight(workers[..|workers| - 1], outputs);
    }
  }

  lemma {:induction false} AllActive(workers: seq<Worker>)
    requires forall k :: 0 <= k < |workers| ==> !workers[k].Done?
    ensures Active(workers) == |workers|
  {
    if workers != [] {
      AllActive(workers[..|workers| - 1]);
    }
  }

  lemma {:induction false} NoneActive(workers: seq<Worker>)
    requires forall k :: 0 <= k < |workers| ==> workers[k].Done?
    ensures Active(workers) == 0
  {
    if workers != [] {
      NoneActive(workers[..|workers| - 1]);
    }
  }

  /** What a worker does when it resumes: it takes the next item or leaves. */
  function Resumed(cursor: nat, count: nat): Worker {
    if cursor < count then Busy(cursor) else Done
  }

  /** The results after a worker stores the output of the item it was busy with. */
  function Stored<R>(results: seq<R>, w: Worker, outputs: seq<R>): seq<R> {
    if w.Busy? && w.item < |outputs| then results + [outputs[w.item]] else results
  }

  /** Finished and in-flight outputs together stay the outputs of the items taken. */
  lemma StepConserves<R>(results: seq<R>, workers: seq<Worker>, outputs: seq<R>, cursor: nat, i: nat)
    requires i < |workers| && cursor <= |outputs|
    requires multiset(results) + InFlight(workers, outputs) == multiset(outputs[..cursor])
    ensures var taken := if cursor < |outputs| then cursor + 1 else cursor;
            multiset(Stored(results, workers[i], outputs))
              + InFlight(workers[i := Resumed(cursor, |outputs|)], outputs) == multiset(outputs[..taken])
  {
    var next := Resumed(cursor, |outputs|);
    InFlightUpdate(workers, outputs, i, next);
    StoredOutput(results, workers[i], outputs);
    TakenOutput(outputs, cursor);
    Balance(multiset(results), Output(workers[i], outputs), InFlight(workers[i := next], outputs),
            InFlight(workers, outputs), Output(next, outputs));
  }

  lemma StoredOutput<R>(results: seq<R>, w: Worker, outputs: seq<R>)
    ensures multiset(Stored(results, w, outputs)) == multiset(results) + Output(w, outputs)
  {
  }

  lemma TakenOutput<R>(outputs: seq<R>, cursor: nat)
    requires cursor <= |outputs|
    ensures multiset(outputs[..if cursor < |outputs| then cursor + 1 else cursor])
         == multiset(outputs[..cursor]) + Output(Resumed(cursor, |outputs|), outputs)
  {
    if cursor < |outputs| {
      assert outputs[..cursor + 1] == outputs[..cursor] + [outputs[cursor]];
    }
  }

  lemma Balance<R>(results: multiset<R>, out: multiset<R>, after: multiset<R>, before: multiset<R>, into: multiset<R>)
    requires after + out == before + into
    ensures (results + out) + after == (results + before) + into
  {
    assert (results + out) + after == results + (after + out);
    assert (results + before) + into == results + (before + into);
  }

  /** What the worker function gives for each item. */
  function Outputs<T, R>(items: seq<T>, worker: T -> R): (r: seq<R>)
    ensures |r| == |items| && forall i :: 0 <= i < |r| ==> r[i] == worker(items[i])
  {
    if items == [] then [] else [worker(items[0])] + Outputs(items[1..], worker)
  }

  /** 0, 1, ... below `n`. */
  function UpTo(n: nat): seq<nat> {
    if n == 0 then [] else UpTo(n - 1) + [n - 1]
  }

  /** What holds between steps, `width` being the number of workers. */
  ghost predicate Inv<R>(results: seq<R>, workers: seq<Worker>, cursor: nat, started: seq<nat>, steps: nat,
                         outputs: seq<R>, width: nat)
  {
    && cursor <= |outputs| && |workers| == width
    && (forall k :: 0 <= k < |workers| && workers[k].Busy? ==> workers[k].item < |outputs|)
    && multiset(results) + InFlight(workers, outputs) == multiset(outputs[..cursor])
    && started == UpTo(cursor)
    && (cursor == |outputs| || forall k :: 0 <= k < |workers| ==> !workers[k].Done?)
    && steps + (|outputs| - cursor) + Active(workers) == |outputs| + width
  }

  lemma InvStart<R>(outputs: seq<R>, width: nat)
    ensures Inv([], seq(width, _ => Fresh), 0, [], 0, outputs, width)
  {
    var workers := seq(width, _ => Fresh);
    NoneInFlight(workers, outputs);
    AllActive(workers);
  }

  lemma InvStep<R>(results: seq<R>, workers: seq<Worker>, cursor: nat, started: seq<nat>, steps: nat,
                   outputs: seq<R>, width: nat, i: nat)
    requires Inv(results, workers, cursor, started, steps, outputs, width)
    requires i < |workers| && !workers[i].Done?
    ensures var taken := if cursor < |outputs| then cursor + 1 else cursor;
            Inv(Stored(results, workers[i], outputs), workers[i := Resumed(cursor, |outputs|)], taken,
                UpTo(taken), steps + 1, outputs, width)
  {
    StepConserves(results, workers, outputs, cursor, i);
    ActiveUpdate(workers, i, Resumed(cursor, |outputs|));
  }

  lemma InvEnd<R>(results: seq<R>, workers: seq<Worker>, cursor: nat, started: seq<nat>, steps: nat,
                  outputs: seq<R>, width: nat)
    requires Inv(results, workers, cursor, started, steps, outputs, width) && width > 0
    requires forall k :: 0 <= k < |workers| ==> workers[k].Done?
    ensures multiset(results) == multiset(outputs) && started == UpTo(|outputs|) && steps == |outputs| + width
    ensures cursor == |outputs|
  {
    NoneInFlight(workers, outputs);
    NoneActive(workers);
    assert workers[0].Done?;
    assert outputs[..cursor] == outputs;
  }

  /** How many uploads have been started and how many have finished. */
  datatype Progress = Progress(started: nat, finished: nat)

  /** Between two steps at most `width` uploads are in flight. */
  predicate WithinWidth(p: Progress, width: nat) {
    p.finished <= p.started <= p.finished + width
  }

  /** A step finishes at most one upload and starts at most one. */
  predicate OneStep(before: Progress, after: Progress) {
    && (after.started == before.started || after.started == before.started + 1)
    && (after.finished == before.finished || after.finished == before.finished + 1)
  }

  /** The progress after each step, from the first. */
  predicate ProgressSound(progress: seq<Progress>, width: nat) {
    && (forall k :: 0 <= k < |progress| ==> WithinWidth(progress[k], width))
    && (forall k :: 0 < k < |progress| ==> OneStep(progress[k - 1], progress[k]))
    && (progress != [] ==> OneStep(Progress(0, 0), progress[0]))
  }

  function LastProgress(progress: seq<Progress>): Progress {
    if progress == [] then Progress(0, 0) else progress[|progress| - 1]
  }

  lemma {:induction false} InFlightCount<R>(workers: seq<Worker>, outputs: seq<R>)
    ensures |InFlight(workers, outputs)| <= |workers|
  {
    if workers != [] {
      InFlightCount(workers[..|workers| - 1], outputs);
    }
  }

  lemma InvWithinWidth<R>(results: seq<R>, workers: seq<Worker>, cursor: nat, started: seq<nat>, steps: nat,
                          outputs: seq<R>, width: nat)
    requires Inv(results, workers, cursor, started, steps, outputs, width)
    ensures WithinWidth(Progress(cursor, |results|), width)
  {
    InFlightCount(workers, outputs);
    assert |multiset(results) + InFlight(workers, outputs)| == |results| + |InFlight(workers, outputs)|;
    assert |multiset(outputs[..cursor])| == cursor;
  }

  lemma ProgressSnoc(progress: seq<Progress>, p: Progress, width: nat)
    requires ProgressSound(progress, width) && WithinWidth(p, width) && OneStep(LastProgress(progress), p)
    ensures ProgressSound(progress + [p], width)
  {
  }

  /** The variables the workers share, with what was observed of the run. */
  datatype Queue<R> = Queue(results: seq<R>, workers: seq<Worker>, cursor: nat, started: seq<nat>, progress: seq<Progress>)

  ghost predicate QueueInv<R>(q: Queue<R>, outputs: seq<R>, width: nat) {
    && Inv(q.results, q.workers, q.cursor, q.started, |q.progress|, outputs, width)
    && ProgressSound(q.progress, width)
    && LastProgress(q.progress) == Progress(q.cursor, |q.results|)
  }

  ghost function Stepped<R>(q: Queue<R>, i: nat, outputs: seq<R>): Queue<R>
    requires i < |q.workers|
  {
    var taken := if q.cursor < |outputs| then q.cursor + 1 else q.cursor;
    var stored := Stored(q.results, q.workers[i], outputs);
    Queue(stored, q.workers[i := Resumed(q.cursor, |outputs|)], taken, UpTo(taken),
          q.progress + [Progress(taken, |stored|)])
  }

  lemma StepKeepsInv<R>(q: Queue<R>, i: nat, outputs: seq<R>, width: nat)
    requires QueueInv(q, outputs, width) && i < |q.workers| && !q.workers[i].Done?
    ensures QueueInv(Stepped(q, i, outputs), outputs, width)
  {
    var r := Stepped(q, i, outputs);
    InvStep(q.results, q.workers, q.cursor, q.started, |q.progress|, outputs, width, i);
    InvWithinWidth(r.results, r.workers, r.cursor, r.started, |r.progress|, outputs, width);
    ProgressSnoc(q.progress, Progress(r.cursor, |r.results|), width);
  }

  /** The measure of the loop: items not taken, and workers not gone. */
  function Left<R>(q: Queue<R>, count: nat): int {
    count - q.cursor + Active(q.workers)
  }

  lemma StepDescends<R>(q: Queue<R>, i: nat, outputs: seq<R>)
    requires i < |q.workers| && !q.workers[i].Done?
    ensures Left(Stepped(q, i, outputs), |outputs|) < Left(q, |outputs|)
  {
    ActiveUpdate(q.workers, i, Resumed(q.cursor, |outputs|));
  }

  /** One worker between two awaits: store the output of its item, then take the next item. */
  method Resume<T, R>(items: seq<T>, worker: T -> R, q: Queue<R>, i: nat) returns (r: Queue<R>)
    requires i < |q.workers| && (q.workers[i].Busy? ==> q.workers[i].item < |items|)
    requires q.started == UpTo(q.cursor)
    ensures r == Stepped(q, i, Outputs(items, worker))
  {
    var w := q.workers[i];
    var results, next, cursor, started := q.results, Done, q.cursor, q.started;
    if w.Busy? {
      results := results + [worker(items[w.item])];
    }
    if cursor < |items| {
      next := Busy(cursor);
      started := started + [cursor];
      cursor := cursor + 1;
    }
    r := Queue(results, q.workers[i := next], cursor, started, q.progress + [Progress(cursor, |results|)]);
  }

  lemma StartKeepsInv<R>(outputs: seq<R>, width: nat)
    ensures QueueInv(Queue([], seq(width, _ => Fresh), 0, [], []), outputs, width)
  {
    InvStart(outputs, width);
  }

  lemma EndOfQueue<R>(q: Queue<R>, outputs: seq<R>, width: nat)
    requires QueueInv(q, outputs, width) && width > 0
    requires forall k :: 0 <= k < |q.workers| ==> q.workers[k].Done?
    ensures multiset(q.results) == multiset(outputs) && q.started == UpTo(|outputs|)
    ensures |q.progress| == |outputs| + width && LastProgress(q.progress) == Progress(|outputs|, |outputs|)
  {
    InvEnd(q.results, q.workers, q.cursor, q.started, |q.progress|, outputs, width);
    AllFinished(q.results, outputs, |outputs|);
  }

  /** `runUploadQueue` with a worker function that does not fail.  For every order in
      which the uploads complete, the queue ends after a fixed number of steps, has
      started each item exactly once and in order, and returns the outputs in some order;
      at no time are more uploads in flight than there are workers. */
  method RunUploadQueue<T, R>(items: seq<T>, concurrency: int, worker: T -> R)
    returns (results: seq<R>, started: seq<nat>, progress: seq<Progress>)
    ensures multiset(results) == multiset(Outputs(items, worker))
    ensures started == UpTo(|items|)
    ensures |progress| == |items| + WorkerCount(concurrency, |items|)
    ensures ProgressSound(progress, WorkerCount(concurrency, |items|))
    ensures LastProgress(progress) == Progress(|items|, |items|)
  {
    ghost var outputs := Outputs(items, worker);
    var width := WorkerCount(concurrency, |items|);
    var q: Queue<R> := Queue([], seq(width, _ => Fresh), 0, [], []);
    StartKeepsInv(outputs, width);
    while exists i :: 0 <= i < |q.workers| && !q.workers[i].Done?
      invariant QueueInv(q, outputs, width)
      decreases Left(q, |items|)
    {
      var i :| 0 <= i < |q.workers| && !q.workers[i].Done?;
      StepKeepsInv(q, i, outputs, width);
      StepDescends(q, i, outputs);
      q := Resume(items, worker, q, i);
    }
    EndOfQueue(q, outputs, width);
    results, started, progress := q.results, q.started, q.progress;
  }

  lemma AllFinished<R>(results: seq<R>, outputs: seq<R>, count: nat)
    requires multiset(results) == multiset(outputs) && |outputs| == count
    ensures |results| == count
  {
    assert |multiset(results)| == |results| && |multiset(outputs)| == |outputs|;
  }
}
