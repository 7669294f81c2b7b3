/** The process-lifetime worker pool as a state machine. Every step is either one critical section under the
    mutex, one atomic ticket claim, one unlocked test or call, or a wakeup of a waiting thread. Steps of the
    caller and the workers interleave in any order. */
module WorkerPool {
  import opened Wrappers

  /** Where a worker is in its loop. `Head` is about to take the lock and test its wait condition; `Asleep`
      waits on its condition variable. The others carry the function captured for the generation. */
  datatype Pc<F> =
    | Head
    | Asleep
    | Claim(fn: Option<F>)
    | Test(fn: Option<F>, job: nat)
    | Run(fn: Option<F>, job: nat)
    | Done
    | Exited

  datatype Worker<F> = Worker(last: nat, pc: Pc<F>)

  /** Where the caller is: outside the pool, waiting for a batch, running one itself, or in the destructor. */
  datatype Caller<F> =
    | Idle
    | Waiting(f: F, n: nat, gen: nat, awake: bool)
    | Inline(f: F, n: nat, job: nat)
    | Notifying(k: nat)
    | Joining(k: nat)
    | Gone

  /** `runs` counts the completed executions of each job of the batch; `slots` are its result slots. */
  datatype Pool<F, R> = Pool(
    fn: Option<F>, total: nat, next: nat, active: nat, remaining: int, generation: nat, stop: bool,
    workers: seq<Worker<F>>, caller: Caller<F>, runs: seq<nat>, slots: seq<Option<R>>)

  function Initial<F, R>(n: nat): Pool<F, R> {
    Pool(None, 0, 0, 0, 0, 0, false, seq(n, _ => Worker(0, Head)), Idle, [], [])
  }

  datatype Event<F> =
    | Submit(n: nat, f: F)
    | InlineJob
    | CallerSpurious
    | CallerCheck
    | Destroy
    | NotifyStop
    | Join
    | Check(id: nat)
    | Spurious(id: nat)
    | Take(id: nat)
    | Compare(id: nat)
    | Call(id: nat)
    | Finish(id: nat)

  predicate Ready<F, R>(p: Pool<F, R>, id: nat)
    requires id < |p.workers|
  {
    p.stop || (id < p.active && p.generation != p.workers[id].last)
  }

  predicate Enabled<F, R>(p: Pool<F, R>, e: Event<F>) {
    match e
    case Submit(_, _) => p.caller.Idle?
    case InlineJob => p.caller.Inline? && p.caller.job < |p.runs| && |p.runs| == |p.slots|
    case CallerSpurious => p.caller.Waiting? && !p.caller.awake
    case CallerCheck => p.caller.Waiting? && p.caller.awake
    case Destroy => p.caller.Idle?
    case NotifyStop => p.caller.Notifying?
    case Join => p.caller.Joining? && (p.caller.k < |p.workers| ==> p.workers[p.caller.k].pc.Exited?)
    case Check(id) => id < |p.workers| && p.workers[id].pc.Head?
    case Spurious(id) => id < |p.workers| && p.workers[id].pc.Asleep?
    case Take(id) => id < |p.workers| && p.workers[id].pc.Claim?
    case Compare(id) => id < |p.workers| && p.workers[id].pc.Test?
    case Call(id) => id < |p.workers| && p.workers[id].pc.Run? && p.workers[id].pc.fn.Some? &&
                     p.workers[id].pc.job < |p.runs| && |p.runs| == |p.slots|
    case Finish(id) => id < |p.workers| && p.workers[id].pc.Done?
  }

  function Wake<F>(w: Worker<F>): Worker<F> { if w.pc.Asleep? then w.(pc := Head) else w }

  function Ran<F, R>(p: Pool<F, R>, job: nat, result: R): Pool<F, R>
    requires job < |p.runs| == |p.slots|
  {
    p.(runs := p.runs[job := p.runs[job] + 1], slots := p.slots[job := Some(result)])
  }

  function At<F, R>(p: Pool<F, R>, id: nat, w: Worker<F>): Pool<F, R>
    requires id < |p.workers|
  {
    p.(workers := p.workers[id := w])
  }

  function Step<F, R>(apply: (F, nat) -> R, p: Pool<F, R>, e: Event<F>): Pool<F, R>
    requires Enabled(p, e)
  {
    match e
    case Submit(n, f) =>
      if n == 0 then p
      else if p.workers == [] then
        p.(caller := Inline(f, n, 0), runs := seq(n, _ => 0), slots := seq(n, _ => None))
      else
        var active := if n <= |p.workers| then n else |p.workers|;
        p.(fn := Some(f), total := n, next := 0, active := active, remaining := active, generation := p.generation + 1,
           workers := seq(|p.workers|, id requires 0 <= id < |p.workers| =>
                          if id < active then Wake(p.workers[id]) else p.workers[id]),
           caller := Waiting(f, n, p.generation + 1, active == 0),
           runs := seq(n, _ => 0), slots := seq(n, _ => None))
    case InlineJob =>
      var q := Ran(p, p.caller.job, apply(p.caller.f, p.caller.job));
      q.(caller := if p.caller.job + 1 < p.caller.n then p.caller.(job := p.caller.job + 1) else Idle)
    case CallerSpurious => p.(caller := p.caller.(awake := true))
    case CallerCheck =>
      if p.remaining == 0 && p.generation == p.caller.gen then p.(fn := None, active := 0, caller := Idle)
      else p.(caller := p.caller.(awake := false))
    case Destroy => p.(stop := true, generation := p.generation + 1, caller := Notifying(0))
    case NotifyStop =>
      if p.caller.k < |p.workers|
      then At(p, p.caller.k, Wake(p.workers[p.caller.k])).(caller := Notifying(p.caller.k + 1))
      else p.(caller := Joining(0))
    case Join => p.(caller := if p.caller.k < |p.workers| then Joining(p.caller.k + 1) else Gone)
    case Check(id) =>
      var w := p.workers[id];
      if !Ready(p, id) then At(p, id, w.(pc := Asleep))
      else if p.stop then At(p, id, w.(pc := Exited))
      else At(p, id, Worker(p.generation, Claim(p.fn)))
    case Spurious(id) => At(p, id, p.workers[id].(pc := Head))
    case Take(id) => At(p, id, p.workers[id].(pc := Test(p.workers[id].pc.fn, p.next))).(next := p.next + 1)
    case Compare(id) =>
      var pc := p.workers[id].pc;
      At(p, id, p.workers[id].(pc := if pc.job < p.total then Run(pc.fn, pc.job) else Done))
    case Call(id) =>
      var pc := p.workers[id].pc;
      At(Ran(p, pc.job, apply(pc.fn.value, pc.job)), id, p.workers[id].(pc := Claim(pc.fn)))
    case Finish(id) =>
      var left := p.remaining - 1;
      At(p, id, p.workers[id].(pc := Head)).(remaining := left,
        caller := if left == 0 && p.caller.Waiting? then p.caller.(awake := true) else p.caller)
  }

  // ---------------------------------------------------------------------------------------------
  // The invariant

  predicate Resting<F>(w: Worker<F>) { w.pc.Head? || w.pc.Asleep? }

  /** In the current batch: entered, not yet counted down. */
  predicate Inside<F>(w: Worker<F>) { w.pc.Claim? || w.pc.Test? || w.pc.Run? || w.pc.Done? }

  /** Has counted down for generation `gen`. */
  predicate Through<F>(w: Worker<F>, gen: nat) { Resting(w) && w.last == gen }

  predicate Holds<F>(w: Worker<F>, job: nat) { (w.pc.Test? || w.pc.Run?) && w.pc.job == job }

  /** Workers of the prefix that have not counted down. */
  function Unfinished<F>(ws: seq<Worker<F>>, gen: nat): nat {
    if ws == [] then 0
    else Unfinished(ws[..|ws| - 1], gen) + (if Through(ws[|ws| - 1], gen) then 0 else 1)
  }

  /** A worker of a running batch: outside it for good, not yet in it, in it with its function, or through. */
  ghost predicate InBatch<F(!new), R>(p: Pool<F, R>, f: F, id: nat)
    requires id < |p.workers|
  {
    var w := p.workers[id];
    && w.last <= p.generation && !w.pc.Exited?
    && (Inside(w) ==> id < p.active && w.last == p.generation)
    && (id >= p.active ==> Resting(w) && w.last < p.generation)
    && (w.pc.Claim? ==> w.pc.fn == Some(f))
    && (w.pc.Test? ==> w.pc.fn == Some(f) && w.pc.job < p.next)
    && (w.pc.Run? ==> w.pc.fn == Some(f) && w.pc.job < p.next && w.pc.job < p.total)
    && (w.pc.Asleep? && id < p.active ==> w.last == p.generation)          // no wakeup was lost
    && ((w.pc.Done? || (id < p.active && Through(w, p.generation))) ==> p.total < p.next)
  }

  /** Each claimed job is completed once with the batch's function, or held by exactly one worker. */
  ghost predicate Accounted<F(!new), R(!new)>(apply: (F, nat) -> R, p: Pool<F, R>, f: F, job: nat)
    requires job < |p.runs| == |p.slots|
  {
    if p.runs[job] == 0 then
      && p.slots[job] == None
      && (job < p.next ==> exists id :: 0 <= id < |p.workers| && Holds(p.workers[id], job))
    else
      && p.runs[job] == 1 && p.slots[job] == Some(apply(f, job)) && job < p.next
      && (forall id :: 0 <= id < |p.workers| ==> !Holds(p.workers[id], job))
  }

  ghost predicate Exclusive<F, R>(p: Pool<F, R>) {
    forall i, j, job :: 0 <= i < j < |p.workers| && Holds(p.workers[i], job) ==> !Holds(p.workers[j], job)
  }

  ghost predicate BatchInv<F(!new), R(!new)>(apply: (F, nat) -> R, p: Pool<F, R>, f: F) {
    && p.fn == Some(f) && !p.stop && p.total > 0 && 1 <= p.active <= |p.workers|
    && |p.runs| == |p.slots| == p.total
    && p.remaining == Unfinished(p.workers[..p.active], p.generation)
    && (forall id :: 0 <= id < |p.workers| ==> InBatch(p, f, id))
    && (forall job :: 0 <= job < p.total ==> Accounted(apply, p, f, job))
    && Exclusive(p)
  }

  ghost predicate QuietInv<F, R>(p: Pool<F, R>) {
    && p.fn == None && p.active == 0 && !p.stop
    && (forall id :: 0 <= id < |p.workers| ==> Resting(p.workers[id]) && p.workers[id].last <= p.generation)
  }

  ghost predicate InlineInv<F(!new), R(!new)>(apply: (F, nat) -> R, p: Pool<F, R>) {
    && p.caller.Inline? && p.workers == [] && QuietInv(p)
    && p.caller.job < p.caller.n == |p.runs| == |p.slots|
    && (forall job :: 0 <= job < p.caller.n ==>
          if job < p.caller.job then p.runs[job] == 1 && p.slots[job] == Some(apply(p.caller.f, job))
          else p.runs[job] == 0)
  }

  /** After stop: workers rest or have exited, and none sleeps past its notification. */
  ghost predicate StopInv<F, R>(p: Pool<F, R>) {
    && p.stop && p.active == 0
    && (forall id :: 0 <= id < |p.workers| ==> Resting(p.workers[id]) || p.workers[id].pc.Exited?)
    && (p.caller.Notifying? ==>
          p.caller.k <= |p.workers| && forall id :: 0 <= id < p.caller.k ==> !p.workers[id].pc.Asleep?)
    && (!p.caller.Notifying? ==> forall id :: 0 <= id < |p.workers| ==> !p.workers[id].pc.Asleep?)
    && (p.caller.Joining? ==>
          p.caller.k <= |p.workers| && forall id :: 0 <= id < p.caller.k ==> p.workers[id].pc.Exited?)
    && (p.caller.Gone? ==> forall id :: 0 <= id < |p.workers| ==> p.workers[id].pc.Exited?)
  }

  ghost predicate Inv<F(!new), R(!new)>(apply: (F, nat) -> R, p: Pool<F, R>) {
    match p.caller
    case Idle => QuietInv(p)
    case Waiting(f, n, gen, awake) =>
      BatchInv(apply, p, f) && n == p.total && gen == p.generation && (!awake ==> p.remaining > 0)
    case Inline(_, _, _) => InlineInv(apply, p)
    case _ => StopInv(p)
  }

  /** Every job ran exactly once and its slot holds the function's value: the sequential map. */
  ghost predicate Complete<F(!new), R(!new)>(apply: (F, nat) -> R, p: Pool<F, R>, f: F, n: nat) {
    && |p.runs| == |p.slots| == n
    && (forall job :: 0 <= job < n ==> p.runs[job] == 1)
    && p.slots == seq(n, job requires 0 <= job < n => Some(apply(f, job)))
  }

  // ---------------------------------------------------------------------------------------------
  // Counting

  lemma {:induction false} UnfinishedUpdate<F>(ws: seq<Worker<F>>, id: nat, w: Worker<F>, gen: nat)
    requires id < |ws|
    ensures Unfinished(ws[id := w], gen) ==
            Unfinished(ws, gen) + (if Through(w, gen) then 0 else 1) - (if Through(ws[id], gen) then 0 else 1)
    decreases |ws|
  {
    var n := |ws| - 1;
    if id < n {
      UnfinishedUpdate(ws[..n], id, w, gen);
      assert ws[id := w][..n] == ws[..n][id := w];
    } else {
      assert ws[id := w][..n] == ws[..n];
    }
  }

  lemma {:induction false} UnfinishedBounds<F>(ws: seq<Worker<F>>, gen: nat)
    ensures Unfinished(ws, gen) <= |ws|
    ensures Unfinished(ws, gen) == 0 <==> forall id :: 0 <= id < |ws| ==> Through(ws[id], gen)
    ensures Unfinished(ws, gen) == |ws| <==> forall id :: 0 <= id < |ws| ==> !Through(ws[id], gen)
    decreases |ws|
  {
    if ws != [] {
      var n := |ws| - 1;
      UnfinishedBounds(ws[..n], gen);
      assert forall id :: 0 <= id < n ==> ws[..n][id] == ws[id];
    }
  }

  /** Replacing a worker of the active prefix. */
  lemma ActiveUpdate<F, R>(p: Pool<F, R>, id: nat, w: Worker<F>)
    requires id < |p.workers| && p.active <= |p.workers|
    ensures Unfinished(p.workers[id := w][..p.active], p.generation) ==
            Unfinished(p.workers[..p.active], p.generation) +
            (if id >= p.active then 0
             else (if Through(w, p.generation) then 0 else 1) - (if Through(p.workers[id], p.generation) then 0 else 1))
  {
    if id < p.active {
      UnfinishedUpdate(p.workers[..p.active], id, w, p.generation);
      assert p.workers[id := w][..p.active] == p.workers[..p.active][id := w];
    } else {
      assert p.workers[id := w][..p.active] == p.workers[..p.active];
    }
  }
}
