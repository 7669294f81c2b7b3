/** Safety and liveness of the worker pool over every interleaving. */
module WorkerPoolRuns {
  import opened WorkerPool
  import opened Wrappers

  // ---------------------------------------------------------------------------------------------
  // Steps of a running batch keep its invariant

  /** A worker step that changes no job, ticket or shared count. */
  lemma LocalKeeps<F(!new), R(!new)>(apply: (F, nat) -> R, p: Pool<F, R>, f: F, id: nat, w: Worker<F>)
    requires BatchInv(apply, p, f) && id < |p.workers|
    requires Through(w, p.generation) <==> Through(p.workers[id], p.generation)
    requires forall job :: Holds(w, job) <==> Holds(p.workers[id], job)
    requires InBatch(At(p, id, w), f, id)
    ensures BatchInv(apply, At(p, id, w), f)
  {
    var q := At(p, id, w);
    ActiveUpdate(p, id, w);
    forall k | 0 <= k < |q.workers| ensures InBatch(q, f, k) {
      assert InBatch(p, f, k);
    }
    hide InBatch, Holds, Through, Unfinished;
    forall job | 0 <= job < q.total ensures Accounted(apply, q, f, job) {
      assert Accounted(apply, p, f, job);
      if q.runs[job] == 0 && job < q.next {
        var k :| 0 <= k < |p.workers| && Holds(p.workers[k], job);
        assert Holds(q.workers[k], job);
      }
    }
  }

  lemma CheckKeeps<F(!new), R(!new)>(apply: (F, nat) -> R, p: Pool<F, R>, f: F, id: nat)
    requires BatchInv(apply, p, f) && Enabled(p, Check(id))
    ensures BatchInv(apply, Step(apply, p, Check(id)), f)
  {
    hide BatchInv;
    assert InBatch(p, f, id) && !p.stop && p.fn == Some(f) by {
      assert BatchInv(apply, p, f);
      UnpackWorker(apply, p, f, id);
    }
    var w := p.workers[id];
    if !Ready(p, id) {
      LocalKeeps(apply, p, f, id, w.(pc := Asleep));
    } else {
      LocalKeeps(apply, p, f, id, Worker(p.generation, Claim(p.fn)));
    }
  }

  lemma UnpackWorker<F(!new), R(!new)>(apply: (F, nat) -> R, p: Pool<F, R>, f: F, id: nat)
    requires BatchInv(apply, p, f) && id < |p.workers|
    ensures InBatch(p, f, id) && !p.stop && p.fn == Some(f) && 1 <= p.active <= |p.workers| &&
            |p.runs| == |p.slots| == p.total
  {}

  lemma SpuriousKeeps<F(!new), R(!new)>(apply: (F, nat) -> R, p: Pool<F, R>, f: F, id: nat)
    requires BatchInv(apply, p, f) && Enabled(p, Spurious(id))
    ensures BatchInv(apply, Step(apply, p, Spurious(id)), f)
  {
    hide BatchInv;
    UnpackWorker(apply, p, f, id);
    LocalKeeps(apply, p, f, id, p.workers[id].(pc := Head));
  }

  lemma TakeKeeps<F(!new), R(!new)>(apply: (F, nat) -> R, p: Pool<F, R>, f: F, id: nat)
    requires BatchInv(apply, p, f) && Enabled(p, Take(id))
    ensures BatchInv(apply, Step(apply, p, Take(id)), f)
  {
    var q := Step(apply, p, Take(id));
    var w := q.workers[id];
    ActiveUpdate(p, id, w);
    forall k | 0 <= k < |q.workers| ensures InBatch(q, f, k) {
      assert InBatch(p, f, k);
    }
    assert forall k, job: nat :: 0 <= k < |p.workers| && Holds(p.workers[k], job) ==> job < p.next by {
      forall k, job: nat | 0 <= k < |p.workers| && Holds(p.workers[k], job)
        ensures job < p.next
      {
        assert InBatch(p, f, k);
      }
    }
    hide InBatch, Through, Unfinished;
    forall job | 0 <= job < q.total ensures Accounted(apply, q, f, job) {
      assert Accounted(apply, p, f, job);
      if q.runs[job] == 0 && job < q.next {
        if job == p.next {
          assert Holds(q.workers[id], job);
        } else {
          var k :| 0 <= k < |p.workers| && Holds(p.workers[k], job);
          assert Holds(q.workers[k], job);
        }
      }
    }
  }

  lemma CompareKeeps<F(!new), R(!new)>(apply: (F, nat) -> R, p: Pool<F, R>, f: F, id: nat)
    requires BatchInv(apply, p, f) && Enabled(p, Compare(id))
    ensures BatchInv(apply, Step(apply, p, Compare(id)), f)
  {
    UnpackWorker(apply, p, f, id);
    var pc := p.workers[id].pc;
    if pc.job < p.total {
      LocalKeeps(apply, p, f, id, p.workers[id].(pc := Run(pc.fn, pc.job)));
    } else {
      var q := Step(apply, p, Compare(id));
      ActiveUpdate(p, id, q.workers[id]);
      forall k | 0 <= k < |q.workers| ensures InBatch(q, f, k) {
        assert InBatch(p, f, k);
      }
      hide InBatch, Through, Unfinished;
      forall job | 0 <= job < q.total ensures Accounted(apply, q, f, job) {
        assert Accounted(apply, p, f, job);
        if q.runs[job] == 0 && job < q.next {
          var k :| 0 <= k < |p.workers| && Holds(p.workers[k], job);
          assert Holds(q.workers[k], job);
        }
      }
    }
  }

  lemma CallKeeps<F(!new), R(!new)>(apply: (F, nat) -> R, p: Pool<F, R>, f: F, id: nat)
    requires BatchInv(apply, p, f) && Enabled(p, Call(id))
    ensures BatchInv(apply, Step(apply, p, Call(id)), f)
    ensures p.workers[id].pc.fn == Some(f) && p.runs[p.workers[id].pc.job] == 0
  {
    UnpackWorker(apply, p, f, id);
    var q := Step(apply, p, Call(id));
    var mine := p.workers[id].pc.job;
    assert Holds(p.workers[id], mine);
    assert Accounted(apply, p, f, mine);
    ActiveUpdate(p, id, q.workers[id]);
    forall k | 0 <= k < |q.workers| ensures InBatch(q, f, k) {
      assert InBatch(p, f, k);
    }
    forall k | 0 <= k < |p.workers| && k != id ensures !Holds(p.workers[k], mine) {
      OthersHoldNothing(p, id, k, mine);
    }
    hide InBatch, Through, Unfinished;
    forall job | 0 <= job < q.total ensures Accounted(apply, q, f, job) {
      assert Accounted(apply, p, f, job);
      if job != mine && q.runs[job] == 0 && job < q.next {
        var k :| 0 <= k < |p.workers| && Holds(p.workers[k], job);
        assert k != id;
        assert Holds(q.workers[k], job);
      }
    }
  }

  lemma OthersHoldNothing<F, R>(p: Pool<F, R>, id: nat, k: nat, job: nat)
    requires Exclusive(p) && id < |p.workers| && k < |p.workers| && k != id && Holds(p.workers[id], job)
    ensures !Holds(p.workers[k], job)
  {}

  lemma FinishKeeps<F(!new), R(!new)>(apply: (F, nat) -> R, p: Pool<F, R>, f: F, id: nat)
    requires BatchInv(apply, p, f) && Enabled(p, Finish(id))
    ensures BatchInv(apply, Step(apply, p, Finish(id)), f) && p.remaining > 0
  {
    UnpackWorker(apply, p, f, id);
    var q := Step(apply, p, Finish(id));
    ActiveUpdate(p, id, q.workers[id]);
    assert p.remaining > 0 by {
      UnfinishedBounds(p.workers[..p.active], p.generation);
      assert p.workers[..p.active][id] == p.workers[id];
    }
    hide Unfinished;
    forall k | 0 <= k < |q.workers| ensures InBatch(q, f, k) {
      assert InBatch(p, f, k);
    }
    hide InBatch, Through, Unfinished;
    forall job | 0 <= job < q.total ensures Accounted(apply, q, f, job) {
      assert Accounted(apply, p, f, job);
      if q.runs[job] == 0 && job < q.next {
        var k :| 0 <= k < |p.workers| && Holds(p.workers[k], job);
        assert Holds(q.workers[k], job);
      }
    }
  }

  // ---------------------------------------------------------------------------------------------
  // The caller's steps

  /** A new batch starts only when every worker rests, so nothing reads the shared batch while it is set up. */
  lemma SubmitStarts<F(!new), R(!new)>(apply: (F, nat) -> R, p: Pool<F, R>, n: nat, f: F)
    requires Inv(apply, p) && Enabled(p, Submit(n, f))
    ensures Inv(apply, Step(apply, p, Submit(n, f)))
    ensures forall id :: 0 <= id < |p.workers| ==> !Inside(p.workers[id])
  {
    hide BatchInv;
    if n > 0 && p.workers != [] { BatchStarts(apply, p, n, f); }
  }

  lemma BatchStarts<F(!new), R(!new)>(apply: (F, nat) -> R, p: Pool<F, R>, n: nat, f: F)
    requires QuietInv(p) && p.caller.Idle? && n > 0 && p.workers != []
    ensures BatchInv(apply, Step(apply, p, Submit(n, f)), f) && Step(apply, p, Submit(n, f)).remaining > 0
  {
    var q := Step(apply, p, Submit(n, f));
    assert q.remaining == Unfinished(q.workers[..q.active], q.generation) by {
      UnfinishedBounds(q.workers[..q.active], q.generation);
    }
    hide Unfinished;
    forall id | 0 <= id < |q.workers| ensures InBatch(q, f, id) {}
    forall job | 0 <= job < q.total ensures Accounted(apply, q, f, job) {}
  }

  lemma InlineSteps<F(!new), R(!new)>(apply: (F, nat) -> R, p: Pool<F, R>)
    requires Inv(apply, p) && Enabled(p, InlineJob)
    ensures Inv(apply, Step(apply, p, InlineJob))
    ensures Step(apply, p, InlineJob).caller.Idle? ==>
            Complete(apply, Step(apply, p, InlineJob), p.caller.f, p.caller.n)
  {}

  /** When everyone has counted down, every job is done: nobody holds a ticket and none is left to claim. */
  lemma AllThroughIsComplete<F(!new), R(!new)>(apply: (F, nat) -> R, p: Pool<F, R>, f: F)
    requires BatchInv(apply, p, f) && p.remaining == 0
    ensures Complete(apply, p, f, p.total)
    ensures forall id :: 0 <= id < |p.workers| ==> Resting(p.workers[id])
    ensures forall id :: 0 <= id < |p.workers| ==> (p.workers[id].last == p.generation <==> id < p.active)
  {
    UnfinishedBounds(p.workers[..p.active], p.generation);
    forall id | 0 <= id < |p.workers|
      ensures Resting(p.workers[id]) && !p.workers[id].pc.Test? && !p.workers[id].pc.Run?
      ensures p.workers[id].last == p.generation <==> id < p.active
    {
      assert InBatch(p, f, id);
      if id < p.active { assert p.workers[..p.active][id] == p.workers[id]; }
    }
    assert InBatch(p, f, 0) && p.workers[..p.active][0] == p.workers[0];
    forall job | 0 <= job < p.total ensures p.runs[job] == 1 && p.slots[job] == Some(apply(f, job)) {
      assert Accounted(apply, p, f, job);
    }
  }

  lemma CallerCheckSteps<F(!new), R(!new)>(apply: (F, nat) -> R, p: Pool<F, R>)
    requires Inv(apply, p) && Enabled(p, CallerCheck)
    ensures Inv(apply, Step(apply, p, CallerCheck))
    ensures Step(apply, p, CallerCheck).caller.Idle? ==>
            Complete(apply, Step(apply, p, CallerCheck), p.caller.f, p.caller.n)
  {
    var f := p.caller.f;
    if p.remaining == 0 {
      AllThroughIsComplete(apply, p, f);
      forall id | 0 <= id < |p.workers| ensures p.workers[id].last <= p.generation { assert InBatch(p, f, id); }
    } else {
      UnfinishedBounds(p.workers[..p.active], p.generation);
      SameBatch(apply, p, Step(apply, p, CallerCheck), f);
    }
  }

  /** The batch invariant reads neither the caller nor its wakefulness. */
  lemma SameBatch<F(!new), R(!new)>(apply: (F, nat) -> R, p: Pool<F, R>, q: Pool<F, R>, f: F)
    requires BatchInv(apply, p, f) && q == p.(caller := q.caller)
    ensures BatchInv(apply, q, f)
  {
    forall id | 0 <= id < |q.workers| ensures InBatch(q, f, id) { assert InBatch(p, f, id); }
    forall job | 0 <= job < q.total ensures Accounted(apply, q, f, job) { assert Accounted(apply, p, f, job); }
  }

  lemma WorkerSteps<F(!new), R(!new)>(apply: (F, nat) -> R, p: Pool<F, R>, e: Event<F>)
    requires Inv(apply, p) && p.caller.Waiting? && Enabled(p, e)
    requires e.Check? || e.Spurious? || e.Take? || e.Compare? || e.Call? || e.Finish?
    ensures Inv(apply, Step(apply, p, e))
  {
    hide BatchInv;
    var f := p.caller.f;
    match e
    case Check(id) => CheckKeeps(apply, p, f, id); UnpackWorker(apply, p, f, id);
    case Spurious(id) => SpuriousKeeps(apply, p, f, id);
    case Take(id) => TakeKeeps(apply, p, f, id);
    case Compare(id) => CompareKeeps(apply, p, f, id);
    case Call(id) => CallKeeps(apply, p, f, id);
    case Finish(id) => FinishKeeps(apply, p, f, id);
  }

  lemma StopSteps<F(!new), R(!new)>(apply: (F, nat) -> R, p: Pool<F, R>, e: Event<F>)
    requires Inv(apply, p) && (p.caller.Notifying? || p.caller.Joining? || p.caller.Gone?) && Enabled(p, e)
    ensures Inv(apply, Step(apply, p, e))
  {
    if e.NotifyStop? || e.Join? { StopCallerSteps(apply, p, e); } else { StopWorkerSteps(apply, p, e); }
  }

  lemma StopCallerSteps<F(!new), R(!new)>(apply: (F, nat) -> R, p: Pool<F, R>, e: Event<F>)
    requires StopInv(p) && (p.caller.Notifying? || p.caller.Joining?) && Enabled(p, e) && (e.NotifyStop? || e.Join?)
    ensures Inv(apply, Step(apply, p, e))
  {}

  lemma StopWorkerSteps<F(!new), R(!new)>(apply: (F, nat) -> R, p: Pool<F, R>, e: Event<F>)
    requires StopInv(p) && (p.caller.Notifying? || p.caller.Joining? || p.caller.Gone?) && Enabled(p, e)
    requires !e.NotifyStop? && !e.Join?
    ensures Inv(apply, Step(apply, p, e))
  {
    hide InBatch, Accounted;
  }

  lemma QuietSteps<F(!new), R(!new)>(apply: (F, nat) -> R, p: Pool<F, R>, e: Event<F>)
    requires Inv(apply, p) && (p.caller.Idle? || p.caller.Inline?) && Enabled(p, e) && !e.Submit? && !e.InlineJob?
    ensures Inv(apply, Step(apply, p, e))
  {}

  /** Every step of every thread keeps the invariant. */
  lemma StepKeeps<F(!new), R(!new)>(apply: (F, nat) -> R, p: Pool<F, R>, e: Event<F>)
    requires Inv(apply, p) && Enabled(p, e)
    ensures Inv(apply, Step(apply, p, e))
  {
    hide BatchInv, QuietInv, StopInv, InlineInv;
    if p.caller.Waiting? {
      if e.CallerCheck? { CallerCheckSteps(apply, p); }
      else if e.CallerSpurious? { SameBatch(apply, p, Step(apply, p, e), p.caller.f); }
      else { WorkerSteps(apply, p, e); }
    } else if p.caller.Idle? || p.caller.Inline? {
      if e.Submit? { SubmitStarts(apply, p, e.n, e.f); }
      else if e.InlineJob? { InlineSteps(apply, p); }
      else { QuietSteps(apply, p, e); }
    } else {
      StopSteps(apply, p, e);
    }
  }

  // ---------------------------------------------------------------------------------------------
  // Runs

  /** `q` is reached from `p` by the steps `es`, in that order. */
  ghost predicate Path<F(!new), R(!new)>(apply: (F, nat) -> R, p: Pool<F, R>, es: seq<Event<F>>, q: Pool<F, R>)
    decreases |es|
  {
    if es == [] then q == p else Enabled(p, es[0]) && Path(apply, Step(apply, p, es[0]), es[1..], q)
  }

  lemma {:induction false} PathKeeps<F(!new), R(!new)>(apply: (F, nat) -> R, p: Pool<F, R>, es: seq<Event<F>>,
                                                       q: Pool<F, R>)
    requires Inv(apply, p) && Path(apply, p, es, q)
    ensures Inv(apply, q)
    decreases |es|
  {
    if es != [] {
      StepKeeps(apply, p, es[0]);
      PathKeeps(apply, Step(apply, p, es[0]), es[1..], q);
    }
  }

  /** Over every interleaving of any batches from the start: a call that returns has run each job exactly once
      with its own function, and the slots are the sequential map. */
  lemma EveryReturnIsComplete<F(!new), R(!new)>(
      apply: (F, nat) -> R, workers: nat, es: seq<Event<F>>, p: Pool<F, R>, e: Event<F>)
    requires Path(apply, Initial(workers), es, p) && Enabled(p, e)
    requires (p.caller.Waiting? || p.caller.Inline?) && Step(apply, p, e).caller.Idle?
    ensures Complete(apply, Step(apply, p, e), p.caller.f, p.caller.n)
  {
    PathKeeps(apply, Initial(workers), es, p);
    if p.caller.Inline? {
      InlineSteps(apply, p);
    } else {
      CallerCheckSteps(apply, p);
    }
  }

  /** Over every interleaving: a call of the function is by the current batch's function, on a job of the batch
      that has not run. */
  lemma EveryCallIsFresh<F(!new), R(!new)>(
      apply: (F, nat) -> R, workers: nat, es: seq<Event<F>>, p: Pool<F, R>, id: nat)
    requires Path(apply, Initial(workers), es, p) && id < |p.workers| && p.workers[id].pc.Run?
    ensures p.caller.Waiting? && p.workers[id].pc.fn == Some(p.caller.f)
    ensures p.workers[id].pc.job < p.caller.n == |p.runs| && p.runs[p.workers[id].pc.job] == 0
    ensures Enabled(p, Call(id))
  {
    PathKeeps(apply, Initial(workers), es, p);
    assert InBatch(p, p.caller.f, id);
    CallKeeps(apply, p, p.caller.f, id);
  }

  // ---------------------------------------------------------------------------------------------
  // Entering a generation

  /** `es` runs from `p` and the caller is still waiting after each of its steps. */
  ghost predicate Waits<F(!new), R(!new)>(apply: (F, nat) -> R, p: Pool<F, R>, es: seq<Event<F>>)
    decreases |es|
  {
    es == [] ||
      (Enabled(p, es[0]) && Step(apply, p, es[0]).caller.Waiting? && Waits(apply, Step(apply, p, es[0]), es[1..]))
  }

  /** Where the steps `es` lead from `p`. */
  function After<F, R>(apply: (F, nat) -> R, p: Pool<F, R>, es: seq<Event<F>>): Pool<F, R>
    decreases |es|
  {
    if es == [] || !Enabled(p, es[0]) then p else After(apply, Step(apply, p, es[0]), es[1..])
  }

  /** Worker `id` passes its wait and takes up the current generation. */
  predicate Enters<F, R>(p: Pool<F, R>, e: Event<F>, id: nat) {
    e == Check(id) && id < |p.workers| && Ready(p, id) && !p.stop
  }

  /** How often worker `id` enters along `es`. */
  function Entries<F, R>(apply: (F, nat) -> R, p: Pool<F, R>, es: seq<Event<F>>, id: nat): nat
    decreases |es|
  {
    if es == [] || !Enabled(p, es[0]) then 0
    else (if Enters(p, es[0], id) then 1 else 0) + Entries(apply, Step(apply, p, es[0]), es[1..], id)
  }

  /** One step of a running batch: a worker's generation moves exactly when it enters. */
  lemma EnterStep<F(!new), R(!new)>(apply: (F, nat) -> R, p: Pool<F, R>, e: Event<F>, id: nat)
    requires Inv(apply, p) && p.caller.Waiting? && Enabled(p, e) && Step(apply, p, e).caller.Waiting? &&
             id < |p.workers|
    ensures var q := Step(apply, p, e);
            && q.generation == p.generation && q.active == p.active && |q.workers| == |p.workers|
            && p.workers[id].last <= p.generation
            && (Enters(p, e, id) ==> p.workers[id].last < p.generation && q.workers[id].last == p.generation)
            && (!Enters(p, e, id) ==> q.workers[id].last == p.workers[id].last)
            && (e == Check(id) && p.workers[id].last == p.generation ==> q.workers[id].pc.Asleep?)
  {
    hide BatchInv;
    UnpackWorker(apply, p, p.caller.f, id);
  }

  /** Along any part of a batch a worker enters once if it was behind the generation and no longer is, and
      otherwise not at all. */
  lemma {:induction false} EntriesCount<F(!new), R(!new)>(apply: (F, nat) -> R, p: Pool<F, R>, es: seq<Event<F>>,
                                                          id: nat)
    requires Inv(apply, p) && p.caller.Waiting? && Waits(apply, p, es) && id < |p.workers|
    ensures
      var q := After(apply, p, es);
      && Inv(apply, q) && q.caller.Waiting?
      && q.generation == p.generation && q.active == p.active && |q.workers| == |p.workers|
      && (p.workers[id].last == p.generation ==> q.workers[id].last == q.generation)
      && Entries(apply, p, es, id) ==
         (if p.workers[id].last < p.generation && q.workers[id].last == q.generation then 1 else 0)
    decreases |es|
  {
    hide Inv, Enters;
    if es == [] {
    } else {
      StepKeeps(apply, p, es[0]);
      EnterStep(apply, p, es[0], id);
      EntriesCount(apply, Step(apply, p, es[0]), es[1..], id);
    }
  }

  /** Over every batch from any reachable state, whatever the schedule: by the time the call can return, each
      active worker has entered its generation exactly once and no other worker has. */
  lemma EachActiveEntersOnce<F(!new), R(!new)>(
      apply: (F, nat) -> R, workers: nat, before: seq<Event<F>>, idle: Pool<F, R>, n: nat, f: F, es: seq<Event<F>>,
      id: nat)
    requires Path(apply, Initial(workers), before, idle) && idle.caller.Idle?
    requires n > 0 && id < |idle.workers| && Waits(apply, Step(apply, idle, Submit(n, f)), es)
    requires
      var q := After(apply, Step(apply, idle, Submit(n, f)), es);
      Enabled(q, CallerCheck) && Step(apply, q, CallerCheck).caller.Idle?
    ensures Entries(apply, Step(apply, idle, Submit(n, f)), es, id) == if id < n then 1 else 0
  {
    hide BatchInv, Entries, After, Waits, Path;
    PathKeeps(apply, Initial(workers), before, idle);
    SubmitStarts(apply, idle, n, f);
    var p := Step(apply, idle, Submit(n, f));
    EntriesCount(apply, p, es, id);
    var q := After(apply, p, es);
    AllThroughIsComplete(apply, q, q.caller.f);
  }

  // ---------------------------------------------------------------------------------------------
  // Liveness of a batch

  predicate Productive<F>(e: Event<F>) { !e.Spurious? && !e.CallerSpurious? }

  function Rank<F>(w: Worker<F>, active: bool, gen: nat, total: nat): nat {
    match w.pc
    case Head => if active && w.last != gen then 6 else 2
    case Asleep => 1
    case Claim(_) => 5
    case Test(_, job) => if job < total then 7 else 4
    case Run(_, _) => 6
    case Done => 3
    case Exited => 0
  }

  function Ranks<F, R>(p: Pool<F, R>, k: nat): nat
    requires k <= |p.workers|
  {
    if k == 0 then 0 else Ranks(p, k - 1) + Rank(p.workers[k - 1], k - 1 < p.active, p.generation, p.total)
  }

  function Measure<F, R>(p: Pool<F, R>): nat
    requires p.caller.Waiting?
  {
    Ranks(p, |p.workers|) + (if p.next < p.total then 3 * (p.total - p.next) else 0) +
    (if !p.caller.awake then 2 else if p.remaining == 0 then 1 else 3)
  }

  lemma {:induction false} RanksUpdate<F, R>(p: Pool<F, R>, q: Pool<F, R>, id: nat, k: nat)
    requires id < |p.workers| == |q.workers| && k <= |p.workers|
    requires q.active == p.active && q.generation == p.generation && q.total == p.total
    requires forall j :: 0 <= j < |p.workers| && j != id ==> q.workers[j] == p.workers[j]
    ensures Ranks(q, k) == Ranks(p, k) +
      (if id >= k then 0
       else Rank(q.workers[id], id < p.active, p.generation, p.total) -
            Rank(p.workers[id], id < p.active, p.generation, p.total))
  {
    if k > 0 { RanksUpdate(p, q, id, k - 1); }
  }

  function Subject<F>(e: Event<F>): nat
    requires e.Check? || e.Spurious? || e.Take? || e.Compare? || e.Call? || e.Finish?
  {
    e.id
  }

  /** Each productive step of an unfinished batch lowers the measure; a spurious wakeup raises it by at most one. */
  lemma MeasureFalls<F(!new), R(!new)>(apply: (F, nat) -> R, p: Pool<F, R>, e: Event<F>)
    requires Inv(apply, p) && p.caller.Waiting? && Enabled(p, e) && Step(apply, p, e).caller.Waiting?
    ensures Productive(e) ==> Measure(Step(apply, p, e)) < Measure(p)
    ensures !Productive(e) ==> Measure(Step(apply, p, e)) <= Measure(p) + 1
  {
    hide BatchInv;
    var q := Step(apply, p, e);
    if e.CallerCheck? || e.CallerSpurious? {
      SameRanks(p, q, |p.workers|);
      RemainingBounds(apply, p, p.caller.f);
    } else {
      var id := Subject(e);
      UnpackWorker(apply, p, p.caller.f, id);
      if e.Finish? { FinishKeeps(apply, p, p.caller.f, id); }
      WorkerStepFalls(apply, p, e, p.caller.f);
    }
  }

  lemma WorkerStepFalls<F(!new), R(!new)>(apply: (F, nat) -> R, p: Pool<F, R>, e: Event<F>, f: F)
    requires p.caller.Waiting? && !p.stop && Enabled(p, e) && Step(apply, p, e).caller.Waiting?
    requires e.Check? || e.Spurious? || e.Take? || e.Compare? || e.Call? || e.Finish?
    requires InBatch(p, f, Subject(e)) && (e.Finish? ==> p.remaining > 0)
    ensures Productive(e) ==> Measure(Step(apply, p, e)) < Measure(p)
    ensures !Productive(e) ==> Measure(Step(apply, p, e)) <= Measure(p) + 1
  {
    hide Ranks, Holds;
    RanksUpdate(p, Step(apply, p, e), Subject(e), |p.workers|);
  }

  lemma RemainingBounds<F(!new), R(!new)>(apply: (F, nat) -> R, p: Pool<F, R>, f: F)
    requires BatchInv(apply, p, f)
    ensures 0 <= p.remaining <= p.active
  {
    UnfinishedBounds(p.workers[..p.active], p.generation);
  }

  lemma {:induction false} SameRanks<F, R>(p: Pool<F, R>, q: Pool<F, R>, k: nat)
    requires q == p.(caller := q.caller) && k <= |p.workers|
    ensures Ranks(q, k) == Ranks(p, k)
  {
    if k > 0 { SameRanks(p, q, k - 1); }
  }

  /** No deadlock and no lost wakeup: while a batch is unfinished some thread can take a productive step. */
  lemma SomeoneCanStep<F(!new), R(!new)>(apply: (F, nat) -> R, p: Pool<F, R>) returns (e: Event<F>)
    requires Inv(apply, p) && p.caller.Waiting?
    ensures Enabled(p, e) && Productive(e)
  {
    if id: nat :| id < |p.workers| && !p.workers[id].pc.Asleep? {
      UnpackWorker(apply, p, p.caller.f, id);
      e := match p.workers[id].pc
           case Head => Check(id)
           case Claim(_) => Take(id)
           case Test(_, _) => Compare(id)
           case Run(_, _) => Call(id)
           case _ => Finish(id);
    } else {
      forall id | 0 <= id < p.active ensures Through(p.workers[..p.active][id], p.generation) {
        assert InBatch(p, p.caller.f, id);
      }
      UnfinishedBounds(p.workers[..p.active], p.generation);
      e := CallerCheck;
    }
  }

  /** Every unfinished batch can be driven to its return, and it returns complete. */
  lemma {:induction false} BatchReturns<F(!new), R(!new)>(apply: (F, nat) -> R, p: Pool<F, R>)
      returns (es: seq<Event<F>>, q: Pool<F, R>)
    requires Inv(apply, p) && p.caller.Waiting?
    ensures Path(apply, p, es, q) && q.caller.Idle? && Complete(apply, q, p.caller.f, p.caller.n)
    ensures |es| <= Measure(p)
    decreases Measure(p)
  {
    hide Inv, Complete, Measure;
    var e := SomeoneCanStep(apply, p);
    var next := Step(apply, p, e);
    StepKeeps(apply, p, e);
    WaitingStays(apply, p, e);
    if next.caller.Idle? {
      CallerCheckSteps(apply, p);
      es, q := [e], next;
      assert Path(apply, next, [], q);
      MeasurePositive(p);
    } else {
      MeasureFalls(apply, p, e);
      var rest, end := BatchReturns(apply, next);
      es, q := [e] + rest, end;
      assert es[1..] == rest;
    }
  }

  lemma MeasurePositive<F, R>(p: Pool<F, R>)
    requires p.caller.Waiting?
    ensures Measure(p) >= 1
  {}

  /** A waiting caller goes on waiting for the same batch until its own check lets it return. */
  lemma WaitingStays<F(!new), R(!new)>(apply: (F, nat) -> R, p: Pool<F, R>, e: Event<F>)
    requires p.caller.Waiting? && Enabled(p, e)
    ensures var c := Step(apply, p, e).caller; c.Waiting? ==>
            c.f == p.caller.f && c.n == p.caller.n && c.gen == p.caller.gen
    ensures !Step(apply, p, e).caller.Waiting? ==> e.CallerCheck? && Step(apply, p, e).caller.Idle?
  {}

  function CountProductive<F>(es: seq<Event<F>>): nat {
    if es == [] then 0 else (if Productive(es[0]) then 1 else 0) + CountProductive(es[1..])
  }

  /** No schedule keeps a batch going for longer than its measure, however the steps interleave, but for one
      extra step per spurious wakeup. */
  lemma {:induction false} NoScheduleStalls<F(!new), R(!new)>(apply: (F, nat) -> R, p: Pool<F, R>, es: seq<Event<F>>)
    requires Inv(apply, p) && p.caller.Waiting? && Waits(apply, p, es)
    ensures CountProductive(es) <= Measure(p) + (|es| - CountProductive(es))
    decreases |es|
  {
    hide Inv, Measure;
    if es != [] {
      StepKeeps(apply, p, es[0]);
      MeasureFalls(apply, p, es[0]);
      NoScheduleStalls(apply, Step(apply, p, es[0]), es[1..]);
    }
  }

  // ---------------------------------------------------------------------------------------------
  // The destructor

  function StopRanks<F>(ws: seq<Worker<F>>): nat {
    if ws == [] then 0
    else StopRanks(ws[..|ws| - 1]) + (match ws[|ws| - 1].pc case Exited => 0 case Asleep => 2 case _ => 1)
  }

  predicate Stopping<F, R>(p: Pool<F, R>) { p.caller.Notifying? || p.caller.Joining? || p.caller.Gone? }

  function StopMeasure<F, R>(p: Pool<F, R>): int
    requires Stopping(p)
  {
    var n := |p.workers|;
    StopRanks(p.workers) +
    (match p.caller case Notifying(k) => 2 * n + 3 - k case Joining(k) => n + 1 - k case _ => 0)
  }

  lemma {:induction false} StopRanksUpdate<F>(ws: seq<Worker<F>>, id: nat, w: Worker<F>)
    requires id < |ws|
    ensures StopRanks(ws[id := w]) == StopRanks(ws)
      + (match w.pc case Exited => 0 case Asleep => 2 case _ => 1) -
        (match ws[id].pc case Exited => 0 case Asleep => 2 case _ => 1)
    decreases |ws|
  {
    var n := |ws| - 1;
    if id < n {
      StopRanksUpdate(ws[..n], id, w);
      assert ws[id := w][..n] == ws[..n][id := w];
    } else {
      assert ws[id := w][..n] == ws[..n];
    }
  }

  /** After stop, every step of any thread, spurious wakeups included, lowers the stop measure, and there is a
      step to take until every worker has exited and been joined. */
  lemma StopTerminates<F(!new), R(!new)>(apply: (F, nat) -> R, p: Pool<F, R>)
    requires Inv(apply, p) && Stopping(p)
    ensures StopMeasure(p) >= 0
    ensures forall e :: Enabled(p, e) ==> Stopping(Step(apply, p, e)) && StopMeasure(Step(apply, p, e)) < StopMeasure(p)
    ensures p.caller.Gone? ==> forall id :: 0 <= id < |p.workers| ==> p.workers[id].pc.Exited?
    ensures !p.caller.Gone? ==> exists e :: Enabled(p, e)
  {
    forall e | Enabled(p, e) ensures Stopping(Step(apply, p, e)) && StopMeasure(Step(apply, p, e)) < StopMeasure(p) {
      StopStepFalls(apply, p, e);
    }
    match p.caller {
      case Notifying(_) => assert Enabled(p, NotifyStop);
      case Joining(k) =>
        if k < |p.workers| && !p.workers[k].pc.Exited? {
          assert Enabled(p, Check(k));
        } else {
          assert Enabled(p, Join);
        }
      case _ =>
    }
  }

  lemma StopStepFalls<F(!new), R(!new)>(apply: (F, nat) -> R, p: Pool<F, R>, e: Event<F>)
    requires Inv(apply, p) && Stopping(p) && Enabled(p, e)
    ensures Stopping(Step(apply, p, e)) && StopMeasure(Step(apply, p, e)) < StopMeasure(p)
  {
    match e {
      case Check(id) => StopRanksUpdate(p.workers, id, p.workers[id].(pc := Exited));
      case Spurious(id) => StopRanksUpdate(p.workers, id, p.workers[id].(pc := Head));
      case NotifyStop =>
        if p.caller.k < |p.workers| { StopRanksUpdate(p.workers, p.caller.k, Wake(p.workers[p.caller.k])); }
      case _ =>
    }
  }

  /** The destructor returns: from any point of it every worker can be driven to exit and be joined. */
  lemma {:induction false} DestructorReturns<F(!new), R(!new)>(apply: (F, nat) -> R, p: Pool<F, R>)
      returns (es: seq<Event<F>>, q: Pool<F, R>)
    requires Inv(apply, p) && Stopping(p)
    ensures Path(apply, p, es, q) && q.caller.Gone? && forall id :: 0 <= id < |q.workers| ==> q.workers[id].pc.Exited?
    decreases StopMeasure(p)
  {
    StopTerminates(apply, p);
    if p.caller.Gone? {
      es, q := [], p;
    } else {
      var e :| Enabled(p, e);
      StepKeeps(apply, p, e);
      var rest, end := DestructorReturns(apply, Step(apply, p, e));
      es, q := [e] + rest, end;
      assert es[1..] == rest;
    }
  }
}
