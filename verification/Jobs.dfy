/** The background location job: coalesced starts, one worker, no lost request (src/app_state.rs). */
module Jobs {
  import opened Base

  datatype Status = Idle | Queued(id: nat) | Running(id: nat) | Completed(id: nat) | Failed(id: nat)
  {
    predicate Active() { Queued? || Running? }
  }

  datatype JobState = JobState(nextId: nat, status: Status, rerun: bool)

  /** `start`, under the lock: the new state, and the id of the worker to spawn, if any. */
  function StartJob(s: JobState): (JobState, Option<nat>) {
    if s.status.Active() then (s.(rerun := s.rerun || s.status.Running?), None)
    else (JobState(s.nextId + 1, Queued(s.nextId + 1), false), Some(s.nextId + 1))
  }

  /** The worker announces a pass. */
  function BeginPass(s: JobState, id: nat): JobState { s.(status := Running(id)) }

  /** The worker takes the lock after a pass: go round again, or end. */
  function FinishPass(s: JobState, id: nat, ok: bool): (JobState, bool) {
    if s.rerun then (s.(rerun := false), true)
    else (s.(status := if ok then Completed(id) else Failed(id)), false)
  }

  class LocationJobs {
    var nextId: nat
    var status: Status
    var rerun: bool

    function State(): JobState
      reads this
    {
      JobState(nextId, status, rerun)
    }

    constructor ()
      ensures State() == JobState(0, Idle, false)
    {
      nextId, status, rerun := 0, Idle, false;
    }

    /** Returns the id of the worker to spawn; none when a job is under way. */
    method Start() returns (spawned: Option<nat>)
      modifies this
      ensures (State(), spawned) == StartJob(old(State()))
      ensures spawned.None? <==> old(status.Queued? || status.Running?)
      ensures spawned.None? ==> status == old(status) && nextId == old(nextId)
      ensures spawned.None? ==> (rerun <==> old(rerun || status.Running?))
      ensures spawned.Some? ==>
        spawned.value == nextId == old(nextId) + 1 && status == Queued(spawned.value) && !rerun
    {
      if status.Active() {
        if status.Running? {
          rerun := true;
        }
        return None;
      }
      nextId := nextId + 1;
      rerun := false;
      status := Queued(nextId);
      return Some(nextId);
    }

    method Begin(id: nat)
      modifies this
      ensures State() == BeginPass(old(State()), id)
    {
      status := Running(id);
    }

    method Finish(id: nat, ok: bool) returns (again: bool)
      modifies this
      ensures (State(), again) == FinishPass(old(State()), id, ok)
      ensures again <==> old(rerun)
      ensures again ==> !rerun && status == old(status)
      ensures !again && ok ==> status == Completed(id)
      ensures !again && !ok ==> status == Failed(id)
      ensures nextId == old(nextId)
    {
      if rerun {
        rerun := false;
        return true;
      }
      status := if ok then Completed(id) else Failed(id);
      return false;
    }
  }

  // ---------- The protocol ----------

  /** Where a worker is in its loop: before announcing, between announcing and matching, after matching. */
  datatype Pc = Top | Matching | Matched(ok: bool)

  datatype Worker = Worker(id: nat, pc: Pc)

  /** `writes` fence writes so far; those in `uncalled` have not been followed by their `start` yet.
      `covered` writes came before the latest pass, which went as `lastOk` says. */
  datatype Protocol = Protocol(
    job: JobState, workers: seq<Worker>, writes: nat, uncalled: set<nat>, covered: nat, lastOk: bool)

  datatype Action = Write | Call(after: Option<nat>) | Begin(i: nat) | Pass(i: nat, ok: bool) | Finish(i: nat)

  predicate Enabled(p: Protocol, a: Action) {
    match a
    case Write => true
    case Call(after) => after.Some? ==> after.value in p.uncalled
    case Begin(i) => i < |p.workers| && p.workers[i].pc == Top
    case Pass(i, _) => i < |p.workers| && p.workers[i].pc == Matching
    case Finish(i) => i < |p.workers| && p.workers[i].pc.Matched?
  }

  function Act(p: Protocol, a: Action): Protocol
    requires Enabled(p, a)
  {
    match a
    case Write => p.(writes := p.writes + 1, uncalled := p.uncalled + {p.writes})
    case Call(after) =>
      var (job, spawned) := StartJob(p.job);
      p.(job := job,
         workers := if spawned.Some? then p.workers + [Worker(spawned.value, Top)] else p.workers,
         uncalled := if after.Some? then p.uncalled - {after.value} else p.uncalled)
    case Begin(i) =>
      p.(job := BeginPass(p.job, p.workers[i].id), workers := p.workers[i := p.workers[i].(pc := Matching)])
    case Pass(i, ok) =>
      p.(workers := p.workers[i := p.workers[i].(pc := Matched(ok))], covered := p.writes, lastOk := ok)
    case Finish(i) =>
      var w := p.workers[i];
      var (job, again) := FinishPass(p.job, w.id, w.pc.ok);
      p.(job := job,
         workers := if again then p.workers[i := w.(pc := Top)] else p.workers[..i] + p.workers[i + 1..])
  }

  /** At most one worker, exactly while the job is active, and it carries the job's id. */
  predicate OneWorker(p: Protocol) {
    if p.job.status.Active()
    then |p.workers| == 1 && p.workers[0].id == p.job.status.id
    else |p.workers| == 0
  }

  /** A pass that has not begun yet is bound to come from the one worker. */
  predicate PassToCome(p: Protocol) {
    p.workers != [] && (!p.workers[0].pc.Matched? || p.job.rerun)
  }

  /** A write whose start was called came before the latest pass, or a pass is still to come. */
  ghost predicate Covered(p: Protocol, w: nat) {
    w < p.writes && w !in p.uncalled ==> w < p.covered || PassToCome(p)
  }

  ghost predicate ProtocolOk(p: Protocol) {
    && OneWorker(p)
    && (p.job.status.Queued? ==> p.workers[0].pc == Top && !p.job.rerun)
    && (p.workers != [] && p.workers[0].pc != Top ==> p.job.status.Running?)
    && (p.workers == [] ==> !p.job.rerun)
    && p.covered <= p.writes
    && (forall w :: w in p.uncalled ==> w < p.writes)
    && (forall w: nat :: Covered(p, w))
    && (p.workers != [] && p.workers[0].pc.Matched? ==> p.lastOk == p.workers[0].pc.ok)
    && TerminalOk(p)
  }

  /** A job that has ended says how its last pass went, under the id of the last worker spawned. */
  predicate TerminalOk(p: Protocol) {
    && (p.job.status != Idle ==> p.job.status.id == p.job.nextId)
    && (p.job.status != Idle && !p.job.status.Active() ==> (p.job.status.Completed? <==> p.lastOk))
  }

  lemma ActKeepsProtocol(p: Protocol, a: Action)
    requires ProtocolOk(p) && Enabled(p, a)
    ensures ProtocolOk(Act(p, a))
  {
    var after := Act(p, a);
    forall w: nat ensures Covered(after, w) {
      assert Covered(p, w);
    }
  }

  ghost predicate IsRun(ps: seq<Protocol>, actions: seq<Action>) {
    |ps| == |actions| + 1 &&
    forall i :: 0 <= i < |actions| ==> Enabled(ps[i], actions[i]) && ps[i + 1] == Act(ps[i], actions[i])
  }

  const START := Protocol(JobState(0, Idle, false), [], 0, {}, 0, false)

  lemma {:induction false} RunsKeepProtocol(ps: seq<Protocol>, actions: seq<Action>, k: nat)
    requires IsRun(ps, actions) && k <= |actions| && ProtocolOk(ps[0])
    ensures ProtocolOk(ps[k])
  {
    hide ProtocolOk;
    if k > 0 {
      RunsKeepProtocol(ps, actions, k - 1);
      ActKeepsProtocol(ps[k - 1], actions[k - 1]);
    }
  }

  /** In every state of every run a job that is neither idle nor active is completed exactly when its last pass
      succeeded, failed exactly when it did not, and carries the id of the last worker. */
  lemma TerminalStatusIsTheLastPass(ps: seq<Protocol>, actions: seq<Action>, k: nat)
    requires IsRun(ps, actions) && k <= |actions| && ps[0] == START
    requires ps[k].job.status != Idle && !ps[k].job.status.Active()
    ensures ps[k].job.status.Completed? <==> ps[k].lastOk
    ensures ps[k].job.status.Failed? <==> !ps[k].lastOk
    ensures ps[k].job.status.id == ps[k].job.nextId
  {
    RunsKeepProtocol(ps, actions, k);
  }

  /** The job loses no request: once the status is terminal every write with its start came before the last
      pass; and if the job completed, that pass succeeded. */
  lemma NoRequestIsLost(ps: seq<Protocol>, actions: seq<Action>, k: nat, w: nat)
    requires IsRun(ps, actions) && k <= |actions| && ps[0] == START
    requires !ps[k].job.status.Active()
    requires w < ps[k].writes && w !in ps[k].uncalled
    ensures w < ps[k].covered && ps[k].workers == []
    ensures ps[k].job.status.Completed? ==> ps[k].lastOk
  {
    RunsKeepProtocol(ps, actions, k);
    assert Covered(ps[k], w);
  }

  // ---------- How much work is left ----------

  /** Passes the worker will still make if no one calls `start` again. */
  function PassesLeft(p: Protocol): nat {
    if p.workers == [] then 0
    else (if p.workers[0].pc.Matched? then 0 else 1) + (if p.job.rerun then 1 else 0)
  }

  function StepsLeft(p: Protocol): nat {
    if p.workers == [] then 0
    else (match p.workers[0].pc case Top => 3 case Matching => 2 case Matched(_) => 1) + (if p.job.rerun then 3 else 0)
  }

  function CountPasses(actions: seq<Action>): nat {
    if actions == [] then 0
    else (if actions[|actions| - 1].Pass? then 1 else 0) + CountPasses(actions[..|actions| - 1])
  }

  lemma OneActionOfWork(p: Protocol, a: Action)
    requires ProtocolOk(p) && Enabled(p, a) && !a.Call?
    ensures PassesLeft(Act(p, a)) + (if a.Pass? then 1 else 0) == PassesLeft(p)
    ensures StepsLeft(Act(p, a)) + (if a.Write? then 0 else 1) == StepsLeft(p)
    ensures p.workers != [] ==> exists b: Action :: !b.Call? && !b.Write? && Enabled(p, b)
  {
    if p.workers != [] {
      var b := match p.workers[0].pc case Top => Begin(0) case Matching => Pass(0, true) case Matched(_) => Finish(0);
      assert Enabled(p, b);
    }
  }

  /** Once calls stop, the passes made are exactly those left at that moment less those left now: the current
      one and at most one more. */
  lemma {:induction false} AtMostOneFurtherPass(ps: seq<Protocol>, actions: seq<Action>)
    requires IsRun(ps, actions) && ProtocolOk(ps[0])
    requires forall i :: 0 <= i < |actions| ==> !actions[i].Call?
    ensures CountPasses(actions) + PassesLeft(ps[|actions|]) == PassesLeft(ps[0]) <= 2
    ensures ps[0].workers != [] && ps[0].workers[0].pc.Matched? ==> CountPasses(actions) <= 1
  {
    hide ProtocolOk;
    if actions != [] {
      var n := |actions| - 1;
      assert IsRun(ps[..n + 1], actions[..n]);
      AtMostOneFurtherPass(ps[..n + 1], actions[..n]);
      RunsKeepProtocol(ps, actions, n);
      OneActionOfWork(ps[n], actions[n]);
    }
  }

  // ---------- The job completes ----------

  /** No call, and every pass succeeds. */
  predicate Succeeds(a: Action) {
    !a.Call? && (a.Pass? ==> a.ok)
  }

  predicate AllSucceed(actions: seq<Action>) {
    forall i :: 0 <= i < |actions| ==> Succeeds(actions[i])
  }

  /** A pass that succeeds is still to be made, or was the last one made. */
  predicate EndsWell(p: Protocol) {
    p.workers != [] && (PassesLeft(p) > 0 || p.lastOk)
  }

  lemma SuccessGoesOn(p: Protocol, a: Action)
    requires ProtocolOk(p) && EndsWell(p) && Enabled(p, a) && Succeeds(a)
    ensures EndsWell(Act(p, a)) || Act(p, a).job.status.Completed?
  {
  }

  /** Once calls stop and every pass still made succeeds, a worker that is at work ends the job completed. */
  lemma {:induction false} WorkersEndCompleted(ps: seq<Protocol>, actions: seq<Action>)
    requires IsRun(ps, actions) && ProtocolOk(ps[0]) && EndsWell(ps[0])
    requires AllSucceed(actions)
    ensures EndsWell(ps[|actions|]) || ps[|actions|].job.status.Completed?
    ensures ps[|actions|].workers == [] ==> ps[|actions|].job.status.Completed?
  {
    hide ProtocolOk, EndsWell, Act, Enabled;
    var n := |actions|;
    RunsKeepProtocol(ps, actions, n);
    if n > 0 {
      assert IsRun(ps[..n], actions[..n - 1]);
      WorkersEndCompleted(ps[..n], actions[..n - 1]);
      RunsKeepProtocol(ps, actions, n - 1);
      if ps[n - 1].job.status.Completed? {
        CompletedStays(ps[n - 1], actions[n - 1]);
      } else {
        SuccessGoesOn(ps[n - 1], actions[n - 1]);
      }
    }
    EndedIsNotAtWork(ps[n]);
  }

  lemma CompletedStays(p: Protocol, a: Action)
    requires ProtocolOk(p) && p.job.status.Completed? && Enabled(p, a) && !a.Call?
    ensures Act(p, a).job.status.Completed?
  {
  }

  lemma EndedIsNotAtWork(p: Protocol)
    ensures p.workers == [] ==> !EndsWell(p)
  {
  }

  /** What the worker does next, when its passes succeed. */
  function NextOfWorker(p: Protocol): (a: Action)
    requires p.workers != []
    ensures Enabled(p, a) && Succeeds(a) && !a.Write?
  {
    match p.workers[0].pc case Top => Begin(0) case Matching => Pass(0, true) case Matched(_) => Finish(0)
  }

  /** All it has left to do. */
  function RestOfWorker(p: Protocol): (actions: seq<Action>)
    requires ProtocolOk(p)
    ensures |actions| == StepsLeft(p) && forall i :: 0 <= i < |actions| ==> Succeeds(actions[i]) && !actions[i].Write?
    decreases StepsLeft(p)
  {
    if p.workers == [] then []
    else
      var a := NextOfWorker(p);
      ActKeepsProtocol(p, a);
      OneActionOfWork(p, a);
      [a] + RestOfWorker(Act(p, a))
  }

  /** The states it passes through. */
  function RestOfStates(p: Protocol): (ps: seq<Protocol>)
    requires ProtocolOk(p)
    ensures |ps| == StepsLeft(p) + 1 && ps[0] == p
    decreases StepsLeft(p)
  {
    if p.workers == [] then [p]
    else
      ActKeepsProtocol(p, NextOfWorker(p));
      OneActionOfWork(p, NextOfWorker(p));
      [p] + RestOfStates(Act(p, NextOfWorker(p)))
  }

  /** From every state of the protocol the worker's remaining actions are a run, of at most six, that ends with no
      worker; with a worker that ends well it ends completed, and no write is lost sight of. */
  lemma {:induction false} TheWorkerEnds(p: Protocol)
    requires ProtocolOk(p)
    ensures var ps, actions := RestOfStates(p), RestOfWorker(p);
            && IsRun(ps, actions) && |actions| <= 6
            && ps[|actions|].workers == [] && !ps[|actions|].job.status.Active()
            && ps[|actions|].writes == p.writes && ps[|actions|].uncalled == p.uncalled
            && (EndsWell(p) ==> ps[|actions|].job.status.Completed?)
    decreases StepsLeft(p)
  {
    if p.workers != [] {
      var a := NextOfWorker(p);
      ActKeepsProtocol(p, a);
      OneActionOfWork(p, a);
      TheWorkerEnds(Act(p, a));
    }
  }

  // ---------- The job itself ----------

  /** The actions can happen in this order. */
  ghost predicate CanRun(p: Protocol, actions: seq<Action>)
    decreases |actions|
  {
    actions != [] ==> Enabled(p, actions[0]) && CanRun(Act(p, actions[0]), actions[1..])
  }

  /** One action on the job: a call may add a worker, and a worker that ends leaves. */
  method Perform(jobs: LocationJobs, workers: seq<Worker>, ghost p: Protocol, a: Action) returns (now: seq<Worker>)
    requires Enabled(p, a) && p.job == jobs.State() && p.workers == workers
    modifies jobs
    ensures Act(p, a).job == jobs.State() && Act(p, a).workers == now
  {
    match a {
      case Write => now := workers;
      case Call(_) =>
        var spawned := jobs.Start();
        now := if spawned.Some? then workers + [Worker(spawned.value, Top)] else workers;
      case Begin(i) =>
        jobs.Begin(workers[i].id);
        now := workers[i := workers[i].(pc := Matching)];
      case Pass(i, ok) => now := workers[i := workers[i].(pc := Matched(ok))];
      case Finish(i) =>
        var again := jobs.Finish(workers[i].id, workers[i].pc.ok);
        now := if again then workers[i := workers[i].(pc := Top)] else workers[..i] + workers[i + 1..];
    }
  }

  /** Any interleaving of writes, calls and workers on a fresh job is a run of the protocol: at most one worker, and
      with a terminal status no write that was called for is left unmatched. */
  method Run(jobs: LocationJobs, actions: seq<Action>) returns (workers: seq<Worker>, ghost ps: seq<Protocol>)
    requires jobs.State() == START.job && CanRun(START, actions)
    modifies jobs
    ensures IsRun(ps, actions) && ps[0] == START
    ensures ps[|actions|].job == jobs.State() && ps[|actions|].workers == workers
    ensures |workers| == if jobs.status.Active() then 1 else 0
    ensures !jobs.status.Active() ==>
      forall w: nat :: w < ps[|actions|].writes && w !in ps[|actions|].uncalled ==> w < ps[|actions|].covered
    ensures jobs.status != Idle && !jobs.status.Active() ==> (jobs.status.Completed? <==> ps[|actions|].lastOk)
    ensures workers == [] ==>
      forall k: nat :: k <= |actions| && EndsWell(ps[k]) && AllSucceed(actions[k..]) ==> jobs.status.Completed?
  {
    hide Act, Enabled;
    workers, ps := [], [START];
    for k := 0 to |actions|
      invariant |ps| == k + 1 && ps[0] == START && IsRun(ps, actions[..k]) && CanRun(ps[k], actions[k..])
      invariant ps[k].job == jobs.State() && ps[k].workers == workers
    {
      workers := Perform(jobs, workers, ps[k], actions[k]);
      ps := ps + [Act(ps[k], actions[k])];
      assert actions[k..][1..] == actions[k + 1..];
    }
    assert actions[..|actions|] == actions;
    RunsKeepProtocol(ps, actions, |actions|);
    assert ProtocolOk(ps[|actions|]);
    forall w: nat | !jobs.status.Active() && w < ps[|actions|].writes && w !in ps[|actions|].uncalled
      ensures w < ps[|actions|].covered
    {
      NoRequestIsLost(ps, actions, |actions|, w);
    }
    forall k: nat | k <= |actions| && EndsWell(ps[k]) && AllSucceed(actions[k..]) && workers == []
      ensures jobs.status.Completed?
    {
      RunsKeepProtocol(ps, actions, k);
      assert IsRun(ps[k..], actions[k..]);
      WorkersEndCompleted(ps[k..], actions[k..]);
    }
  }
}
