/** Eventual agreement: once no call is half done and no task is left, every tracked service was last
    handed exactly what the repository holds for each of its PIDs. */
module Agreement {
  import opened Repository
  import opened Engine
  import opened Protocol
  import opened FactoryIndex

  // ---- what is still on its way --------------------------------------------------------------

  /** A notification of this count is waiting in the queue or about to be posted. */
  ghost predicate Announced(s: State, pid: string, count: nat) {
    || (exists x :: x in s.queue && x.task == Announce(pid, count))
    || (exists t :: t in s.calls && Promises(s.calls[t], pid, count))
  }

  predicate Promises(call: Call, pid: string, count: nat) {
    call.Finishing? && Announce(pid, count) in call.posts
  }

  ghost predicate Promised(s: State, pid: string) {
    exists t, n: nat :: t in s.calls && Promises(s.calls[t], pid, n)
  }

  /** Between its two critical sections, on an object that still has its back pointer: otherwise nothing
      will be announced. */
  ghost predicate UpdateUnderWay(s: State, t: nat, pid: string) {
    && t in s.calls && s.calls[t].Updating? && s.calls[t].id < |s.repo.objects|
    && s.repo.objects[s.calls[t].id].pid == pid && s.repo.objects[s.calls[t].id].attached
  }

  predicate WorkerOn(s: State, pid: string) {
    s.worker.Busy? && s.worker.job.Notify? && s.worker.job.pid == pid
  }

  predicate WorkerTells(s: State, k: nat, pid: string) {
    WorkerOn(s, pid) && k in s.worker.job.audience
  }

  predicate WorkerHands(s: State, k: nat, pid: string) {
    s.worker.Busy? && s.worker.job.Hand? && s.worker.job.service == k && pid in s.worker.job.updates
  }

  predicate IsHand(x: Posted, k: nat, pid: string) {
    x.task.HandOver? && x.task.service == k && pid in x.task.updates
  }

  predicate IsNews(x: Posted, pid: string) {
    x.task.Announce? && x.task.pid == pid
  }

  /** Nothing about this PID is on its way. */
  ghost predicate Quiet(s: State, pid: string) {
    && (forall c: nat :: !Announced(s, pid, c))
    && !WorkerOn(s, pid)
    && (forall t :: !UpdateUnderWay(s, t, pid))
  }

  // ---- the condition on runs -----------------------------------------------------------------

  /** Creating an object under this PID does not overtake the removal of an earlier one. */
  ghost predicate FreeToCreate(s: State, pid: string)
    requires Wired(s.repo)
  {
    if pid in s.repo.configurations then !MappedRemoved(s.repo, pid) else Quiet(s, pid)
  }

  ghost predicate CreatesQuietly(s: State, a: Act)
    requires Wired(s.repo)
  {
    match a
    case GetConfiguration(pid) => pid in s.repo.configurations || Quiet(s, pid)
    case CreateFactoryConfiguration(f, name) =>
      f + "~" + name in s.repo.configurations || ('~' !in f && Quiet(s, f + "~" + name))
    case AddConfigurations(t, metadata) => t !in s.calls ==> forall m :: m in metadata ==> FreeToCreate(s, m.pid)
    case _ => true
  }

  ghost predicate QuietRun(acts: seq<Act>) {
    forall i :: 0 <= i < |acts| ==> CreatesQuietly(Run(INIT, acts[..i]), acts[i])
  }

  // ---- the invariant -------------------------------------------------------------------------

  predicate Alive(s: State, pid: string)
    requires Wired(s.repo)
  {
    pid in s.repo.configurations && !s.repo.objects[s.repo.configurations[pid]].removed
  }

  function Object(s: State, pid: string): Config
    requires Wired(s.repo) && pid in s.repo.configurations
  {
    s.repo.objects[s.repo.configurations[pid]]
  }

  /** A snapshot is no newer than the object, and if it is as new, it shows the same properties. */
  predicate Fits(snapshot: Snapshot, c: Config) {
    snapshot.version <= c.changeCount && (snapshot.version == c.changeCount ==> snapshot.properties == c.properties)
  }

  /** Nothing is on its way about an object that was never updated, and what is on its way about a
      live one is about the object that is mapped now. */
  ghost predicate PidSound(s: State, pid: string)
    requires Wired(s.repo)
  {
    pid in s.repo.configurations ==>
      var c := Object(s, pid);
      && (c.changeCount == 0 ==> Quiet(s, pid))
      && (!c.removed && c.changeCount > 0 ==>
            && (forall n: nat :: Announced(s, pid, n) ==> n <= c.changeCount)
            && (forall t :: UpdateUnderWay(s, t, pid) ==> s.calls[t].id == s.repo.configurations[pid])
            && (WorkerOn(s, pid) ==>
                  var job := s.worker.job;
                  !job.removed && job.changeCount <= job.snapshot.version && Fits(job.snapshot, c)))
  }

  /** The current count is still to reach the service. */
  ghost predicate Coming(s: State, k: nat, pid: string)
    requires Wired(s.repo) && pid in s.repo.configurations
  {
    var n := Object(s, pid).changeCount;
    || Announced(s, pid, n)
    || (exists t :: UpdateUnderWay(s, t, pid))
    || (WorkerTells(s, k, pid) && s.worker.job.changeCount == n)
  }

  ghost predicate HandWaits(s: State, k: nat, pid: string) {
    (exists x :: x in s.queue && IsHand(x, k, pid)) || WorkerHands(s, k, pid)
  }

  /** A first hand-over still waiting shows what the service's count says, and no notification
      ahead of it is newer. */
  ghost predicate HandFits(s: State, k: nat, pid: string)
    requires Wired(s.repo) && pid in s.repo.configurations && k in s.services
  {
    var last, c := LastCount(s.services[k], pid), Object(s, pid);
    && (forall x :: x in s.queue && IsHand(x, k, pid) ==>
          && x.task.updates[pid].version == last && Fits(x.task.updates[pid], c)
          && (WorkerTells(s, k, pid) ==> s.worker.job.changeCount <= last)
          && (forall y :: y in s.queue && IsNews(y, pid) && y.id < x.id ==> y.task.changeCount <= last))
    && (WorkerHands(s, k, pid) ==>
          s.worker.job.updates[pid].version == last && Fits(s.worker.job.updates[pid], c))
  }

  /** With no hand-over waiting, the service was handed something at least as new as its count. */
  ghost predicate HandedFits(s: State, k: nat, pid: string)
    requires Wired(s.repo) && pid in s.repo.configurations && k in s.services
  {
    var w := s.services[k];
    !HandWaits(s, k, pid) && LastCount(w, pid) > 0 ==>
      && pid in w.handed && w.handed[pid].Updated? && LastCount(w, pid) <= w.handed[pid].version
      && Fits(Snapshot(w.handed[pid].properties, w.handed[pid].version), Object(s, pid))
  }

  ghost predicate Current(s: State, k: nat, pid: string)
    requires Wired(s.repo) && pid in s.repo.configurations && k in s.services
  {
    && LastCount(s.services[k], pid) <= Object(s, pid).changeCount
    && (LastCount(s.services[k], pid) == Object(s, pid).changeCount || Coming(s, k, pid))
    && HandFits(s, k, pid)
    && HandedFits(s, k, pid)
  }

  /** The service knows of nothing under this PID, and nothing on its way will change that. */
  ghost predicate Settled(s: State, k: nat, pid: string)
    requires k in s.services
  {
    var w := s.services[k];
    && (pid in w.handed ==> w.handed[pid] == RemovalNotice(w.kind))
    && LastCount(w, pid) == 0
    && !HandWaits(s, k, pid)
    && (WorkerTells(s, k, pid) ==> s.worker.job.removed)
  }

  /** A removal notice will reach the service after everything else about this PID. */
  ghost predicate RemovalComing(s: State, k: nat, pid: string)
    requires Wired(s.repo)
  {
    || (MappedRemoved(s.repo, pid) && Object(s, pid).changeCount > 0)
    || Promised(s, pid)
    || (exists x :: x in s.queue && IsNews(x, pid) && forall y :: y in s.queue && IsHand(y, k, pid) ==> y.id < x.id)
    || (WorkerTells(s, k, pid) && s.worker.job.removed && forall y :: y in s.queue ==> !IsHand(y, k, pid))
  }

  ghost predicate Agrees(s: State, k: nat, pid: string)
    requires Wired(s.repo) && k in s.services
  {
    if Alive(s, pid) && Object(s, pid).changeCount > 0
    then Current(s, k, pid)
    else Settled(s, k, pid) || RemovalComing(s, k, pid)
  }

  /** Service keys are handed out once. */
  ghost predicate KeysSound(s: State) {
    && (forall k :: k in s.services ==> k < s.nextService)
    && (forall x :: x in s.queue && x.task.HandOver? ==> x.task.service < s.nextService)
    && (s.worker.Busy? && s.worker.job.Hand? ==> s.worker.job.service < s.nextService)
    && (s.worker.Busy? && s.worker.job.Notify? ==> forall k :: k in s.worker.job.audience ==> k < s.nextService)
    && (forall t, task :: t in s.calls && s.calls[t].Finishing? && task in s.calls[t].posts ==> !task.HandOver?)
  }

  ghost predicate Consistent(s: State) {
    && Orderly(s)
    && FuturesSound(s)
    && Indexed(s.repo)
    && KeysSound(s)
    && (forall pid :: PidSound(s, pid))
    && (forall k, pid :: k in s.services && Interested(s.services[k], pid) ==> Agrees(s, k, pid))
  }

  // ---- what it is for ------------------------------------------------------------------------

  /** What a removal looks like to the service: a managed service cannot tell it from an update with no
      properties. */
  predicate LooksRemoved(kind: Kind, h: Handed) {
    if kind == Managed then h.Updated? && h.properties == map[] else h.Removed?
  }

  /** What the service was last handed is what the repository holds: the current properties of a
      configuration that has been updated, otherwise a removal notice or nothing at all. */
  ghost predicate InAgreement(s: State, k: nat, pid: string)
    requires Wired(s.repo) && k in s.services
  {
    var w := s.services[k];
    if pid in s.repo.configurations && Object(s, pid).changeCount > 0
    then pid in w.handed && w.handed[pid].Updated? && w.handed[pid].properties == Object(s, pid).properties
    else pid in w.handed ==> LooksRemoved(w.kind, w.handed[pid])
  }

  lemma QuiescentAgrees(s: State, k: nat, pid: string)
    requires Consistent(s) && Quiescent(s) && k in s.services && Interested(s.services[k], pid)
    ensures InAgreement(s, k, pid)
  {
    assert Agrees(s, k, pid);
    if pid in s.repo.configurations {
      assert MappedRemoved(s.repo, pid) ==> RemovalInFlight(s, s.repo.configurations[pid]);
    }
  }
}
