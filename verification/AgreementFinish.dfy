/** The worker finishing a task keeps the repository and its services consistent. */
module AgreementFinish {
  import opened Repository
  import opened Engine
  import opened Agreement

  lemma FinishPid(s: State, pid: string)
    requires Wired(s.repo) && s.worker.Busy? && PidSound(s, pid)
    ensures PidSound(Finish(s), pid)
  {
    var s' := Finish(s);
    forall n: nat ensures Announced(s', pid, n) <==> Announced(s, pid, n) {
    }
    forall u ensures UpdateUnderWay(s', u, pid) <==> UpdateUnderWay(s, u, pid) {
    }
  }

  /** What two versions of a service know about one PID is the same. */
  predicate SameView(w: Tracked, w': Tracked, pid: string) {
    && w'.kind == w.kind && LastCount(w', pid) == LastCount(w, pid)
    && (pid in w'.handed <==> pid in w.handed)
    && (pid in w.handed ==> w'.handed[pid] == w.handed[pid])
  }

  /** The task at hand says nothing to this service about this PID. */
  lemma FinishElsewhere(s: State, k: nat, pid: string)
    requires Wired(s.repo) && s.worker.Busy? && k in s.services && k in Finish(s).services
    requires !WorkerTells(s, k, pid) && !WorkerHands(s, k, pid)
    requires SameView(s.services[k], Finish(s).services[k], pid) && Agrees(s, k, pid)
    ensures Agrees(Finish(s), k, pid)
  {
    var s' := Finish(s);
    forall n: nat ensures Announced(s', pid, n) <==> Announced(s, pid, n) {
    }
    assert Promised(s, pid) ==> Promised(s', pid);
    assert HandWaits(s', k, pid) <==> HandWaits(s, k, pid);
    if Alive(s, pid) && Object(s, pid).changeCount > 0 {
      if t :| UpdateUnderWay(s, t, pid) { assert UpdateUnderWay(s', t, pid); }
      assert Coming(s, k, pid) ==> Coming(s', k, pid);
      assert HandFits(s', k, pid) && HandedFits(s', k, pid);
    } else if Settled(s, k, pid) {
      assert Settled(s', k, pid);
    } else {
      assert RemovalComing(s', k, pid);
    }
  }

  /** A service is told about a live object. */
  lemma FinishNews(s: State, k: nat, pid: string)
    requires Wired(s.repo) && s.worker.Busy? && k in s.services && Interested(s.services[k], pid)
    requires WorkerTells(s, k, pid) && PidSound(s, pid)
    requires Alive(s, pid) && Object(s, pid).changeCount > 0 && Current(s, k, pid)
    ensures k in Finish(s).services && Current(Finish(s), k, pid)
  {
    var s' := Finish(s);
    var job := s.worker.job;
    forall n: nat ensures Announced(s', pid, n) <==> Announced(s, pid, n) {
    }
    assert HandWaits(s', k, pid) <==> HandWaits(s, k, pid);
    var w, w' := s.services[k], s'.services[k];
    assert w' == NotifyOne(w, pid, job.changeCount, false, job.snapshot);
    assert LastCount(w', pid) == if LastCount(w, pid) < job.changeCount then job.changeCount else LastCount(w, pid);
    if LastCount(w', pid) != Object(s, pid).changeCount {
      if t :| UpdateUnderWay(s, t, pid) { assert UpdateUnderWay(s', t, pid); }
      assert Coming(s', k, pid);
    }
    assert HandFits(s', k, pid);
    assert HandedFits(s', k, pid);
  }

  /** A service is told something about an object that is gone. */
  lemma FinishGone(s: State, k: nat, pid: string)
    requires Wired(s.repo) && s.worker.Busy? && k in s.services && Interested(s.services[k], pid)
    requires WorkerTells(s, k, pid)
    requires !(Alive(s, pid) && Object(s, pid).changeCount > 0) && (Settled(s, k, pid) || RemovalComing(s, k, pid))
    ensures k in Finish(s).services && (Settled(Finish(s), k, pid) || RemovalComing(Finish(s), k, pid))
  {
    var s' := Finish(s);
    assert Promised(s, pid) ==> Promised(s', pid);
    assert HandWaits(s', k, pid) <==> exists x :: x in s.queue && IsHand(x, k, pid);
    if s.worker.job.removed && !HandWaits(s', k, pid) {
      assert Settled(s', k, pid);
    } else {
      assert RemovalComing(s', k, pid);
    }
  }

  /** A service receives its first hand-over. */
  lemma FinishHand(s: State, k: nat, pid: string)
    requires Wired(s.repo) && s.worker.Busy? && k in s.services && WorkerHands(s, k, pid) && Agrees(s, k, pid)
    ensures k in Finish(s).services && Agrees(Finish(s), k, pid)
  {
    var s' := Finish(s);
    forall n: nat ensures Announced(s', pid, n) <==> Announced(s, pid, n) {
    }
    assert Promised(s, pid) ==> Promised(s', pid);
    assert HandWaits(s, k, pid);
    var updates := s.worker.job.updates;
    assert s'.services[k].handed[pid] == Updated(updates[pid].properties, updates[pid].version);
    if Alive(s, pid) && Object(s, pid).changeCount > 0 {
      if t :| UpdateUnderWay(s, t, pid) { assert UpdateUnderWay(s', t, pid); }
      assert Coming(s, k, pid) ==> Coming(s', k, pid);
      assert HandFits(s', k, pid) && HandedFits(s', k, pid);
    } else {
      assert RemovalComing(s', k, pid);
    }
  }

  lemma FinishKeeps(s: State, k: nat, pid: string)
    requires Wired(s.repo) && s.worker.Busy? && PidSound(s, pid)
    requires k in s.services && Interested(s.services[k], pid) && Agrees(s, k, pid)
    ensures k in Finish(s).services && Agrees(Finish(s), k, pid)
  {
    if WorkerTells(s, k, pid) {
      if Alive(s, pid) && Object(s, pid).changeCount > 0 {
        FinishNews(s, k, pid);
      } else {
        FinishGone(s, k, pid);
      }
    } else if WorkerHands(s, k, pid) {
      FinishHand(s, k, pid);
    } else {
      FinishElsewhere(s, k, pid);
    }
  }
}
