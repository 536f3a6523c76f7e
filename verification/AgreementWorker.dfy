/** Tracking services and the worker's two steps keep the repository and its services consistent. */
module AgreementWorker {
  import opened Pids
  import opened Repository
  import opened Engine
  import opened Protocol
  import opened FactoryIndex
  import opened Agreement
  import opened AgreementSteps

  // ---- a service starts being tracked --------------------------------------------------------

  /** A new service arrives, with or without a first hand-over behind everything queued. */
  ghost predicate Arrives(s: State, s': State, w: Tracked, updates: map<string, Snapshot>) {
    && s'.repo == s.repo && s'.calls == s.calls && s'.worker == s.worker
    && s'.nextService == s.nextService + 1
    && s'.services == s.services[s.nextService := w]
    && (if updates == map[] then s'.queue == s.queue && s'.futuresID == s.futuresID
        else s'.queue == s.queue + [Posted(s.futuresID + 1, HandOver(s.nextService, updates))])
  }

  lemma ArrivalQueue(s: State, s': State, w: Tracked, updates: map<string, Snapshot>, x: Posted)
    requires Arrives(s, s', w, updates)
    ensures x in s'.queue <==>
            x in s.queue || (updates != map[] && x == Posted(s.futuresID + 1, HandOver(s.nextService, updates)))
  {
  }

  lemma ArrivalKeeps(s: State, s': State, w: Tracked, updates: map<string, Snapshot>, pid: string)
    requires Wired(s.repo) && KeysSound(s) && Arrives(s, s', w, updates) && PidSound(s, pid)
    ensures PidSound(s', pid)
    ensures forall k :: k in s.services && Agrees(s, k, pid) ==> Agrees(s', k, pid)
  {
    forall x: Posted ensures x in s'.queue <==>
        x in s.queue || (updates != map[] && x == Posted(s.futuresID + 1, HandOver(s.nextService, updates))) {
      ArrivalQueue(s, s', w, updates, x);
    }
    forall n: nat ensures Announced(s', pid, n) <==> Announced(s, pid, n) {
      if x :| x in s.queue && x.task == Announce(pid, n) { assert x in s'.queue; }
    }
    assert Promised(s, pid) ==> Promised(s', pid);
    forall u ensures UpdateUnderWay(s', u, pid) <==> UpdateUnderWay(s, u, pid) {
    }
    forall k | k in s.services && Agrees(s, k, pid) ensures Agrees(s', k, pid) {
      ArrivalSparesOthers(s, s', w, updates, k, pid);
    }
  }

  lemma ArrivalSparesOthers(s: State, s': State, w: Tracked, updates: map<string, Snapshot>, k: nat, pid: string)
    requires Wired(s.repo) && KeysSound(s) && Arrives(s, s', w, updates)
    requires forall x: Posted :: x in s'.queue <==>
        x in s.queue || (updates != map[] && x == Posted(s.futuresID + 1, HandOver(s.nextService, updates)))
    requires forall n: nat :: Announced(s', pid, n) <==> Announced(s, pid, n)
    requires forall u :: UpdateUnderWay(s', u, pid) <==> UpdateUnderWay(s, u, pid)
    requires Promised(s, pid) ==> Promised(s', pid)
    requires k in s.services && Agrees(s, k, pid)
    ensures Agrees(s', k, pid)
  {
    assert k < s.nextService;
    assert s'.services[k] == s.services[k];
    assert HandWaits(s', k, pid) <==> HandWaits(s, k, pid);
    if Alive(s, pid) && Object(s, pid).changeCount > 0 {
      ArrivalKeepsCurrent(s, s', w, updates, k, pid);
    } else if Settled(s, k, pid) {
      assert Settled(s', k, pid);
    } else {
      hide HandFits, HandedFits, Settled;
      assert RemovalComing(s', k, pid);
    }
  }

  lemma ArrivalKeepsCurrent(s: State, s': State, w: Tracked, updates: map<string, Snapshot>, k: nat, pid: string)
    requires Wired(s.repo) && KeysSound(s) && Arrives(s, s', w, updates)
    requires forall x: Posted :: x in s'.queue <==>
        x in s.queue || (updates != map[] && x == Posted(s.futuresID + 1, HandOver(s.nextService, updates)))
    requires forall n: nat :: Announced(s', pid, n) <==> Announced(s, pid, n)
    requires forall u :: UpdateUnderWay(s', u, pid) <==> UpdateUnderWay(s, u, pid)
    requires k in s.services && k < s.nextService && (HandWaits(s', k, pid) <==> HandWaits(s, k, pid))
    requires pid in s.repo.configurations && Current(s, k, pid)
    ensures Current(s', k, pid)
  {
    hide Announced, UpdateUnderWay, KeysSound, HandWaits;
    assert Coming(s, k, pid) ==> Coming(s', k, pid);
    assert HandFits(s', k, pid);
    assert HandedFits(s', k, pid);
  }

  /** The newcomer itself: what it starts from is the current count, and the hand-over shows it. */
  lemma NewcomerAgrees(s: State, s': State, w: Tracked, updates: map<string, Snapshot>, pid: string)
    requires Wired(s.repo) && KeysSound(s) && FuturesSound(s) && Arrives(s, s', w, updates) && PidSound(s, pid)
    requires w.handed == map[]
    requires Alive(s, pid) && Object(s, pid).changeCount > 0 ==>
               pid in updates && updates[pid] == Snapshot(Object(s, pid).properties, Object(s, pid).changeCount)
    requires pid in updates ==> LastCount(w, pid) == updates[pid].version
    requires pid !in updates ==> LastCount(w, pid) == 0
    requires pid in updates ==> pid in s.repo.configurations && Object(s, pid).changeCount > 0
    ensures Agrees(s', s.nextService, pid)
  {
    var k := s.nextService;
    forall x: Posted ensures x in s'.queue <==>
        x in s.queue || (updates != map[] && x == Posted(s.futuresID + 1, HandOver(k, updates))) {
      ArrivalQueue(s, s', w, updates, x);
    }
    if Alive(s, pid) && Object(s, pid).changeCount > 0 {
      var hand := Posted(s.futuresID + 1, HandOver(k, updates));
      assert IsHand(hand, k, pid) && hand in s'.queue;
      forall y | y in s'.queue && IsNews(y, pid) ensures y.task.changeCount <= LastCount(w, pid) {
        assert Announced(s, pid, y.task.changeCount);
      }
      assert HandFits(s', k, pid);
    } else if pid in s.repo.configurations && Object(s, pid).changeCount > 0 {
      assert MappedRemoved(s'.repo, pid);
    } else {
      assert !HandWaits(s', k, pid);
      assert Settled(s', k, pid);
    }
  }

  lemma AddManagedArrives(s: State, pid: string)
    requires Wired(s.repo)
    ensures var w := AddManaged(s, pid).services[s.nextService];
            var has := pid in s.repo.configurations && Object(s, pid).changeCount > 0;
            var snapshot := if has && !Object(s, pid).removed then Snapshot(Object(s, pid).properties, Object(s, pid).changeCount)
                            else Snapshot(map[], 0);
            && Arrives(s, AddManaged(s, pid), w, if has then map[pid := snapshot] else map[])
            && w == Tracked(Managed, pid, map[pid := snapshot.version], map[])
  {
    assert pid in map[pid := Snapshot(map[], 0)];
    if pid in s.repo.configurations {
      assert pid in map[pid := Snapshot(Object(s, pid).properties, Object(s, pid).changeCount)];
    }
  }

  lemma AddManagedKeeps(s: State, pid: string, p: string)
    requires Wired(s.repo) && KeysSound(s) && FuturesSound(s) && PidSound(s, p)
    ensures PidSound(AddManaged(s, pid), p)
    ensures forall k :: k in s.services && Agrees(s, k, p) ==> Agrees(AddManaged(s, pid), k, p)
    ensures Interested(AddManaged(s, pid).services[s.nextService], p) ==> Agrees(AddManaged(s, pid), s.nextService, p)
  {
    var s' := AddManaged(s, pid);
    AddManagedArrives(s, pid);
    var w := s'.services[s.nextService];
    var has := pid in s.repo.configurations && Object(s, pid).changeCount > 0;
    var snapshot := if has && !Object(s, pid).removed then Snapshot(Object(s, pid).properties, Object(s, pid).changeCount)
                    else Snapshot(map[], 0);
    ArrivalKeeps(s, s', w, if has then map[pid := snapshot] else map[], p);
    if p == pid {
      NewcomerAgrees(s, s', w, if has then map[pid := snapshot] else map[], p);
    }
  }

  lemma AddFactoryKeeps(s: State, pid: string, p: string)
    requires Wired(s.repo) && KeysSound(s) && FuturesSound(s) && Indexed(s.repo) && PidSound(s, p)
    ensures PidSound(AddFactory(s, pid), p)
    ensures forall k :: k in s.services && Agrees(s, k, p) ==> Agrees(AddFactory(s, pid), k, p)
    ensures Interested(AddFactory(s, pid).services[s.nextService], p) ==> Agrees(AddFactory(s, pid), s.nextService, p)
  {
    var s' := AddFactory(s, pid);
    var w := s'.services[s.nextService];
    FactoryArrives(s, pid);
    hide Agrees, PidSound, Arrives, Indexed, KeysSound, FuturesSound, AddFactory, Instances;
    if Interested(w, p) {
      FactoryNewcomerAgrees(s, pid, p);
    }
    ArrivalKeeps(s, s', w, Instances(s.repo, pid), p);
  }

  lemma FactoryArrives(s: State, pid: string)
    requires Wired(s.repo)
    ensures s.nextService in AddFactory(s, pid).services
    ensures var updates, w := Instances(s.repo, pid), AddFactory(s, pid).services[s.nextService];
            && Arrives(s, AddFactory(s, pid), w, updates)
            && w.handed == map[] && w.kind == Factory && w.pid == pid
            && forall p :: LastCount(w, p) == if p in updates then updates[p].version else 0
  {
    hide Instances;
  }

  lemma FactoryCovers(s: State, pid: string, p: string)
    requires Wired(s.repo) && Indexed(s.repo) && FactoryPid(p) != "" && pid == FactoryPid(p)
    ensures var updates := Instances(s.repo, pid);
            && (Alive(s, p) && Object(s, p).changeCount > 0 ==>
                  p in updates && updates[p] == Snapshot(Object(s, p).properties, Object(s, p).changeCount))
            && (p in updates ==> p in s.repo.configurations && Object(s, p).changeCount > 0)
  {
    if p in s.repo.configurations {
      FactoryHasInstance(s.repo.configurations.Keys, pid);
      assert p in InstancesOf(s.repo.configurations.Keys, pid);
    }
  }

  lemma FactoryNewcomerAgrees(s: State, pid: string, p: string)
    requires Wired(s.repo) && KeysSound(s) && FuturesSound(s) && Indexed(s.repo) && PidSound(s, p)
    requires Interested(AddFactory(s, pid).services[s.nextService], p)
    ensures Agrees(AddFactory(s, pid), s.nextService, p)
  {
    FactoryArrives(s, pid);
    FactoryCovers(s, pid, p);
    hide Agrees, PidSound, Arrives, Indexed, KeysSound, FuturesSound, AddFactory, Instances;
    NewcomerAgrees(s, AddFactory(s, pid), AddFactory(s, pid).services[s.nextService], Instances(s.repo, pid), p);
  }

  /** A service that is no longer tracked concerns nobody else. */
  lemma ForgetKeeps(s: State, gone: nat, pid: string)
    requires Wired(s.repo) && PidSound(s, pid)
    ensures PidSound(Next(s, RemoveService(gone)), pid)
    ensures forall k :: k in s.services && k != gone && Agrees(s, k, pid) ==> Agrees(Next(s, RemoveService(gone)), k, pid)
  {
    var s' := Next(s, RemoveService(gone));
    assert Promised(s, pid) ==> Promised(s', pid);
    assert SameFor(s, s', pid);
    FramePid(s, s', pid);
    forall k | k in s.services && k != gone && Agrees(s, k, pid) ensures Agrees(s', k, pid) {
      FrameAgrees(s, s', k, pid);
    }
  }

  // ---- the worker takes a task ---------------------------------------------------------------

  lemma TakeQueue(s: State)
    requires FuturesSound(s) && Wired(s.repo) && s.queue != [] && s.worker.Idle?
    ensures forall x :: x in s.queue <==> x == s.queue[0] || x in Take(s).queue
    ensures forall x :: x in Take(s).queue ==> s.queue[0].id < x.id
  {
    assert s.queue == [s.queue[0]] + s.queue[1..];
  }

  lemma TakePid(s: State, pid: string)
    requires FuturesSound(s) && Wired(s.repo) && s.queue != [] && s.worker.Idle? && PidSound(s, pid)
    ensures PidSound(Take(s), pid)
  {
    var s' := Take(s);
    TakeQueue(s);
    forall n: nat ensures Announced(s', pid, n) ==> Announced(s, pid, n) {
    }
    forall u ensures UpdateUnderWay(s', u, pid) <==> UpdateUnderWay(s, u, pid) {
    }
    if Alive(s, pid) && IsNews(s.queue[0], pid) {
      assert Announced(s, pid, s.queue[0].task.changeCount);
    }
  }

  lemma TakeKeeps(s: State, k: nat, pid: string)
    requires FuturesSound(s) && Wired(s.repo) && s.queue != [] && s.worker.Idle?
    requires PidSound(s, pid) && k in s.services && Agrees(s, k, pid)
    ensures Agrees(Take(s), k, pid)
  {
    TakeQueue(s);
    if Alive(s, pid) && Object(s, pid).changeCount > 0 {
      TakeWhenAlive(s, k, pid);
    } else if Settled(s, k, pid) {
      TakeWhenSettled(s, k, pid);
    } else {
      TakeBeforeRemoval(s, k, pid);
    }
  }

  lemma TakeWhenAlive(s: State, k: nat, pid: string)
    requires FuturesSound(s) && Wired(s.repo) && s.queue != [] && s.worker.Idle?
    requires forall x :: x in s.queue <==> x == s.queue[0] || x in Take(s).queue
    requires forall x :: x in Take(s).queue ==> s.queue[0].id < x.id
    requires k in s.services && Alive(s, pid) && Object(s, pid).changeCount > 0 && Current(s, k, pid)
    ensures Current(Take(s), k, pid)
  {
    var s', head := Take(s), s.queue[0];
    if Coming(s, k, pid) {
      TakeKeepsComing(s, k, pid);
    }
    TakeKeepsHands(s, k, pid);
  }

  lemma TakeKeepsHands(s: State, k: nat, pid: string)
    requires Wired(s.repo) && s.queue != [] && s.worker.Idle?
    requires forall x :: x in s.queue <==> x == s.queue[0] || x in Take(s).queue
    requires forall x :: x in Take(s).queue ==> s.queue[0].id < x.id
    requires k in s.services && Alive(s, pid) && HandFits(s, k, pid) && HandedFits(s, k, pid)
    ensures HandFits(Take(s), k, pid) && HandedFits(Take(s), k, pid)
  {
    var s', head := Take(s), s.queue[0];
    assert head in s.queue;
    if HandWaits(s, k, pid) {
      if x :| x in s.queue && IsHand(x, k, pid) {
        assert x == head || x in s'.queue;
        if x == head { assert WorkerHands(s', k, pid); }
      }
    }
    assert HandWaits(s, k, pid) ==> HandWaits(s', k, pid);
    forall x | x in s'.queue && IsHand(x, k, pid)
      ensures WorkerTells(s', k, pid) ==> s'.worker.job.changeCount <= LastCount(s.services[k], pid) {
      if WorkerTells(s', k, pid) { assert IsNews(head, pid); }
    }
  }

  lemma TakeKeepsComing(s: State, k: nat, pid: string)
    requires Wired(s.repo) && s.queue != [] && s.worker.Idle?
    requires forall x :: x in s.queue <==> x == s.queue[0] || x in Take(s).queue
    requires k in s.services && Alive(s, pid) && Object(s, pid).changeCount > 0 && Coming(s, k, pid)
    ensures Coming(Take(s), k, pid)
  {
    var s', head := Take(s), s.queue[0];
    var n := Object(s, pid).changeCount;
    if t :| UpdateUnderWay(s, t, pid) {
      assert UpdateUnderWay(s', t, pid);
    } else if x :| x in s.queue && x.task == Announce(pid, n) {
      if x == head {
        assert WorkerTells(s', k, pid) && s'.worker.job.changeCount == n;
      } else {
        assert x in s'.queue;
        assert Announced(s', pid, n);
      }
    } else {
      var t :| t in s.calls && Promises(s.calls[t], pid, n);
      assert t in s'.calls && Promises(s'.calls[t], pid, n);
    }
  }

  lemma TakeWhenSettled(s: State, k: nat, pid: string)
    requires FuturesSound(s) && Wired(s.repo) && s.queue != [] && s.worker.Idle?
    requires forall x :: x in s.queue <==> x == s.queue[0] || x in Take(s).queue
    requires k in s.services && !(Alive(s, pid) && Object(s, pid).changeCount > 0) && Settled(s, k, pid)
    ensures Settled(Take(s), k, pid)
  {
    var s', head := Take(s), s.queue[0];
    assert !IsHand(head, k, pid);
    assert !HandWaits(s', k, pid);
  }

  lemma TakeBeforeRemoval(s: State, k: nat, pid: string)
    requires FuturesSound(s) && Wired(s.repo) && s.queue != [] && s.worker.Idle?
    requires forall x :: x in s.queue <==> x == s.queue[0] || x in Take(s).queue
    requires forall x :: x in Take(s).queue ==> s.queue[0].id < x.id
    requires PidSound(s, pid)
    requires k in s.services && !(Alive(s, pid) && Object(s, pid).changeCount > 0) && RemovalComing(s, k, pid)
    ensures RemovalComing(Take(s), k, pid)
  {
    var s', head := Take(s), s.queue[0];
    if Promised(s, pid) {
      assert Promised(s', pid);
    } else if MappedRemoved(s.repo, pid) && Object(s, pid).changeCount > 0 {
      assert MappedRemoved(s'.repo, pid);
    } else {
      var x :| x in s.queue && IsNews(x, pid) && forall y :: y in s.queue && IsHand(y, k, pid) ==> y.id < x.id;
      if x != head {
        hide PidSound, FuturesSound, ReadFor;
        assert x in s'.queue;
      } else {
        assert Announced(s, pid, x.task.changeCount);
        assert pid !in s.repo.configurations;
        hide PidSound, FuturesSound;
        assert forall y :: y in s'.queue ==> !IsHand(y, k, pid);
      }
    }
  }
}
