/** Every quiet step keeps the repository and its services consistent.  Each lemma speaks of one
    service and one PID. */
module AgreementSteps {
  import opened Pids
  import opened Repository
  import opened Engine
  import opened Evolution
  import opened Protocol
  import opened Agreement

  // ---- steps that have nothing to do with a PID ----------------------------------------------

  /** Updates under way matter for this PID. */
  predicate Watched(s: State, pid: string)
    requires Wired(s.repo)
  {
    pid in s.repo.configurations && (!Object(s, pid).removed || Object(s, pid).changeCount == 0)
  }

  ghost predicate SameFor(s: State, s': State, pid: string)
    requires Wired(s.repo) && Wired(s'.repo)
  {
    && (pid in s'.repo.configurations <==> pid in s.repo.configurations)
    && (pid in s.repo.configurations ==>
          && s'.repo.configurations[pid] == s.repo.configurations[pid]
          && Object(s', pid) == Object(s, pid))
    && (forall n: nat :: Announced(s', pid, n) <==> Announced(s, pid, n))
    && (Promised(s, pid) ==> Promised(s', pid))
    && (Watched(s, pid) ==> forall t ::
          && (UpdateUnderWay(s', t, pid) <==> UpdateUnderWay(s, t, pid))
          && (UpdateUnderWay(s, t, pid) ==> s'.calls[t] == s.calls[t]))
    && s'.queue == s.queue && s'.worker == s.worker
  }

  lemma FramePid(s: State, s': State, pid: string)
    requires Wired(s.repo) && Wired(s'.repo) && SameFor(s, s', pid) && PidSound(s, pid)
    ensures PidSound(s', pid)
  {
  }

  lemma FrameAgrees(s: State, s': State, k: nat, pid: string)
    requires Wired(s.repo) && Wired(s'.repo) && SameFor(s, s', pid)
    requires k in s.services && k in s'.services && s'.services[k] == s.services[k]
    requires Agrees(s, k, pid)
    ensures Agrees(s', k, pid)
  {
    assert HandWaits(s', k, pid) <==> HandWaits(s, k, pid);
    if Alive(s, pid) && Object(s, pid).changeCount > 0 {
      assert Coming(s, k, pid) ==> Coming(s', k, pid);
      assert HandFits(s', k, pid);
      assert HandedFits(s', k, pid);
    } else if Settled(s, k, pid) {
      assert Settled(s', k, pid);
    } else {
      assert RemovalComing(s', k, pid);
    }
  }

  /** One thread's call moves on without a change to what it promises about the PID. */
  lemma CallMoves(s: State, s': State, t: nat, pid: string)
    requires s'.queue == s.queue && s'.calls - {t} == s.calls - {t}
    requires forall n: nat :: (t in s'.calls && Promises(s'.calls[t], pid, n)) <==> (t in s.calls && Promises(s.calls[t], pid, n))
    ensures forall n: nat :: Announced(s', pid, n) <==> Announced(s, pid, n)
    ensures Promised(s, pid) <==> Promised(s', pid)
  {
    forall u, n: nat ensures (u in s'.calls && Promises(s'.calls[u], pid, n)) <==> (u in s.calls && Promises(s.calls[u], pid, n)) {
      if u != t {
        assert u in s.calls - {t} <==> u in s'.calls - {t};
        if u in s.calls { assert (s.calls - {t})[u] == (s'.calls - {t})[u]; }
      }
    }
  }

  // ---- Update, Remove and the creation of an empty configuration ------------------------------

  lemma UpdateKeeps(s: State, t: nat, id: nat, properties: Properties, pid: string)
    requires Orderly(s) && Callable(s, t, id) && PidSound(s, pid)
    ensures PidSound(Next(s, Update(t, id, properties)), pid)
    ensures forall k :: k in s.services && Agrees(s, k, pid) ==> Agrees(Next(s, Update(t, id, properties)), k, pid)
  {
    var s' := Next(s, Update(t, id, properties));
    assert s'.calls - {t} == s.calls - {t};
    CallMoves(s, s', t, pid);
    assert !Unmapped(s.repo, id);
    if s.repo.objects[id].pid != pid {
      assert SameFor(s, s', pid);
      FrameAll(s, s', pid);
    } else {
      assert Alive(s, pid) && s.repo.configurations[pid] == id;
      UpdatePid(s, t, id, properties);
      assert UpdateUnderWay(s', t, pid);
      forall k | k in s.services && Agrees(s, k, pid) ensures Agrees(s', k, pid) {
        BecomesCurrent(s, s', k, pid);
      }
    }
  }

  lemma UpdatePid(s: State, t: nat, id: nat, properties: Properties)
    requires Orderly(s) && Callable(s, t, id) && PidSound(s, s.repo.objects[id].pid)
    requires s.repo.objects[id].pid in s.repo.configurations && s.repo.configurations[s.repo.objects[id].pid] == id
    ensures PidSound(Next(s, Update(t, id, properties)), s.repo.objects[id].pid)
  {
    var s' := Next(s, Update(t, id, properties));
    var pid := s.repo.objects[id].pid;
    assert s'.calls - {t} == s.calls - {t};
    CallMoves(s, s', t, pid);
    assert Object(s, pid).changeCount == 0 ==> Quiet(s, pid);
    assert Object(s', pid).changeCount == Object(s, pid).changeCount + 1;
    forall u | UpdateUnderWay(s', u, pid) ensures s'.calls[u].id == id {
      if u != t { assert UpdateUnderWay(s, u, pid); }
    }
    if WorkerOn(s', pid) {
      assert WorkerOn(s, pid);
      assert Fits(s.worker.job.snapshot, Object(s, pid));
    }
  }

  /** A live object is written to, and the news is on its way. */
  lemma BecomesCurrent(s: State, s': State, k: nat, pid: string)
    requires Wired(s.repo) && Wired(s'.repo) && k in s.services && s'.services == s.services
    requires Alive(s, pid) && Alive(s', pid) && Object(s', pid).changeCount == Object(s, pid).changeCount + 1
    requires s'.queue == s.queue && s'.worker == s.worker
    requires PidSound(s, pid) && Agrees(s, k, pid) && Coming(s', k, pid)
    ensures Agrees(s', k, pid)
  {
    assert HandWaits(s', k, pid) <==> HandWaits(s, k, pid);
    if Object(s, pid).changeCount == 0 {
      QuietMeansSettled(s, k, pid);
    }
  }

  /** Where nothing is on its way about a PID that has never been updated, the service is settled. */
  lemma QuietMeansSettled(s: State, k: nat, pid: string)
    requires Wired(s.repo) && k in s.services && Quiet(s, pid) && Agrees(s, k, pid)
    requires pid in s.repo.configurations ==> Object(s, pid).changeCount == 0
    ensures Settled(s, k, pid)
  {
    if RemovalComing(s, k, pid) {
      if Promised(s, pid) {
        var t, n: nat :| t in s.calls && Promises(s.calls[t], pid, n);
        assert Announced(s, pid, n);
      } else if x :| x in s.queue && IsNews(x, pid) {
        assert Announced(s, pid, x.task.changeCount);
      }
    }
  }

  lemma RemoveKeeps(s: State, t: nat, id: nat, pid: string)
    requires Orderly(s) && Callable(s, t, id) && PidSound(s, pid)
    ensures PidSound(Next(s, Remove(t, id)), pid)
    ensures forall k :: k in s.services && Agrees(s, k, pid) ==> Agrees(Next(s, Remove(t, id)), k, pid)
  {
    var s' := Next(s, Remove(t, id));
    assert s'.calls - {t} == s.calls - {t};
    CallMoves(s, s', t, pid);
    assert !Unmapped(s.repo, id);
    if s.repo.objects[id].pid != pid {
      assert SameFor(s, s', pid);
      FrameAll(s, s', pid);
    } else {
      assert MappedRemoved(s'.repo, pid);
      forall u ensures UpdateUnderWay(s', u, pid) <==> UpdateUnderWay(s, u, pid) {
      }
      forall k | k in s.services && Agrees(s, k, pid) ensures Agrees(s', k, pid) {
        if Object(s, pid).changeCount == 0 {
          QuietMeansSettled(s, k, pid);
          assert Settled(s', k, pid);
        }
      }
    }
  }

  lemma CreateKeeps(s: State, c: Config, pid: string)
    requires Orderly(s) && c.pid !in s.repo.configurations && Quiet(s, c.pid)
    requires c.changeCount == 0 && !c.removed
    requires PidSound(s, pid)
    ensures Wired(Register(s.repo, c))
    ensures PidSound(s.(repo := Register(s.repo, c)), pid)
    ensures forall k :: k in s.services && Agrees(s, k, pid) ==> Agrees(s.(repo := Register(s.repo, c)), k, pid)
  {
    var s' := s.(repo := Register(s.repo, c));
    CallsInRange(s, pid);
    if c.pid != pid {
      assert SameFor(s, s', pid);
      FrameAll(s, s', pid);
    } else {
      forall t ensures UpdateUnderWay(s', t, pid) <==> UpdateUnderWay(s, t, pid) {
        if t in s.calls { assert CallSound(s.repo, s.calls[t]); }
      }
      assert forall n: nat :: Announced(s', pid, n) <==> Announced(s, pid, n);
      forall k | k in s.services && Agrees(s, k, pid) ensures Agrees(s', k, pid) {
        QuietMeansSettled(s, k, pid);
        assert Settled(s', k, pid);
      }
    }
  }

  lemma CallsInRange(s: State, pid: string)
    requires Orderly(s)
    ensures forall t :: t in s.calls && s.calls[t].Updating? ==> s.calls[t].id < |s.repo.objects|
  {
    forall t | t in s.calls && s.calls[t].Updating? ensures s.calls[t].id < |s.repo.objects| {
      assert CallSound(s.repo, s.calls[t]);
    }
  }

  // ---- one turn of the two batch loops -------------------------------------------------------

  /** A batch under way: what the call will still detach and announce. */
  function Batch(s: State, t: nat, r: Repo, detached: seq<nat>, notices: seq<Notice>): State {
    s.(repo := r, calls := s.calls[t := Finishing(detached, Announcements(notices))])
  }

  lemma MoreAnnouncements(notices: seq<Notice>, more: seq<Notice>, task: Task)
    ensures task in Announcements(notices + more) <==> task in Announcements(notices) || task in Announcements(more)
  {
    assert Announcements(notices + more) == Announcements(notices) + Announcements(more);
  }

  /** Neither loop cuts a back pointer. */
  ghost predicate KeepsPointers(r: Repo, r': Repo) {
    && |r.objects| <= |r'.objects|
    && forall id :: 0 <= id < |r.objects| ==> r'.objects[id].attached == r.objects[id].attached
  }

  lemma AddOneKeepsPointers(r: Repo, m: Metadata)
    requires Wired(r)
    ensures KeepsPointers(r, AddOne(r, m).repo)
  {
    hide AddInstance, FactoryPid;
  }

  lemma RemoveOneKeepsPointers(r: Repo, q: Receipt)
    requires Wired(r)
    ensures KeepsPointers(r, RemoveOne(r, q).repo)
  {
    hide RemoveInstance;
  }

  /** A batch goes on for another PID. */
  lemma BatchElsewhere(s: State, t: nat, r: Repo, ds: seq<nat>, ns: seq<Notice>, r': Repo, ds': seq<nat>, more: seq<Notice>, pid: string)
    requires Wired(r) && Wired(r')
    requires Orderly(Batch(s, t, r, ds, ns))
    requires forall i :: 0 <= i < |more| ==> more[i].pid != pid
    requires Elsewhere(r, r', pid)
    requires Evolves(r, r') && KeepsPointers(r, r')
    ensures SameFor(Batch(s, t, r, ds, ns), Batch(s, t, r', ds', ns + more), pid)
  {
    var e, e' := Batch(s, t, r, ds, ns), Batch(s, t, r', ds', ns + more);
    assert e'.calls - {t} == e.calls - {t};
    forall n: nat ensures Promises(e'.calls[t], pid, n) <==> Promises(e.calls[t], pid, n) {
      MoreAnnouncements(ns, more, Announce(pid, n));
    }
    CallMoves(e, e', t, pid);
    CallsInRange(e, pid);
    forall u ensures UpdateUnderWay(e', u, pid) <==> UpdateUnderWay(e, u, pid) {
      if u in e.calls && e.calls[u].Updating? {
        assert Ages(r.objects[e.calls[u].id], r'.objects[e.calls[u].id]);
      }
    }
  }

  /** News of a count joins what was announced about the PID; queue and worker stay. */
  ghost predicate NewsAdded(e: State, e': State, pid: string, count: nat)
    requires Wired(e.repo) && Wired(e'.repo)
  {
    && (forall n: nat :: Announced(e', pid, n) <==> Announced(e, pid, n) || n == count)
    && Promised(e', pid)
    && (forall u :: UpdateUnderWay(e', u, pid) <==> UpdateUnderWay(e, u, pid))
    && (forall u :: UpdateUnderWay(e, u, pid) ==> e'.calls[u] == e.calls[u])
    && e'.queue == e.queue && e'.worker == e.worker && e'.services == e.services
  }

  lemma WrittenKeeps(e: State, e': State, pid: string)
    requires Wired(e.repo) && Wired(e'.repo) && Alive(e, pid) && Alive(e', pid)
    requires e'.repo.configurations[pid] == e.repo.configurations[pid]
    requires Object(e', pid).changeCount == Object(e, pid).changeCount + 1
    requires NewsAdded(e, e', pid, Object(e', pid).changeCount) && PidSound(e, pid)
    ensures PidSound(e', pid)
    ensures forall k :: k in e.services && Agrees(e, k, pid) ==> Agrees(e', k, pid)
  {
    assert PidSound(e', pid);
    forall k | k in e.services && Agrees(e, k, pid) ensures Agrees(e', k, pid) {
      BecomesCurrent(e, e', k, pid);
    }
  }

  lemma BornKeeps(e: State, e': State, pid: string)
    requires Wired(e.repo) && Wired(e'.repo) && pid !in e.repo.configurations && Alive(e', pid)
    requires Object(e', pid).changeCount == 1
    requires NewsAdded(e, e', pid, 1) && Quiet(e, pid)
    ensures PidSound(e', pid)
    ensures forall k :: k in e.services && Agrees(e, k, pid) ==> Agrees(e', k, pid)
  {
    assert PidSound(e', pid);
    forall k | k in e.services && Agrees(e, k, pid) ensures Agrees(e', k, pid) {
      QuietMeansSettled(e, k, pid);
      assert !HandWaits(e', k, pid);
      assert Announced(e', pid, 1);
    }
  }

  lemma AddOneKeeps(s: State, t: nat, r: Repo, ds: seq<nat>, ns: seq<Notice>, m: Metadata, pid: string)
    requires Wired(r) && Orderly(Batch(s, t, r, ds, ns)) && FreeToCreate(Batch(s, t, r, ds, ns), m.pid)
    requires PidSound(Batch(s, t, r, ds, ns), pid)
    ensures var one := AddOne(r, m);
            var more := if one.changed then [Notice(one.receipt.pid, one.receipt.changeCount)] else [];
            var e, e' := Batch(s, t, r, ds, ns), Batch(s, t, one.repo, ds + one.detached, ns + more);
            && PidSound(e', pid)
            && forall k :: k in s.services && Agrees(e, k, pid) ==> Agrees(e', k, pid)
  {
    var one := AddOne(r, m);
    var more := if one.changed then [Notice(one.receipt.pid, one.receipt.changeCount)] else [];
    var e, e' := Batch(s, t, r, ds, ns), Batch(s, t, one.repo, ds + one.detached, ns + more);
    AddOneEvolves(r, m);
    AddOneKeepsPointers(r, m);
    hide KeepsPointers;
    if m.pid != pid || !one.changed {
      AddOneElsewhere(r, m, pid);
      hide AddOne, Agrees, PidSound, Orderly, Elsewhere, Evolves, SameFor;
      BatchElsewhere(s, t, r, ds, ns, one.repo, ds + one.detached, more, pid);
      FrameAll(e, e', pid);
    } else {
      AddOneHere(r, m);
      hide AddOne, Agrees, Orderly, Evolves;
      BatchHere(s, t, r, ds, ns, one.repo, ds + one.detached, more[0]);
      if pid in r.configurations {
        WrittenKeeps(e, e', pid);
      } else {
        BornKeeps(e, e', pid);
      }
    }
  }

  lemma FrameAll(s: State, s': State, pid: string)
    requires Wired(s.repo) && Wired(s'.repo) && SameFor(s, s', pid) && PidSound(s, pid) && s'.services == s.services
    ensures PidSound(s', pid)
    ensures forall k :: k in s.services && Agrees(s, k, pid) ==> Agrees(s', k, pid)
  {
    FramePid(s, s', pid);
    forall k | k in s.services && Agrees(s, k, pid) ensures Agrees(s', k, pid) {
      FrameAgrees(s, s', k, pid);
    }
  }

  /** A batch goes on with news about this PID. */
  lemma BatchHere(s: State, t: nat, r: Repo, ds: seq<nat>, ns: seq<Notice>, r': Repo, ds': seq<nat>, news: Notice)
    requires Wired(r) && Wired(r') && Orderly(Batch(s, t, r, ds, ns)) && Evolves(r, r') && KeepsPointers(r, r')
    ensures NewsAdded(Batch(s, t, r, ds, ns), Batch(s, t, r', ds', ns + [news]), news.pid, news.changeCount)
  {
    var e, e' := Batch(s, t, r, ds, ns), Batch(s, t, r', ds', ns + [news]);
    var pid := news.pid;
    assert Announcements([news])[0] == Announce(pid, news.changeCount);
    forall n: nat ensures Promises(e'.calls[t], pid, n) <==> Promises(e.calls[t], pid, n) || n == news.changeCount {
      MoreAnnouncements(ns, [news], Announce(pid, n));
    }
    forall u | u != t ensures u in e.calls <==> u in e'.calls {}
    forall u | u != t && u in e.calls ensures e.calls[u] == e'.calls[u] {}
    forall n: nat ensures Announced(e', pid, n) <==> Announced(e, pid, n) || n == news.changeCount {
      if Announced(e', pid, n) && !(exists x :: x in e'.queue && x.task == Announce(pid, n)) {
        var u :| u in e'.calls && Promises(e'.calls[u], pid, n);
        assert u != t ==> Promises(e.calls[u], pid, n);
      }
      if Announced(e, pid, n) && !(exists x :: x in e.queue && x.task == Announce(pid, n)) {
        var u :| u in e.calls && Promises(e.calls[u], pid, n);
        assert Promises(e'.calls[u], pid, n);
      }
    }
    assert Promises(e'.calls[t], pid, news.changeCount);
    CallsInRange(e, pid);
    forall u ensures UpdateUnderWay(e', u, pid) <==> UpdateUnderWay(e, u, pid) {
      if u in e.calls && e.calls[u].Updating? {
        assert Ages(r.objects[e.calls[u].id], r'.objects[e.calls[u].id]);
      }
    }
  }

  lemma RemoveOneKeeps(s: State, t: nat, r: Repo, ds: seq<nat>, ns: seq<Notice>, q: Receipt, pid: string)
    requires Wired(r) && Orderly(Batch(s, t, r, ds, ns))
    requires PidSound(Batch(s, t, r, ds, ns), pid)
    ensures var one := RemoveOne(r, q);
            var more := if one.notify then [Notice(q.pid, q.changeCount)] else [];
            var e, e' := Batch(s, t, r, ds, ns), Batch(s, t, one.repo, ds + one.detached, ns + more);
            && PidSound(e', pid)
            && forall k :: k in s.services && Agrees(e, k, pid) ==> Agrees(e', k, pid)
  {
    var one := RemoveOne(r, q);
    var more := if one.notify then [Notice(q.pid, q.changeCount)] else [];
    var e, e' := Batch(s, t, r, ds, ns), Batch(s, t, one.repo, ds + one.detached, ns + more);
    RemoveOneEvolves(r, q);
    RemoveOneKeepsPointers(r, q);
    hide KeepsPointers;
    assert !one.erased ==> !one.notify;
    if q.pid != pid || !one.erased {
      RemoveOneElsewhere(r, q, pid);
      hide RemoveOne, Agrees, PidSound, Orderly, Elsewhere, Evolves, SameFor;
      BatchElsewhere(s, t, r, ds, ns, one.repo, ds + one.detached, more, pid);
      FrameAll(e, e', pid);
    } else {
      RemoveOneHere(r, q);
      hide RemoveOne, Agrees, PidSound, Orderly, Evolves;
      if one.notify {
        BatchHere(s, t, r, ds, ns, one.repo, ds + one.detached, more[0]);
        GoneWithNotice(e, e', pid);
      } else {
        assert more == [];
        SilentBatch(s, t, r, ds, ns, one.repo, ds + one.detached, pid);
        GoneSilently(e, e', pid);
      }
    }
  }

  lemma SilentBatch(s: State, t: nat, r: Repo, ds: seq<nat>, ns: seq<Notice>, r': Repo, ds': seq<nat>, pid: string)
    requires Wired(r) && Wired(r')
    ensures var e, e' := Batch(s, t, r, ds, ns), Batch(s, t, r', ds', ns + []);
            e'.queue == e.queue && e'.worker == e.worker && e'.services == e.services && (Promised(e, pid) ==> Promised(e', pid))
  {
    var e, e' := Batch(s, t, r, ds, ns), Batch(s, t, r', ds', ns + []);
    assert ns + [] == ns;
    assert e'.calls - {t} == e.calls - {t};
    CallMoves(e, e', t, pid);
  }

  lemma GoneWithNotice(e: State, e': State, pid: string)
    requires Wired(e.repo) && Wired(e'.repo) && pid !in e'.repo.configurations
    requires Promised(e', pid) && e'.services == e.services
    ensures PidSound(e', pid)
    ensures forall k :: k in e.services && Agrees(e, k, pid) ==> Agrees(e', k, pid)
  {
    forall k | k in e.services && Agrees(e, k, pid) ensures Agrees(e', k, pid) {
      assert RemovalComing(e', k, pid);
    }
  }

  lemma GoneSilently(e: State, e': State, pid: string)
    requires Wired(e.repo) && Wired(e'.repo) && e'.services == e.services && PidSound(e, pid)
    requires pid in e.repo.configurations && Object(e, pid).changeCount == 0 && pid !in e'.repo.configurations
    requires e'.queue == e.queue && e'.worker == e.worker && (Promised(e, pid) ==> Promised(e', pid))
    ensures PidSound(e', pid)
    ensures forall k :: k in e.services && Agrees(e, k, pid) ==> Agrees(e', k, pid)
  {
    forall k | k in e.services && Agrees(e, k, pid) ensures Agrees(e', k, pid) {
      QuietMeansSettled(e, k, pid);
      assert Settled(e', k, pid);
    }
  }
}
