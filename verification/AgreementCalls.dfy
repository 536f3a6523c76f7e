/** The later critical sections of a call, the tracking of services and the worker's two steps keep
    the repository and its services consistent. */
module AgreementCalls {
  import opened Repository
  import opened Engine
  import opened Evolution
  import opened Protocol
  import opened Agreement
  import opened AgreementSteps

  // ---- the rest of a call --------------------------------------------------------------------

  /** A call step that promises nothing new and leaves live objects alone. */
  lemma CallFrame(s: State, s': State, t: nat, pid: string)
    requires Orderly(s) && Wired(s'.repo) && t in s.calls && PidSound(s, pid)
    requires s'.calls - {t} == s.calls - {t} && s'.services == s.services && s'.queue == s.queue && s'.worker == s.worker
    requires Elsewhere(s.repo, s'.repo, pid) && Evolves(s.repo, s'.repo)
    requires forall n: nat :: (t in s'.calls && Promises(s'.calls[t], pid, n)) <==> Promises(s.calls[t], pid, n)
    requires UpdateUnderWay(s, t, pid) ==> !Watched(s, pid)
    requires t in s'.calls ==> s'.calls[t].Finishing?
    ensures PidSound(s', pid)
    ensures forall k :: k in s.services && Agrees(s, k, pid) ==> Agrees(s', k, pid)
  {
    CallMoves(s, s', t, pid);
    CallsInRange(s, pid);
    if Watched(s, pid) {
      forall u ensures UpdateUnderWay(s', u, pid) <==> UpdateUnderWay(s, u, pid) {
        if u != t {
          assert u in s.calls - {t} <==> u in s'.calls - {t};
          if u in s.calls && s.calls[u].Updating? {
            assert Ages(s.repo.objects[s.calls[u].id], s'.repo.objects[s.calls[u].id]);
            assert UpdateUnderWay(s, u, pid) ==> s.calls[u].id == s.repo.configurations[pid];
          }
        }
      }
      forall u | UpdateUnderWay(s, u, pid) ensures s'.calls[u] == s.calls[u] {
        assert u in s.calls - {t};
      }
    }
    FrameAll(s, s', pid);
  }

  /** Update's second critical section: the count is read and will be announced. */
  lemma PromiseKeeps(s: State, t: nat, pid: string)
    requires Orderly(s) && t in s.calls && s.calls[t].Updating? && PidSound(s, pid)
    ensures PidSound(Resume(s, t), pid)
    ensures forall k :: k in s.services && Agrees(s, k, pid) ==> Agrees(Resume(s, t), k, pid)
  {
    var s' := Resume(s, t);
    var id := s.calls[t].id;
    assert CallSound(s.repo, s.calls[t]);
    assert s'.calls - {t} == s.calls - {t};
    var c := s.repo.objects[id];
    if !c.attached || c.pid != pid {
      CallFrame(s, s', t, pid);
    } else {
      PromiseHere(s, t, pid);
    }
  }

  lemma PromiseHere(s: State, t: nat, pid: string)
    requires Orderly(s) && t in s.calls && s.calls[t].Updating? && PidSound(s, pid)
    requires s.calls[t].id < |s.repo.objects| && s.repo.objects[s.calls[t].id].attached && s.repo.objects[s.calls[t].id].pid == pid
    ensures PidSound(Resume(s, t), pid)
    ensures forall k :: k in s.services && Agrees(s, k, pid) ==> Agrees(Resume(s, t), k, pid)
  {
    var s' := Resume(s, t);
    var c := s.repo.objects[s.calls[t].id];
    assert UpdateUnderWay(s, t, pid);
    assert Promises(s'.calls[t], pid, c.changeCount);
    assert Announced(s', pid, c.changeCount);
    forall u, n: nat | u in s.calls && Promises(s.calls[u], pid, n) ensures u in s'.calls && Promises(s'.calls[u], pid, n) {
    }
    forall n: nat ensures Announced(s', pid, n) <==> Announced(s, pid, n) || n == c.changeCount {
      if Announced(s', pid, n) && !(exists x :: x in s'.queue && x.task == Announce(pid, n)) {
        var u :| u in s'.calls && Promises(s'.calls[u], pid, n);
        assert u != t ==> u in s.calls && Promises(s.calls[u], pid, n);
      }
    }
    forall u ensures UpdateUnderWay(s', u, pid) ==> UpdateUnderWay(s, u, pid) && s'.calls[u] == s.calls[u] {
    }
    assert PidSound(s', pid);
    forall k | k in s.services && Agrees(s, k, pid) ensures Agrees(s', k, pid) {
      assert HandWaits(s', k, pid) <==> HandWaits(s, k, pid);
      if !(Alive(s, pid) && Object(s, pid).changeCount > 0) {
        assert Promised(s', pid);
      }
    }
  }

  /** Remove's second critical section. */
  lemma EraseKeeps(s: State, t: nat, pid: string)
    requires Orderly(s) && t in s.calls && s.calls[t].Removing? && PidSound(s, pid)
    ensures PidSound(Resume(s, t), pid)
    ensures forall k :: k in s.services && Agrees(s, k, pid) ==> Agrees(Resume(s, t), k, pid)
  {
    var s', id := Resume(s, t), s.calls[t].id;
    assert CallSound(s.repo, s.calls[t]);
    assert s'.calls - {t} == s.calls - {t};
    if s'.repo.configurations == s.repo.configurations || s.repo.objects[id].pid != pid {
      EraseElsewhere(s, t, pid);
      hide Agrees, PidSound, Resume;
    } else {
      ErasedHere(s, t, pid);
      hide Agrees, PidSound, Resume;
      if s.repo.objects[id].changeCount > 0 {
        GoneWithNotice(s, s', pid);
      } else {
        CallMoves(s, s', t, pid);
        GoneSilently(s, s', pid);
      }
    }
  }

  lemma EraseElsewhere(s: State, t: nat, pid: string)
    requires Orderly(s) && t in s.calls && s.calls[t].Removing? && PidSound(s, pid)
    requires Resume(s, t).repo.configurations == s.repo.configurations || s.repo.objects[s.calls[t].id].pid != pid
    ensures PidSound(Resume(s, t), pid)
    ensures forall k :: k in s.services && Agrees(s, k, pid) ==> Agrees(Resume(s, t), k, pid)
  {
    ResumeEvolves(s, t);
    ErasedElsewhere(s, t, pid);
    ErasedCall(s, t, pid);
    hide Agrees, PidSound, Resume, Evolves, Elsewhere;
    CallFrame(s, Resume(s, t), t, pid);
  }

  lemma ErasedElsewhere(s: State, t: nat, pid: string)
    requires Orderly(s) && t in s.calls && s.calls[t].Removing?
    requires Resume(s, t).repo.configurations == s.repo.configurations || s.repo.objects[s.calls[t].id].pid != pid
    ensures Elsewhere(s.repo, Resume(s, t).repo, pid)
  {
    var id := s.calls[t].id;
    assert CallSound(s.repo, s.calls[t]) && Wired(s.repo);
    var c := s.repo.objects[id];
    hide Orderly, Elsewhere, Detach, Wired;
    StaysElsewhere(s.repo, pid);
    if c.attached {
      if c.pid in s.repo.configurations && s.repo.configurations[c.pid] == id {
        EraseOther(s.repo, c.pid, pid);
        WiredMap(s.repo, pid);
        DetachOther(Erase(s.repo, c.pid), id, pid);
        ElsewhereOn(s.repo, Erase(s.repo, c.pid), Detach(Erase(s.repo, c.pid), id), pid);
      } else {
        WiredMap(s.repo, pid);
        DetachOther(s.repo, id, pid);
      }
    }
  }

  lemma WiredMap(r: Repo, pid: string)
    requires Wired(r)
    ensures pid in r.configurations ==> r.configurations[pid] < |r.objects| && r.objects[r.configurations[pid]].pid == pid
  {
  }

  lemma StaysElsewhere(r: Repo, pid: string)
    requires Wired(r)
    ensures Elsewhere(r, r, pid)
  {
  }

  lemma EraseOther(r: Repo, other: string, pid: string)
    requires Wired(r) && other != pid
    ensures Wired(Erase(r, other)) && Elsewhere(r, Erase(r, other), pid)
  {
    hide RemoveInstance;
  }

  lemma DetachOther(r: Repo, id: nat, pid: string)
    requires Wired(r) && (pid in r.configurations ==> r.configurations[pid] != id)
    ensures Wired(Detach(r, id)) && Elsewhere(r, Detach(r, id), pid)
  {
  }

  lemma ElsewhereOn(a: Repo, b: Repo, c: Repo, pid: string)
    requires Wired(a) && Wired(b) && Wired(c) && Elsewhere(a, b, pid) && Elsewhere(b, c, pid)
    ensures Elsewhere(a, c, pid)
  {
  }

  lemma ErasedCall(s: State, t: nat, pid: string)
    requires Wired(s.repo) && t in s.calls && s.calls[t].Removing?
    requires Resume(s, t).repo.configurations == s.repo.configurations || s.repo.objects[s.calls[t].id].pid != pid
    ensures var s' := Resume(s, t);
            && s'.calls - {t} == s.calls - {t} && (t in s'.calls ==> s'.calls[t].Finishing?)
            && s'.services == s.services && s'.queue == s.queue && s'.worker == s.worker
            && forall n: nat :: (t in s'.calls && Promises(s'.calls[t], pid, n)) <==> Promises(s.calls[t], pid, n)
  {
    hide RemoveInstance, Wired;
    assert Resume(s, t).calls - {t} == s.calls - {t};
  }

  lemma ErasedHere(s: State, t: nat, pid: string)
    requires Orderly(s) && t in s.calls && s.calls[t].Removing?
    requires Resume(s, t).repo.configurations != s.repo.configurations && s.repo.objects[s.calls[t].id].pid == pid
    ensures var s', c := Resume(s, t), s.repo.objects[s.calls[t].id];
            && pid in s.repo.configurations && Object(s, pid) == c && pid !in s'.repo.configurations
            && s'.services == s.services && s'.queue == s.queue && s'.worker == s.worker
            && (forall n: nat :: (t in s'.calls && Promises(s'.calls[t], pid, n)) <==> c.changeCount > 0 && n == c.changeCount)
            && (c.changeCount > 0 ==> Promised(s', pid))
  {
    var s', c := Resume(s, t), s.repo.objects[s.calls[t].id];
    hide RemoveInstance, Orderly;
    if c.changeCount > 0 {
      assert s'.calls[t].posts[0] == Announce(pid, c.changeCount);
      assert Promises(s'.calls[t], pid, c.changeCount);
    }
  }

  lemma DetachKeeps(s: State, t: nat, id: nat, call: Call, pid: string)
    requires Orderly(s) && t in s.calls && s.calls[t].Finishing? && call.Finishing? && call.posts == s.calls[t].posts
    requires Unmapped(s.repo, id) && PidSound(s, pid)
    ensures Wired(Detach(s.repo, id))
    ensures var s' := s.(repo := Detach(s.repo, id), calls := s.calls[t := call]);
            PidSound(s', pid) && forall k :: k in s.services && Agrees(s, k, pid) ==> Agrees(s', k, pid)
  {
    var s' := s.(repo := Detach(s.repo, id), calls := s.calls[t := call]);
    assert s'.calls - {t} == s.calls - {t};
    SetObjectEvolves(s.repo, id, s.repo.objects[id].(attached := false));
    CallFrame(s, s', t, pid);
  }

  /** Posting moves a promise into the queue, behind everything else. */
  lemma PostKeeps(s: State, t: nat, pid: string)
    requires Orderly(s) && FuturesSound(s) && PidSound(s, pid)
    requires t in s.calls && s.calls[t].Finishing? && s.calls[t].posts != [] && !s.calls[t].posts[0].HandOver?
    requires s.calls[t].detach == []
    ensures PidSound(Resume(s, t), pid)
    ensures forall k :: k in s.services && Agrees(s, k, pid) ==> Agrees(Resume(s, t), k, pid)
  {
    var s' := Resume(s, t);
    forall n: nat ensures Announced(s', pid, n) <==> Announced(s, pid, n) {
      PostAnnounced(s, t, pid, n);
    }
    PostUpdates(s, t, pid);
    assert PidSound(s', pid);
    forall k | k in s.services && Agrees(s, k, pid) ensures Agrees(s', k, pid) {
      PostHands(s, t, k, pid);
      if Alive(s, pid) && Object(s, pid).changeCount > 0 {
        assert Coming(s, k, pid) ==> Coming(s', k, pid);
      } else if !Settled(s, k, pid) {
        PostKeepsRemovalComing(s, t, k, pid);
      }
    }
  }

  lemma PostUpdates(s: State, t: nat, pid: string)
    requires Wired(s.repo) && t in s.calls && s.calls[t].Finishing? && s.calls[t].posts != [] && s.calls[t].detach == []
    ensures forall u :: UpdateUnderWay(Resume(s, t), u, pid) <==> UpdateUnderWay(s, u, pid)
    ensures forall u :: UpdateUnderWay(s, u, pid) ==> Resume(s, t).calls[u] == s.calls[u]
  {
  }

  lemma PostHands(s: State, t: nat, k: nat, pid: string)
    requires Wired(s.repo) && FuturesSound(s) && k in s.services
    requires t in s.calls && s.calls[t].Finishing? && s.calls[t].posts != [] && !s.calls[t].posts[0].HandOver?
    requires s.calls[t].detach == []
    ensures HandWaits(Resume(s, t), k, pid) <==> HandWaits(s, k, pid)
    ensures pid in s.repo.configurations && HandFits(s, k, pid) ==> HandFits(Resume(s, t), k, pid)
  {
    var s' := Resume(s, t);
    var posted := Posted(s.futuresID + 1, s.calls[t].posts[0]);
    forall x ensures x in s'.queue <==> x in s.queue || x == posted {
      assert s'.queue == s.queue + [posted];
    }
  }

  lemma PostAnnounced(s: State, t: nat, pid: string, n: nat)
    requires Wired(s.repo) && t in s.calls && s.calls[t].Finishing? && s.calls[t].posts != [] && s.calls[t].detach == []
    ensures Announced(Resume(s, t), pid, n) <==> Announced(s, pid, n)
  {
    var s' := Resume(s, t);
    var posts := s.calls[t].posts;
    assert s'.queue[|s.queue|] == Posted(s.futuresID + 1, posts[0]);
    assert posts == [posts[0]] + posts[1..];
    if Announced(s, pid, n) {
      if x :| x in s.queue && x.task == Announce(pid, n) {
        assert x in s'.queue;
      } else {
        var u :| u in s.calls && Promises(s.calls[u], pid, n);
        if u != t || Announce(pid, n) in posts[1..] {
          assert Promises(s'.calls[u], pid, n);
        } else {
          assert s'.queue[|s.queue|] in s'.queue;
        }
      }
    }
    if Announced(s', pid, n) {
      if x :| x in s'.queue && x.task == Announce(pid, n) {
        assert x in s.queue || x == s'.queue[|s.queue|];
        if x !in s.queue { assert Promises(s.calls[t], pid, n); }
      } else {
        var u :| u in s'.calls && Promises(s'.calls[u], pid, n);
        assert Promises(s.calls[u], pid, n);
      }
    }
  }

  lemma PostKeepsRemovalComing(s: State, t: nat, k: nat, pid: string)
    requires Wired(s.repo) && FuturesSound(s) && k in s.services && RemovalComing(s, k, pid)
    requires t in s.calls && s.calls[t].Finishing? && s.calls[t].posts != [] && !s.calls[t].posts[0].HandOver?
    requires s.calls[t].detach == []
    ensures RemovalComing(Resume(s, t), k, pid)
  {
    var s' := Resume(s, t);
    var posts := s.calls[t].posts;
    var posted := Posted(s.futuresID + 1, posts[0]);
    assert posts == [posts[0]] + posts[1..];
    assert s'.queue[|s.queue|] == posted && posted in s'.queue;
    forall y | y in s'.queue && IsHand(y, k, pid) ensures y in s.queue && y.id < posted.id {
    }
    if Promised(s, pid) {
      var u, n: nat :| u in s.calls && Promises(s.calls[u], pid, n);
      if u != t || Announce(pid, n) in posts[1..] {
        assert Promises(s'.calls[u], pid, n);
      } else {
        assert IsNews(posted, pid);
      }
    } else if x :| x in s.queue && IsNews(x, pid) && forall y :: y in s.queue && IsHand(y, k, pid) ==> y.id < x.id {
      assert x in s'.queue;
    }
  }

  lemma ResumeKeeps(s: State, t: nat, pid: string)
    requires Orderly(s) && FuturesSound(s) && KeysSound(s) && t in s.calls && PidSound(s, pid)
    ensures PidSound(Resume(s, t), pid)
    ensures forall k :: k in s.services && Agrees(s, k, pid) ==> Agrees(Resume(s, t), k, pid)
  {
    assert CallSound(s.repo, s.calls[t]);
    match s.calls[t]
    case Updating(_) => PromiseKeeps(s, t, pid);
    case Removing(_) => EraseKeeps(s, t, pid);
    case Finishing(detach, posts) =>
      if detach != [] {
        DetachKeeps(s, t, detach[0], Finishing(detach[1..], posts), pid);
      } else if posts != [] {
        PostKeeps(s, t, pid);
      } else {
        assert Resume(s, t).calls - {t} == s.calls - {t};
        CallFrame(s, Resume(s, t), t, pid);
      }
  }
}
