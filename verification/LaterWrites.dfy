/** Whether later writes reach a service: from any state in which a PID leads to a live object, the exact
    condition under which every write that follows is handed over, whatever else happens meanwhile. */
module LaterWrites {
  import opened Pids
  import opened Repository
  import opened Engine
  import opened Evolution
  import opened Protocol
  import opened Agreement
  import opened Progress
  import opened LastWords
  import AgreementRuns
  import AgreementSteps
  import Undo

  function Top(b: nat): nat {
    if b > 0 then b else 1
  }

  ghost predicate HandIn(queue: seq<Posted>, k: nat, pid: string) {
    exists j :: 0 <= j < |queue| && IsHand(queue[j], k, pid)
  }

  /** No announcement ahead of a first hand-over says more than b. */
  predicate HandsAhead(queue: seq<Posted>, k: nat, pid: string, b: nat) {
    forall i, j :: 0 <= i < j < |queue| && IsNews(queue[i], pid) && IsHand(queue[j], k, pid) ==>
      queue[i].task.changeCount <= b
  }

  predicate NewsUpTo(queue: seq<Posted>, pid: string, top: nat) {
    forall i :: 0 <= i < |queue| && IsNews(queue[i], pid) ==> queue[i].task.changeCount <= top
  }

  /** What can be checked of the service, the queue, the worker and the calls under way: nothing that they
      still hold about the PID is ahead of an object with count b. */
  ghost predicate NothingStale(s: State, k: nat, pid: string, b: nat)
    requires k in s.services
  {
    && AfterTask(s, k, pid).last <= b
    && NewsUpTo(s.queue, pid, Top(b))
    && (forall n: nat :: Pending(s, pid, n) ==> n <= Top(b))
    && HandsAhead(s.queue, k, pid, b)
  }

  ghost predicate Safe(s: State, k: nat, pid: string)
    requires Wired(s.repo) && k in s.services && pid in s.repo.configurations
  {
    NothingStale(s, k, pid, Object(s, pid).changeCount)
  }

  // ---- what a safe life keeps ----------------------------------------------------------------

  /** The current count is promised, or will be read and promised. */
  ghost predicate Owed(s: State, pid: string)
    requires Wired(s.repo) && pid in s.repo.configurations
  {
    || (exists t :: t in s.calls && Promises(s.calls[t], pid, Object(s, pid).changeCount))
    || (exists t :: UpdateUnderWay(s, t, pid) && s.calls[t].id == s.repo.configurations[pid])
  }

  predicate InQueue(queue: seq<Posted>, pid: string, n: nat) {
    exists i :: 0 <= i < |queue| && queue[i].task == Announce(pid, n)
  }

  predicate FitsWord(m: Mind, c: Config) {
    && m.word.Said? && m.word.what.Updated? && m.last <= m.word.what.version
    && Fits(Snapshot(m.word.what.properties, m.word.what.version), c)
  }

  /** The count was b when the life began. */
  ghost predicate Life(s: State, k: nat, pid: string, b: nat)
    requires Following(s, k, pid)
  {
    var m, c := AfterTask(s, k, pid), Object(s, pid);
    && b <= c.changeCount && m.last <= c.changeCount
    && NewsUpTo(s.queue, pid, Top(c.changeCount))
    && (forall n: nat :: Pending(s, pid, n) ==> n <= Top(c.changeCount))
    && HandsAhead(s.queue, k, pid, b)
    && (HandIn(s.queue, k, pid) ==> m.last <= b)
    && (c.changeCount > b ==> m.last == c.changeCount || InQueue(s.queue, pid, c.changeCount) || Owed(s, pid))
    && (!HandIn(s.queue, k, pid) && m.last > b ==> FitsWord(m, c))
  }

  lemma SafeBegins(s: State, k: nat, pid: string)
    requires Following(s, k, pid) && Safe(s, k, pid)
    ensures Life(s, k, pid, Object(s, pid).changeCount)
  {
  }

  lemma LifeEnds(s: State, k: nat, pid: string, b: nat)
    requires AtRest(s, k, pid) && Life(s, k, pid, b) && Object(s, pid).changeCount > b
    ensures InAgreement(s, k, pid)
  {
    assert !HandIn(s.queue, k, pid);
    assert !Owed(s, pid);
  }

  // ---- the worker and the rest of calls ------------------------------------------------------

  lemma TakeKeepsLife(s: State, k: nat, pid: string, b: nat)
    requires Following(s, k, pid) && Life(s, k, pid, b) && s.queue != [] && s.worker.Idle?
    requires SameLife(s, Take(s), k, pid)
    ensures Life(Take(s), k, pid, b)
  {
    var s', c, head := Take(s), Object(s, pid), s.queue[0];
    var m, m' := AfterTask(s, k, pid), AfterTask(s', k, pid);
    TakeHears(s, k, pid);
    SamePending(s, s', pid);
    assert forall i :: 0 <= i < |s'.queue| ==> s'.queue[i] == s.queue[i + 1];
    assert HandIn(s'.queue, k, pid) ==> HandIn(s.queue, k, pid);
    assert HandIn(s.queue, k, pid) ==> HandIn(s'.queue, k, pid) || IsHand(head, k, pid);
    if Owed(s, pid) {
      assert Owed(s', pid);
    }
    if InQueue(s.queue, pid, c.changeCount) {
      assert InQueue(s'.queue, pid, c.changeCount) || head.task == Announce(pid, c.changeCount);
    }
  }

  lemma FinishKeepsLife(s: State, k: nat, pid: string, b: nat)
    requires Following(s, k, pid) && Life(s, k, pid, b) && s.worker.Busy?
    requires SameLife(s, Finish(s), k, pid)
    ensures Life(Finish(s), k, pid, b)
  {
    SamePending(s, Finish(s), pid);
    assert AfterTask(Finish(s), k, pid) == AfterTask(s, k, pid);
    if Owed(s, pid) {
      assert Owed(Finish(s), pid);
    }
  }

  lemma PostKeepsLife(s: State, t: nat, k: nat, pid: string, b: nat)
    requires Following(s, k, pid) && Life(s, k, pid, b)
    requires t in s.calls && s.calls[t].Finishing? && s.calls[t].detach == [] && s.calls[t].posts != []
    requires SameLife(s, Resume(s, t), k, pid)
    ensures Life(Resume(s, t), k, pid, b)
  {
    var s', n := Resume(s, t), Object(s, pid).changeCount;
    var posted := Posted(s.futuresID + 1, s.calls[t].posts[0]);
    assert posted.task in s.calls[t].posts;
    assert s'.queue == s.queue + [posted] && s'.services == s.services && s'.worker == s.worker;
    PostPending(s, t, pid);
    assert AfterTask(s', k, pid) == AfterTask(s, k, pid);
    if Owed(s, pid) {
      PostKeepsOwed(s, t, pid);
    }
    assert IsNews(posted, pid) ==> Pending(s, pid, posted.task.changeCount);
    hide Resume, Orderly, Owed, Pending;
    PostedLast(s.queue, posted, k, pid, b, n);
  }

  lemma PostedLast(queue: seq<Posted>, x: Posted, k: nat, pid: string, b: nat, n: nat)
    requires !IsHand(x, k, pid)
    ensures NewsUpTo(queue + [x], pid, Top(n)) <==>
              NewsUpTo(queue, pid, Top(n)) && (IsNews(x, pid) ==> x.task.changeCount <= Top(n))
    ensures HandsAhead(queue + [x], k, pid, b) <==> HandsAhead(queue, k, pid, b)
    ensures HandIn(queue + [x], k, pid) <==> HandIn(queue, k, pid)
    ensures InQueue(queue, pid, n) ==> InQueue(queue + [x], pid, n)
  {
    var longer := queue + [x];
    assert longer[|queue|] == x && forall i :: 0 <= i < |queue| ==> longer[i] == queue[i];
    if j :| 0 <= j < |queue| && IsHand(queue[j], k, pid) { assert IsHand(longer[j], k, pid); }
    if i :| 0 <= i < |queue| && queue[i].task == Announce(pid, n) {
      assert longer[i].task == Announce(pid, n);
    }
  }

  lemma PostKeepsOwed(s: State, t: nat, pid: string)
    requires Wired(s.repo) && pid in s.repo.configurations
    requires t in s.calls && s.calls[t].Finishing? && s.calls[t].detach == [] && s.calls[t].posts != []
    requires Owed(s, pid)
    ensures var n := Object(s, pid).changeCount;
            Owed(Resume(s, t), pid) || InQueue(Resume(s, t).queue, pid, n)
  {
    var s', n, posts := Resume(s, t), Object(s, pid).changeCount, s.calls[t].posts;
    assert posts == [posts[0]] + posts[1..];
    if u :| u in s.calls && Promises(s.calls[u], pid, n) {
      if u != t || Announce(pid, n) in posts[1..] {
        assert Promises(s'.calls[u], pid, n);
      } else {
        assert s'.queue[|s.queue|].task == Announce(pid, n);
      }
    } else {
      var u :| UpdateUnderWay(s, u, pid) && s.calls[u].id == s.repo.configurations[pid];
      assert UpdateUnderWay(s', u, pid);
    }
  }

  lemma MoveKeepsLife(s: State, t: nat, k: nat, pid: string, b: nat)
    requires Following(s, k, pid) && Life(s, k, pid, b)
    requires t in s.calls && Resume(s, t).queue == s.queue
    requires SameLife(s, Resume(s, t), k, pid)
    requires Resume(s, t).services == s.services && Resume(s, t).worker == s.worker
    ensures Life(Resume(s, t), k, pid, b)
  {
    var s' := Resume(s, t);
    forall n: nat | Pending(s', pid, n) ensures Pending(s, pid, n) {
      MoveBack(s, t, pid, n);
    }
    assert AfterTask(s', k, pid) == AfterTask(s, k, pid);
    if Owed(s, pid) {
      MoveKeepsOwed(s, t, pid);
    }
  }

  lemma MoveKeepsOwed(s: State, t: nat, pid: string)
    requires Orderly(s) && Alive(s, pid) && t in s.calls && Resume(s, t).queue == s.queue && Owed(s, pid)
    requires pid in Resume(s, t).repo.configurations && Object(Resume(s, t), pid) == Object(s, pid)
    requires Resume(s, t).repo.configurations[pid] == s.repo.configurations[pid]
    ensures Owed(Resume(s, t), pid)
  {
    var n := Object(s, pid).changeCount;
    hide Resume, Orderly, Alive;
    if u :| u in s.calls && Promises(s.calls[u], pid, n) {
      PromiseMoves(s, t, u, pid, n);
    } else {
      var u :| UpdateUnderWay(s, u, pid) && s.calls[u].id == s.repo.configurations[pid];
      if u == t {
        UpdatePromises(s, t, pid);
      } else {
        UpdateStays(s, t, u, pid);
      }
    }
  }

  lemma WorkKeepsLife(s: State, a: Act, k: nat, pid: string, b: nat)
    requires Following(s, k, pid) && Life(s, k, pid, b) && FinishesWork(a)
    ensures Following(Next(s, a), k, pid) && Life(Next(s, a), k, pid, b)
  {
    FinishingKeepsLife(s, a, k, pid);
    hide Life, Orderly, KeysSound, Take, Finish, Resume;
    match a {
      case Continue(t) =>
        if t in s.calls {
          ResumeKeepsObject(s, t, pid);
          ResumeKeepsLife(s, t, k, pid, b);
        }
      case TakeTask =>
        if s.queue != [] && s.worker.Idle? { TakeKeepsLife(s, k, pid, b); }
      case FinishTask =>
        if s.worker.Busy? { FinishKeepsLife(s, k, pid, b); }
    }
  }

  lemma ResumeKeepsLife(s: State, t: nat, k: nat, pid: string, b: nat)
    requires Following(s, k, pid) && Life(s, k, pid, b) && t in s.calls && SameLife(s, Resume(s, t), k, pid)
    ensures Life(Resume(s, t), k, pid, b)
  {
    ResumeKeepsObject(s, t, pid);
    hide Life, Orderly, KeysSound;
    if s.calls[t].Finishing? && s.calls[t].detach == [] && s.calls[t].posts != [] {
      PostKeepsLife(s, t, k, pid, b);
    } else {
      MoveKeepsLife(s, t, k, pid, b);
    }
  }

  // ---- steps of clients ----------------------------------------------------------------------

  /** The call that a step starts, if it starts one. */
  ghost predicate Starts(s: State, s': State, t: nat) {
    s'.calls == s.calls || (t !in s.calls && t in s'.calls && s'.calls - {t} == s.calls)
  }

  /** Whatever a step of a client does to the object, it announces or will announce: the counts it announces
      are new ones, and the newest is among them. */
  ghost predicate Announces(s: State, s': State, t: nat, pid: string)
    requires Wired(s.repo) && Wired(s'.repo) && pid in s.repo.configurations && pid in s'.repo.configurations
  {
    var c, c' := Object(s, pid), Object(s', pid);
    && c.changeCount <= c'.changeCount
    && (c'.changeCount == c.changeCount ==> c' == c)
    && (t !in s.calls && t in s'.calls ==>
          && (forall n: nat :: Promises(s'.calls[t], pid, n) ==> c.changeCount < n <= c'.changeCount)
          && (UpdateUnderWay(s', t, pid) ==> s'.calls[t].id == s'.repo.configurations[pid]))
    && (c'.changeCount > c.changeCount ==>
          && t !in s.calls && t in s'.calls
          && (Promises(s'.calls[t], pid, c'.changeCount) || UpdateUnderWay(s', t, pid)))
  }

  /** Objects of the PID other than the mapped one are frozen. */
  lemma OthersAreFrozen(s: State, s': State, u: nat, pid: string)
    requires Orderly(s) && Alive(s, pid) && Evolves(s.repo, s'.repo)
    requires u in s.calls && u in s'.calls && s'.calls[u] == s.calls[u] && UpdateUnderWay(s', u, pid)
    ensures UpdateUnderWay(s, u, pid)
    ensures s.calls[u].id == s.repo.configurations[pid]
            || s'.repo.objects[s.calls[u].id].changeCount == s.repo.objects[s.calls[u].id].changeCount
  {
    var id := s.calls[u].id;
    assert CallSound(s.repo, s.calls[u]);
    assert Ages(s.repo.objects[id], s'.repo.objects[id]);
    if id != s.repo.configurations[pid] {
      assert Unmapped(s.repo, id);
    }
  }

  lemma ClientPending(s: State, s': State, t: nat, pid: string, n: nat)
    requires Orderly(s) && Wired(s'.repo) && Alive(s, pid) && Evolves(s.repo, s'.repo) && Starts(s, s', t)
    requires pid in s'.repo.configurations && s'.repo.configurations[pid] == s.repo.configurations[pid]
    requires Announces(s, s', t, pid) && Pending(s', pid, n)
    ensures Pending(s, pid, n) || n <= Object(s', pid).changeCount
  {
    if u :| u in s'.calls && Promises(s'.calls[u], pid, n) {
      if u in s.calls {
        assert u in s'.calls - {t} || s'.calls == s.calls;
        assert Promises(s.calls[u], pid, n);
      } else {
        assert u == t;
      }
    } else {
      var u :| UpdateUnderWay(s', u, pid) && s'.repo.objects[s'.calls[u].id].changeCount == n;
      if u in s.calls {
        assert u in s'.calls - {t} || s'.calls == s.calls;
        OthersAreFrozen(s, s', u, pid);
      } else {
        assert u == t;
      }
    }
  }

  lemma ClientOwes(s: State, s': State, t: nat, pid: string)
    requires Orderly(s) && Orderly(s') && Alive(s, pid) && Alive(s', pid) && Starts(s, s', t)
    requires s'.repo.configurations[pid] == s.repo.configurations[pid]
    requires Announces(s, s', t, pid)
    requires Object(s', pid).changeCount > Object(s, pid).changeCount || Owed(s, pid)
    ensures Owed(s', pid)
  {
    var c, c' := Object(s, pid), Object(s', pid);
    if c'.changeCount == c.changeCount {
      if u :| u in s.calls && Promises(s.calls[u], pid, c.changeCount) {
        assert u in s'.calls - {t} || s'.calls == s.calls;
        assert Promises(s'.calls[u], pid, c'.changeCount);
      } else {
        var u :| UpdateUnderWay(s, u, pid) && s.calls[u].id == s.repo.configurations[pid];
        assert u in s'.calls - {t} || s'.calls == s.calls;
        assert UpdateUnderWay(s', u, pid);
      }
    }
  }

  /** The queue stays, or a first hand-over for another service joins it. */
  ghost predicate QueueFor(s: State, s': State, k: nat) {
    s'.queue == s.queue
    || (s'.queue != [] && s'.queue[..|s'.queue| - 1] == s.queue
        && s'.queue[|s.queue|].task.HandOver? && s'.queue[|s.queue|].task.service != k)
  }

  lemma ClientKeepsLife(s: State, s': State, t: nat, k: nat, pid: string, b: nat)
    requires Following(s, k, pid) && Following(s', k, pid) && Life(s, k, pid, b)
    requires s'.repo.configurations[pid] == s.repo.configurations[pid] && Evolves(s.repo, s'.repo)
    requires Starts(s, s', t) && Announces(s, s', t, pid) && QueueFor(s, s', k)
    requires AfterTask(s', k, pid) == AfterTask(s, k, pid)
    ensures Life(s', k, pid, b)
  {
    var c, c' := Object(s, pid), Object(s', pid);
    forall n: nat | Pending(s', pid, n) ensures n <= Top(c'.changeCount) {
      ClientPending(s, s', t, pid, n);
    }
    if Object(s', pid).changeCount > Object(s, pid).changeCount || Owed(s, pid) {
      ClientOwes(s, s', t, pid);
    }
    hide Owed, Pending, Orderly, KeysSound, Announces, Starts;
    QueueKeeps(s, s', k, pid, b, c.changeCount, c'.changeCount);
  }

  lemma QueueKeeps(s: State, s': State, k: nat, pid: string, b: nat, n: nat, n': nat)
    requires QueueFor(s, s', k) && n <= n'
    ensures NewsUpTo(s.queue, pid, Top(n)) ==> NewsUpTo(s'.queue, pid, Top(n'))
    ensures HandsAhead(s.queue, k, pid, b) ==> HandsAhead(s'.queue, k, pid, b)
    ensures HandIn(s'.queue, k, pid) <==> HandIn(s.queue, k, pid)
    ensures InQueue(s.queue, pid, n) ==> InQueue(s'.queue, pid, n)
  {
    assert forall i :: 0 <= i < |s.queue| ==> s'.queue[i] == s.queue[i];
    if j :| 0 <= j < |s.queue| && IsHand(s.queue[j], k, pid) {
      assert IsHand(s'.queue[j], k, pid);
    }
    if i :| 0 <= i < |s.queue| && s.queue[i].task == Announce(pid, n) {
      assert s'.queue[i].task == Announce(pid, n);
    }
  }

  // ---- which act does what -------------------------------------------------------------------

  /** A batch of additions announces its writes to a live object, the last one included. */
  lemma {:induction false} AddAllAnnounces(r: Repo, metadata: seq<Metadata>, pid: string)
    requires Wired(r) && pid in r.configurations && !r.objects[r.configurations[pid]].removed
    ensures var a, c := AddAll(r, metadata), r.objects[r.configurations[pid]];
            && pid in a.repo.configurations && a.repo.configurations[pid] == r.configurations[pid]
            && var c' := a.repo.objects[r.configurations[pid]];
            && !c'.removed && c.changeCount <= c'.changeCount && (c'.changeCount == c.changeCount ==> c' == c)
            && (forall q :: q in a.notices && q.pid == pid ==> c.changeCount < q.changeCount <= c'.changeCount)
            && (c'.changeCount > c.changeCount ==> Notice(pid, c'.changeCount) in a.notices)
  {
    if metadata != [] {
      var n := |metadata| - 1;
      AddAllAnnounces(r, metadata[..n], pid);
      var before, m := AddAll(r, metadata[..n]), metadata[n];
      if m.pid != pid || !AddOne(before.repo, m).changed {
        AddOneElsewhere(before.repo, m, pid);
      } else {
        AddOneHere(before.repo, m);
      }
      AddOneReceipt(before.repo, m);
      hide AddOne;
    }
  }

  /** A batch of removals that leaves the PID mapped has nothing to say about it. */
  lemma {:induction false} RemoveAllIsSilent(r: Repo, receipts: seq<Receipt>, pid: string)
    requires Wired(r) && pid in RemoveAll(r, receipts).repo.configurations
    ensures pid in r.configurations && forall q :: q in RemoveAll(r, receipts).notices ==> q.pid != pid
  {
    if receipts != [] {
      var n := |receipts| - 1;
      var before := RemoveAll(r, receipts[..n]);
      RemoveAllIsSilent(r, receipts[..n], pid);
    }
  }

  lemma BatchPromises(notices: seq<Notice>, detached: seq<nat>, pid: string, n: nat)
    ensures Promises(Finishing(detached, Announcements(notices)), pid, n) <==> Notice(pid, n) in notices
  {
    if Notice(pid, n) in notices {
      var i :| 0 <= i < |notices| && notices[i] == Notice(pid, n);
      assert Announcements(notices)[i] == Announce(pid, n);
    }
    if Announce(pid, n) in Announcements(notices) {
      var i :| 0 <= i < |notices| && Announcements(notices)[i] == Announce(pid, n);
      assert notices[i] == Notice(pid, n);
    }
  }

  predicate ClientAct(a: Act) {
    !FinishesWork(a)
  }

  function ThreadOf(a: Act): nat {
    if a.Update? || a.UpdateIfDifferent? || a.Remove? || a.AddConfigurations? || a.RemoveConfigurations? then a.thread
    else 0
  }

  ghost predicate StillMapped(s: State, s': State, pid: string)
    requires Wired(s.repo) && pid in s.repo.configurations
  {
    && Wired(s'.repo) && Alive(s', pid) && s'.repo.configurations[pid] == s.repo.configurations[pid]
  }

  lemma NothingAnnounced(s: State, s': State, t: nat, pid: string)
    requires Wired(s.repo) && Wired(s'.repo) && pid in s.repo.configurations && pid in s'.repo.configurations
    requires s'.calls == s.calls && Object(s', pid) == Object(s, pid)
    ensures Starts(s, s', t) && Announces(s, s', t, pid)
  {
  }

  lemma AdditionAnnounces(s: State, t: nat, metadata: seq<Metadata>, pid: string)
    requires Orderly(s) && Alive(s, pid) && StillMapped(s, Next(s, AddConfigurations(t, metadata)), pid)
    ensures var s' := Next(s, AddConfigurations(t, metadata)); Starts(s, s', t) && Announces(s, s', t, pid)
  {
    hide AddAll, Announcements, Announces, Starts, Resume, Take, Finish;
    if t in s.calls {
      NothingAnnounced(s, s, t, pid);
    } else {
      var all := AddAll(s.repo, metadata);
      AddAllAnnounces(s.repo, metadata, pid);
      BatchAnnounces(s, t, all.repo, all.detached, all.notices, pid);
    }
  }

  lemma RemovalAnnounces(s: State, t: nat, receipts: seq<Receipt>, pid: string)
    requires Orderly(s) && Alive(s, pid) && StillMapped(s, Next(s, RemoveConfigurations(t, receipts)), pid)
    ensures var s' := Next(s, RemoveConfigurations(t, receipts)); Starts(s, s', t) && Announces(s, s', t, pid)
  {
    hide RemoveAll, Announcements, Announces, Starts, Resume, Take, Finish;
    if t in s.calls {
      NothingAnnounced(s, s, t, pid);
    } else {
      var all := RemoveAll(s.repo, receipts);
      Undo.RemoveAllExactly(s.repo, receipts, pid);
      RemoveAllIsSilent(s.repo, receipts, pid);
      BatchAnnounces(s, t, all.repo, all.detached, all.notices, pid);
    }
  }

  /** A batch that has a notice for every change announces what it does. */
  lemma BatchAnnounces(s: State, t: nat, r: Repo, detached: seq<nat>, notices: seq<Notice>, pid: string)
    requires t !in s.calls && Wired(s.repo) && Wired(r) && pid in s.repo.configurations && pid in r.configurations
    requires var c, c' := s.repo.objects[s.repo.configurations[pid]], r.objects[r.configurations[pid]];
             && c.changeCount <= c'.changeCount && (c'.changeCount == c.changeCount ==> c' == c)
             && (forall q :: q in notices && q.pid == pid ==> c.changeCount < q.changeCount <= c'.changeCount)
             && (c'.changeCount > c.changeCount ==> Notice(pid, c'.changeCount) in notices)
    ensures var s' := s.(repo := r, calls := s.calls[t := Finishing(detached, Announcements(notices))]);
            Starts(s, s', t) && Announces(s, s', t, pid)
  {
    var s' := s.(repo := r, calls := s.calls[t := Finishing(detached, Announcements(notices))]);
    assert s'.calls - {t} == s.calls;
    forall n: nat ensures Promises(s'.calls[t], pid, n) <==> Notice(pid, n) in notices {
      BatchPromises(notices, detached, pid, n);
    }
    hide Announcements, Promises;
  }

  lemma ClientAnnounces(s: State, a: Act, pid: string)
    requires Orderly(s) && Alive(s, pid) && ClientAct(a) && StillMapped(s, Next(s, a), pid)
    ensures Starts(s, Next(s, a), ThreadOf(a)) && Announces(s, Next(s, a), ThreadOf(a), pid)
  {
    hide Starts, Announces, Resume, Take, Finish;
    if a.AddConfigurations? {
      AdditionAnnounces(s, a.thread, a.metadata, pid);
    } else if a.RemoveConfigurations? {
      RemovalAnnounces(s, a.thread, a.receipts, pid);
    } else if Next(s, a) == s {
      NothingAnnounced(s, s, ThreadOf(a), pid);
    } else if a.Update? || a.UpdateIfDifferent? || a.Remove? {
      OneCallAnnounces(s, a, pid);
    } else {
      assert Wired(s.repo);
      OthersAnnounceNothing(s, a, pid);
    }
  }

  lemma OthersAnnounceNothing(s: State, a: Act, pid: string)
    requires Wired(s.repo) && Alive(s, pid) && StillMapped(s, Next(s, a), pid)
    requires a.GetConfiguration? || a.CreateFactoryConfiguration? || a.AddManagedService? || a.AddManagedServiceFactory?
             || a.RemoveService?
    ensures Starts(s, Next(s, a), 0) && Announces(s, Next(s, a), 0, pid)
  {
    hide AddAll, RemoveAll, Resume, Take, Finish, Instances, AddInstance, Starts, Announces;
    assert Next(s, a).calls == s.calls;
    assert Object(Next(s, a), pid) == Object(s, pid);
    NothingAnnounced(s, Next(s, a), 0, pid);
  }

  lemma OneCallAnnounces(s: State, a: Act, pid: string)
    requires Orderly(s) && Alive(s, pid) && (a.Update? || a.UpdateIfDifferent? || a.Remove?)
    requires StillMapped(s, Next(s, a), pid) && Next(s, a) != s
    ensures Starts(s, Next(s, a), a.thread) && Announces(s, Next(s, a), a.thread, pid)
  {
    hide AddAll, RemoveAll, Resume, Take, Finish, Starts, Announces, MapSound;
    match a
    case Update(t, id, properties) =>
      EnterAnnounces(s, t, id, Write(s.repo.objects[id], properties), Updating(id), pid);
    case UpdateIfDifferent(t, id, properties) =>
      EnterAnnounces(s, t, id, Write(s.repo.objects[id], properties), Updating(id), pid);
    case Remove(t, id) =>
      EnterAnnounces(s, t, id, s.repo.objects[id].(removed := true), Removing(id), pid);
  }

  /** A call that leaves a written object will announce it, and one that removes it announces nothing yet. */
  lemma EnterAnnounces(s: State, t: nat, id: nat, c: Config, call: Call, pid: string)
    requires Wired(s.repo) && MapSound(s.repo) && Alive(s, pid) && Callable(s, t, id)
    requires c.pid == s.repo.objects[id].pid && c.attached == s.repo.objects[id].attached
    requires (call == Updating(id) && c.changeCount == s.repo.objects[id].changeCount + 1)
             || (call == Removing(id) && c.removed)
    requires StillMapped(s, Enter(s, t, id, c, call), pid)
    ensures Starts(s, Enter(s, t, id, c, call), t) && Announces(s, Enter(s, t, id, c, call), t, pid)
  {
    assert Enter(s, t, id, c, call).calls - {t} == s.calls;
    assert !Unmapped(s.repo, id);
  }

  lemma ClientQueue(s: State, a: Act, k: nat, pid: string)
    requires Wired(s.repo) && KeysSound(s) && ClientAct(a) && k in s.services && k in Next(s, a).services
    ensures QueueFor(s, Next(s, a), k)
    ensures Next(s, a).services[k] == s.services[k] && AfterTask(Next(s, a), k, pid) == AfterTask(s, k, pid)
  {
    if a.AddManagedService? || a.AddManagedServiceFactory? {
      TrackingQueue(s, a, k);
      hide Next, QueueFor;
    } else {
      hide AddAll, RemoveAll, AddManaged, AddFactory, Resume, Take, Finish, Register;
      var s' := Next(s, a);
      assert s'.queue == s.queue && s'.worker == s.worker && s'.services[k] == s.services[k];
    }
  }

  lemma TrackingQueue(s: State, a: Act, k: nat)
    requires Wired(s.repo) && KeysSound(s) && k in s.services && (a.AddManagedService? || a.AddManagedServiceFactory?)
    ensures var s' := Next(s, a);
            QueueFor(s, s', k) && s'.worker == s.worker && k in s'.services && s'.services[k] == s.services[k]
  {
    hide Instances;
    var s' := Next(s, a);
    if s'.queue != s.queue {
      assert s'.queue == s.queue + [s'.queue[|s.queue|]];
      assert s'.queue[..|s'.queue| - 1] == s.queue;
    }
  }

  /** Every step that leaves the PID on the same live object keeps its life safe. */
  lemma NextKeepsLife(s: State, a: Act, k: nat, pid: string, b: nat)
    requires Following(s, k, pid) && Life(s, k, pid, b)
    requires k in Next(s, a).services && StillMapped(s, Next(s, a), pid)
    ensures Following(Next(s, a), k, pid) && Life(Next(s, a), k, pid, b)
  {
    if FinishesWork(a) {
      WorkKeepsLife(s, a, k, pid, b);
    } else {
      NextKeepsProtocol(s, a);
      AgreementRuns.NextKeepsKeys(s, a);
      ClientQueue(s, a, k, pid);
      ClientAnnounces(s, a, pid);
      NextEvolves(s, a);
      hide Life, Orderly, KeysSound, Announces, Starts, QueueFor, Evolves, AfterTask;
      ClientKeepsLife(s, Next(s, a), ThreadOf(a), k, pid, b);
    }
  }

  // ---- over runs -----------------------------------------------------------------------------

  /** The PID was on this object before, and the service was there. */
  lemma Before(s: State, a: Act, id: nat, k: nat, pid: string)
    requires Orderly(s) && KeysSound(s) && id < |s.repo.objects| && k < s.nextService
    requires Alive(Next(s, a), pid) && Next(s, a).repo.configurations[pid] == id && k in Next(s, a).services
    ensures Alive(s, pid) && s.repo.configurations[pid] == id && k in s.services && s.nextService <= Next(s, a).nextService
  {
    NextEvolves(s, a);
    ServiceBefore(s, a, k);
    assert Ages(s.repo.objects[id], Next(s, a).repo.objects[id]);
    hide Next;
    assert !Unmapped(s.repo, id);
  }

  lemma ServiceBefore(s: State, a: Act, k: nat)
    requires Wired(s.repo) && k < s.nextService && k in Next(s, a).services
    ensures k in s.services && s.nextService <= Next(s, a).nextService
  {
    hide AddAll, RemoveAll, Register, Instances, ReadFor;
  }

  lemma {:induction false} RunKeepsLife(s: State, acts: seq<Act>, k: nat, pid: string, b: nat)
    requires Following(s, k, pid) && Life(s, k, pid, b)
    requires k in Run(s, acts).services && StillMapped(s, Run(s, acts), pid)
    ensures Following(Run(s, acts), k, pid) && Life(Run(s, acts), k, pid, b)
    ensures s.nextService <= Run(s, acts).nextService
  {
    if acts != [] {
      var n := |acts| - 1;
      var before := Run(s, acts[..n]);
      RunStaysSound(s, acts[..n]);
      RunEvolves(s, acts[..n]);
      Before(before, acts[n], s.repo.configurations[pid], k, pid);
      RunKeepsLife(s, acts[..n], k, pid, b);
      NextKeepsLife(before, acts[n], k, pid, b);
    }
  }

  lemma {:induction false} RunStaysSound(s: State, acts: seq<Act>)
    requires Orderly(s) && KeysSound(s)
    ensures Orderly(Run(s, acts)) && KeysSound(Run(s, acts)) && s.nextService <= Run(s, acts).nextService
  {
    if acts != [] {
      var n := |acts| - 1;
      RunStaysSound(s, acts[..n]);
      NextKeepsProtocol(Run(s, acts[..n]), acts[n]);
      AgreementRuns.NextKeepsKeys(Run(s, acts[..n]), acts[n]);
      KeysGrow(Run(s, acts[..n]), acts[n]);
    }
  }

  lemma KeysGrow(s: State, a: Act)
    requires Wired(s.repo)
    ensures s.nextService <= Next(s, a).nextService
  {
    hide AddAll, RemoveAll, Register, Instances, ReadFor;
  }

  /** At the end of the run everything is at rest, and the object has been written to since. */
  ghost predicate WrittenAndAtRest(s: State, acts: seq<Act>, k: nat, pid: string)
    requires Following(s, k, pid)
  {
    var s' := Run(s, acts);
    && Quiescent(s') && k in s'.services && StillMapped(s, s', pid)
    && Object(s', pid).changeCount > Object(s, pid).changeCount
  }

  /** From a safe state every write reaches the service, whatever anybody does meanwhile. */
  lemma LaterWritesArrive(s: State, acts: seq<Act>, k: nat, pid: string)
    requires Following(s, k, pid) && Safe(s, k, pid) && WrittenAndAtRest(s, acts, k, pid)
    ensures InAgreement(Run(s, acts), k, pid)
  {
    SafeBegins(s, k, pid);
    RunKeepsLife(s, acts, k, pid, Object(s, pid).changeCount);
    LifeEnds(Run(s, acts), k, pid, Object(s, pid).changeCount);
  }

  // ---- where it fails: a run that loses a write ----------------------------------------------

  lemma {:induction false} FreshThread(calls: set<nat>) returns (t: nat)
    ensures forall u :: u in calls ==> u < t
    decreases calls
  {
    t := 0;
    if calls != {} {
      var u :| u in calls;
      t := FreshThread(calls - {u});
      assert forall v :: v in calls ==> v == u || v in calls - {u};
      t := if t <= u then u + 1 else t;
    }
  }

  /** Properties that a word does not speak of. */
  function Unlike(word: Word): Properties {
    if word.Said? && word.what.Updated? && word.what.properties == map[] then map["lost" := ""] else map[]
  }

  lemma UnlikeDisagrees(word: Word, kind: Kind, c: Config)
    requires c.changeCount > 0 && c.properties == Unlike(word)
    ensures !Tells(word, kind, c)
  {
    assert "lost" in map["lost" := ""];
  }

  lemma OneStep(s: State, a: Act)
    requires Wired(s.repo)
    ensures Run(s, [a]) == Next(s, a)
  {
    assert [a][..0] == [];
  }

  /** What is lost later in a life is lost from its beginning. */
  lemma LostEarlier(s: State, first: seq<Act>, rest: seq<Act>, k: nat, pid: string)
    requires Following(s, k, pid) && Following(Run(s, first), k, pid) && StillMapped(s, Run(s, first), pid)
    requires Object(s, pid).changeCount <= Object(Run(s, first), pid).changeCount
    requires WrittenAndAtRest(Run(s, first), rest, k, pid) && !InAgreement(Run(Run(s, first), rest), k, pid)
    ensures WrittenAndAtRest(s, first + rest, k, pid) && !InAgreement(Run(s, first + rest), k, pid)
  {
    RunConcat(s, first, rest);
    hide Orderly, KeysSound, InAgreement, Run;
  }

  lemma MissAtRest(s: State, k: nat, pid: string) returns (acts: seq<Act>)
    requires AtRest(s, k, pid) && LastCount(s.services[k], pid) > Object(s, pid).changeCount
    ensures WrittenAndAtRest(s, acts, k, pid) && !InAgreement(Run(s, acts), k, pid)
  {
    var word := Remembers(s.services[k], pid).word;
    var write := Update(0, s.repo.configurations[pid], Unlike(word));
    var s1 := Next(s, write);
    var more := RunsOut(s1);
    acts := [write] + more;
    OneStep(s, write);
    RunConcat(s, [write], more);
    WriteAtRestExactly(s, 0, Unlike(word), k, pid, more);
    var s2 := Run(s, acts);
    AgreesIfTold(s2, k, pid);
    UnlikeDisagrees(word, s2.services[k].kind, Object(s2, pid));
    hide Orderly, KeysSound, Unlike;
  }

  /** News of this count has reached the service or will. */
  ghost predicate OnItsWay(s: State, k: nat, pid: string, n: nat)
    requires k in s.services
  {
    || AfterTask(s, k, pid).last >= n
    || InQueue(s.queue, pid, n)
    || (exists t :: t in s.calls && Promises(s.calls[t], pid, n))
  }

  lemma WorkDelivers(s: State, a: Act, k: nat, pid: string, n: nat)
    requires Following(s, k, pid) && FinishesWork(a) && Object(s, pid).changeCount > 0 && OnItsWay(s, k, pid, n)
    ensures SameLife(s, Next(s, a), k, pid) && OnItsWay(Next(s, a), k, pid, n)
  {
    FinishingKeepsLife(s, a, k, pid);
    hide Orderly, KeysSound, Take, Finish, Resume, OnItsWay;
    match a {
      case Continue(t) =>
        if t in s.calls {
          ResumeKeepsObject(s, t, pid);
          ResumeDelivers(s, t, k, pid, n);
        }
      case TakeTask =>
        if s.queue != [] && s.worker.Idle? { TakeDelivers(s, k, pid, n); }
      case FinishTask =>
        if s.worker.Busy? { FinishDelivers(s, k, pid, n); }
    }
  }

  lemma ResumeDelivers(s: State, t: nat, k: nat, pid: string, n: nat)
    requires Following(s, k, pid) && t in s.calls && OnItsWay(s, k, pid, n)
    requires Resume(s, t).services == s.services && Resume(s, t).worker == s.worker
    ensures OnItsWay(Resume(s, t), k, pid, n)
  {
    var s' := Resume(s, t);
    assert AfterTask(s', k, pid) == AfterTask(s, k, pid);
    if i :| 0 <= i < |s.queue| && s.queue[i].task == Announce(pid, n) {
      assert s'.queue[i] == s.queue[i];
    } else if u :| u in s.calls && Promises(s.calls[u], pid, n) {
      var posts := s.calls[u].posts;
      assert posts == [posts[0]] + posts[1..];
      if u != t || s.calls[t].detach != [] || Announce(pid, n) in posts[1..] {
        assert u in s'.calls && Promises(s'.calls[u], pid, n);
      } else {
        assert s'.queue[|s.queue|].task == Announce(pid, n);
      }
    }
  }

  lemma TakeDelivers(s: State, k: nat, pid: string, n: nat)
    requires Following(s, k, pid) && s.queue != [] && s.worker.Idle?
    requires Object(s, pid).changeCount > 0 && OnItsWay(s, k, pid, n)
    ensures k in Take(s).services && OnItsWay(Take(s), k, pid, n)
  {
    var s' := Take(s);
    TakeHears(s, k, pid);
    hide AfterTask;
    if i :| 0 <= i < |s.queue| && s.queue[i].task == Announce(pid, n) {
      if i > 0 {
        assert s'.queue[i - 1] == s.queue[i];
      }
    }
  }

  lemma FinishDelivers(s: State, k: nat, pid: string, n: nat)
    requires Following(s, k, pid) && s.worker.Busy? && OnItsWay(s, k, pid, n)
    ensures k in Finish(s).services && OnItsWay(Finish(s), k, pid, n)
  {
    assert AfterTask(Finish(s), k, pid) == AfterTask(s, k, pid);
  }

  lemma {:induction false} RunDelivers(s: State, acts: seq<Act>, k: nat, pid: string, n: nat)
    requires Following(s, k, pid) && AllFinishWork(acts) && Object(s, pid).changeCount > 0 && OnItsWay(s, k, pid, n)
    ensures SameLife(s, Run(s, acts), k, pid) && OnItsWay(Run(s, acts), k, pid, n)
  {
    var m := |acts| - 1;
    if acts != [] {
      RunDelivers(s, acts[..m], k, pid, n);
      WorkDelivers(Run(s, acts[..m]), acts[m], k, pid, n);
      SameLifeOn(s, Run(s, acts[..m]), Run(s, acts), k, pid);
    }
    hide Following, SameLife, OnItsWay;
  }

  /** News that is ahead of the object gets the service ahead of it. */
  lemma MissAfterNews(s: State, k: nat, pid: string, n: nat) returns (acts: seq<Act>)
    requires Following(s, k, pid) && Object(s, pid).changeCount > 0
    requires n > Object(s, pid).changeCount && OnItsWay(s, k, pid, n)
    ensures WrittenAndAtRest(s, acts, k, pid) && !InAgreement(Run(s, acts), k, pid)
  {
    var first := RunsOut(s);
    RunDelivers(s, first, k, pid, n);
    var s1 := Run(s, first);
    assert LastCount(s1.services[k], pid) >= n;
    var rest := MissAtRest(s1, k, pid);
    acts := first + rest;
    LostEarlier(s, first, rest, k, pid);
  }

  lemma MissAfterPending(s: State, k: nat, pid: string, n: nat) returns (acts: seq<Act>)
    requires Following(s, k, pid) && Object(s, pid).changeCount > 0
    requires n > Object(s, pid).changeCount && Pending(s, pid, n)
    ensures WrittenAndAtRest(s, acts, k, pid) && !InAgreement(Run(s, acts), k, pid)
  {
    if t :| t in s.calls && Promises(s.calls[t], pid, n) {
      acts := MissAfterNews(s, k, pid, n);
    } else {
      var t :| UpdateUnderWay(s, t, pid) && s.repo.objects[s.calls[t].id].changeCount == n;
      var s1 := Next(s, Continue(t));
      FinishingKeepsLife(s, Continue(t), k, pid);
      OneStep(s, Continue(t));
      assert s1.calls[t].posts[0] == Announce(pid, n);
      assert Promises(s1.calls[t], pid, n);
      var rest := MissAfterNews(s1, k, pid, n);
      acts := [Continue(t)] + rest;
      LostEarlier(s, [Continue(t)], rest, k, pid);
    }
  }

  /** The first write to an object that nobody had written to. */
  lemma FirstWrite(s: State, properties: Properties, k: nat, pid: string) returns (t: nat)
    requires Following(s, k, pid) && Object(s, pid).changeCount == 0
    ensures var write := Update(t, s.repo.configurations[pid], properties);
            var s1 := Next(s, write);
            && t !in s.calls && Run(s, [write]) == s1 && Following(s1, k, pid) && StillMapped(s, s1, pid)
            && Object(s1, pid).changeCount == 1 && Object(s1, pid).properties == properties
            && s1.queue == s.queue && s1.services == s.services && s1.worker == s.worker
            && forall n: nat :: n != 0 ==> (Pending(s1, pid, n) <==> Pending(s, pid, n) || n == 1)
  {
    t := FreshThread(s.calls.Keys);
    var write := Update(t, s.repo.configurations[pid], properties);
    var s1 := Next(s, write);
    WriteFollows(s, t, properties, k, pid);
    OneStep(s, write);
    forall n: nat | n != 0 ensures Pending(s1, pid, n) <==> Pending(s, pid, n) || n == 1 {
      FirstWritePending(s, s1, t, k, pid, n);
    }
  }

  lemma FirstWritePending(s: State, s1: State, t: nat, k: nat, pid: string, n: nat)
    requires Following(s, k, pid) && Object(s, pid).changeCount == 0 && Following(s1, k, pid) && t !in s.calls && n != 0
    requires s1.repo.configurations[pid] == s.repo.configurations[pid]
    requires s1.calls == s.calls[t := Updating(s.repo.configurations[pid])]
    requires s1.repo.objects == s.repo.objects[s.repo.configurations[pid] := Object(s1, pid)]
    requires Object(s1, pid).changeCount == 1 && Object(s1, pid).attached
    ensures Pending(s1, pid, n) <==> Pending(s, pid, n) || n == 1
  {
    var id := s.repo.configurations[pid];
    assert UpdateUnderWay(s1, t, pid);
    if Pending(s, pid, n) {
      if u :| u in s.calls && Promises(s.calls[u], pid, n) {
        assert Promises(s1.calls[u], pid, n);
      } else {
        var u :| UpdateUnderWay(s, u, pid) && s.repo.objects[s.calls[u].id].changeCount == n;
        assert s.calls[u].id != id;
        assert UpdateUnderWay(s1, u, pid);
      }
    }
    if Pending(s1, pid, n) && n != 1 {
      if u :| u in s1.calls && Promises(s1.calls[u], pid, n) {
        assert Promises(s.calls[u], pid, n);
      } else {
        var u :| UpdateUnderWay(s1, u, pid) && s1.repo.objects[s1.calls[u].id].changeCount == n;
        assert u != t && s.calls[u].id != id;
        assert UpdateUnderWay(s, u, pid);
      }
    }
  }

  /** The last first hand-over in a queue. */
  function LastHand(queue: seq<Posted>, k: nat, pid: string): Word {
    if queue == [] then Silence
    else
      var x := queue[|queue| - 1];
      if IsHand(x, k, pid) then Said(Updated(x.task.updates[pid].properties, x.task.updates[pid].version))
      else LastHand(queue[..|queue| - 1], k, pid)
  }

  lemma {:induction false} HeardAtLeast(m: Mind, queue: seq<Posted>, k: nat, pid: string, c: Config, i: nat)
    requires c.changeCount > 0 && i < |queue| && IsNews(queue[i], pid)
    ensures HearAll(m, queue, k, pid, c).last >= queue[i].task.changeCount
  {
    var n := |queue| - 1;
    if i < n {
      HeardAtLeast(m, queue[..n], k, pid, c, i);
    }
  }

  /** Once a count has been heard, the same count again does not undo an old hand-over behind it. */
  lemma {:induction false} HandHasTheLastWord(m: Mind, queue: seq<Posted>, k: nat, pid: string, c: Config, i: nat, j: nat)
    requires c.changeCount > 0 && NewsUpTo(queue, pid, 1) && m.last <= 1
    requires i < j < |queue| && IsNews(queue[i], pid) && IsHand(queue[j], k, pid) && queue[i].task.changeCount > 0
    ensures HearAll(m, queue, k, pid, c) == Mind(1, LastHand(queue, k, pid))
  {
    var n := |queue| - 1;
    LastUpTo(m, queue, k, pid, c);
    HeardAtLeast(m, queue, k, pid, c, i);
    if j < n {
      assert queue[..n][i] == queue[i] && queue[..n][j] == queue[j];
      HandHasTheLastWord(m, queue[..n], k, pid, c, i, j);
    }
  }

  lemma {:induction false} LastUpTo(m: Mind, queue: seq<Posted>, k: nat, pid: string, c: Config)
    requires NewsUpTo(queue, pid, 1) && m.last <= 1
    ensures HearAll(m, queue, k, pid, c).last <= 1
  {
    if queue != [] {
      LastUpTo(m, queue[..|queue| - 1], k, pid, c);
    }
  }

  /** An old hand-over behind an announcement that the first write makes come true. */
  lemma MissBehindHand(s: State, k: nat, pid: string, i: nat, j: nat) returns (acts: seq<Act>)
    requires Following(s, k, pid) && Object(s, pid).changeCount == 0 && AfterTask(s, k, pid).last == 0
    requires NewsUpTo(s.queue, pid, 1) && forall n: nat :: Pending(s, pid, n) ==> n <= 1
    requires i < j < |s.queue| && IsNews(s.queue[i], pid) && IsHand(s.queue[j], k, pid) && s.queue[i].task.changeCount > 0
    ensures WrittenAndAtRest(s, acts, k, pid) && !InAgreement(Run(s, acts), k, pid)
  {
    var word := LastHand(s.queue, k, pid);
    var t := FirstWrite(s, Unlike(word), k, pid);
    var write := Update(t, s.repo.configurations[pid], Unlike(word));
    var s1 := Next(s, write);
    HandHasTheLastWord(AfterTask(s1, k, pid), s1.queue, k, pid, Object(s1, pid), i, j);
    assert AfterQueue(s1, k, pid) == Mind(1, word);
    NothingMore(s1, k, pid);
    var more := RunsOut(s1);
    AtRestOneOfTwo(s1, k, pid, more);
    acts := [write] + more;
    RunConcat(s, [write], more);
    var s2 := Run(s, acts);
    AgreesIfTold(s2, k, pid);
    UnlikeDisagrees(word, s2.services[k].kind, Object(s2, pid));
    hide Unlike, Orderly, KeysSound, Outcome, LeastOutcome;
  }

  lemma NothingMore(s: State, k: nat, pid: string)
    requires Following(s, k, pid) && AfterQueue(s, k, pid).last == 1
    requires forall n: nat :: n != 0 && Pending(s, pid, n) ==> n <= 1
    ensures Outcome(s, k, pid) == LeastOutcome(s, k, pid) == AfterQueue(s, k, pid).word
  {
    hide Pending, Certain;
    if CertainToHear(s, pid, 1) {
      LeastFirst(s, pid, 1);
    }
  }

  /** From a state that is not safe there is a run that loses a write. */
  lemma MissedWrite(s: State, k: nat, pid: string) returns (acts: seq<Act>)
    requires Following(s, k, pid) && !Safe(s, k, pid)
    ensures WrittenAndAtRest(s, acts, k, pid) && !InAgreement(Run(s, acts), k, pid)
  {
    var b := Object(s, pid).changeCount;
    if AfterTask(s, k, pid).last > b {
      acts := MissAfterTask(s, k, pid);
    } else if !NewsUpTo(s.queue, pid, Top(b)) {
      var i :| 0 <= i < |s.queue| && IsNews(s.queue[i], pid) && s.queue[i].task.changeCount > Top(b);
      acts := MissAfterQueue(s, k, pid, i);
    } else if n: nat :| Pending(s, pid, n) && n > Top(b) {
      acts := MissAfterCall(s, k, pid, n);
    } else {
      assert !HandsAhead(s.queue, k, pid, b);
      var i, j :| 0 <= i < j < |s.queue| && IsNews(s.queue[i], pid) && IsHand(s.queue[j], k, pid)
                  && s.queue[i].task.changeCount > b;
      acts := MissBehindHand(s, k, pid, i, j);
    }
  }

  lemma MissAfterTask(s: State, k: nat, pid: string) returns (acts: seq<Act>)
    requires Following(s, k, pid) && AfterTask(s, k, pid).last > Object(s, pid).changeCount
    ensures WrittenAndAtRest(s, acts, k, pid) && !InAgreement(Run(s, acts), k, pid)
  {
    var n := AfterTask(s, k, pid).last;
    var first := RunsOut(s);
    RunNeverForgets(s, first, k, pid);
    var s1 := Run(s, first);
    assert LastCount(s1.services[k], pid) >= n;
    var rest := MissAtRest(s1, k, pid);
    acts := first + rest;
    LostEarlier(s, first, rest, k, pid);
  }

  lemma {:induction false} RunNeverForgets(s: State, acts: seq<Act>, k: nat, pid: string)
    requires Following(s, k, pid) && AllFinishWork(acts)
    ensures SameLife(s, Run(s, acts), k, pid) && AfterTask(Run(s, acts), k, pid).last >= AfterTask(s, k, pid).last
  {
    var m := |acts| - 1;
    if acts != [] {
      RunNeverForgets(s, acts[..m], k, pid);
      WorkNeverForgets(Run(s, acts[..m]), acts[m], k, pid);
      SameLifeOn(s, Run(s, acts[..m]), Run(s, acts), k, pid);
    }
    hide Following, SameLife, AfterTask;
  }

  lemma WorkNeverForgets(s: State, a: Act, k: nat, pid: string)
    requires Following(s, k, pid) && FinishesWork(a)
    ensures SameLife(s, Next(s, a), k, pid) && AfterTask(Next(s, a), k, pid).last >= AfterTask(s, k, pid).last
  {
    FinishingKeepsLife(s, a, k, pid);
    match a {
      case Continue(t) =>
        if t in s.calls { ResumeKeepsObject(s, t, pid); }
      case TakeTask =>
        if s.queue != [] && s.worker.Idle? { TakeHears(s, k, pid); }
      case FinishTask =>
    }
    hide Orderly, KeysSound, Resume, Take;
  }

  lemma MissAfterQueue(s: State, k: nat, pid: string, i: nat) returns (acts: seq<Act>)
    requires Following(s, k, pid) && i < |s.queue| && IsNews(s.queue[i], pid)
    requires s.queue[i].task.changeCount > Top(Object(s, pid).changeCount)
    ensures WrittenAndAtRest(s, acts, k, pid) && !InAgreement(Run(s, acts), k, pid)
  {
    var n := s.queue[i].task.changeCount;
    assert s.queue[i].task == Announce(pid, n);
    if Object(s, pid).changeCount > 0 {
      acts := MissAfterNews(s, k, pid, n);
    } else {
      var t := FirstWrite(s, map[], k, pid);
      var write := Update(t, s.repo.configurations[pid], map[]);
      assert Next(s, write).queue[i].task == Announce(pid, n);
      var rest := MissAfterNews(Next(s, write), k, pid, n);
      acts := [write] + rest;
      LostEarlier(s, [write], rest, k, pid);
    }
  }

  lemma MissAfterCall(s: State, k: nat, pid: string, n: nat) returns (acts: seq<Act>)
    requires Following(s, k, pid) && Pending(s, pid, n) && n > Top(Object(s, pid).changeCount)
    ensures WrittenAndAtRest(s, acts, k, pid) && !InAgreement(Run(s, acts), k, pid)
  {
    if Object(s, pid).changeCount > 0 {
      acts := MissAfterPending(s, k, pid, n);
    } else {
      var t := FirstWrite(s, map[], k, pid);
      var write := Update(t, s.repo.configurations[pid], map[]);
      var rest := MissAfterPending(Next(s, write), k, pid, n);
      acts := [write] + rest;
      LostEarlier(s, [write], rest, k, pid);
    }
  }

  /** From any state in which the PID leads to a live object: every write that follows has reached the
      service once all is at rest, whatever clients, calls, services and worker do meanwhile, if and only
      if the state is safe. */
  lemma LaterWritesArriveExactly(s: State, k: nat, pid: string)
    requires Following(s, k, pid)
    ensures (forall acts :: WrittenAndAtRest(s, acts, k, pid) ==> InAgreement(Run(s, acts), k, pid)) <==> Safe(s, k, pid)
  {
    if Safe(s, k, pid) {
      forall acts | WrittenAndAtRest(s, acts, k, pid) ensures InAgreement(Run(s, acts), k, pid) {
        LaterWritesArrive(s, acts, k, pid);
      }
    } else {
      var acts := MissedWrite(s, k, pid);
    }
  }

  // ---- the condition before a creation ---------------------------------------------------------

  /** Creating a PID that is not mapped: no later write is lost, in any run, if and only if nothing stale is
      known, promised or on its way at that moment. */
  lemma CreationLosesNothingExactly(s: State, k: nat, pid: string)
    requires Orderly(s) && KeysSound(s) && pid !in s.repo.configurations && k in s.services && Interested(s.services[k], pid)
    ensures var created := Next(s, GetConfiguration(pid));
            && Following(created, k, pid)
            && ((forall acts :: WrittenAndAtRest(created, acts, k, pid) ==> InAgreement(Run(created, acts), k, pid))
                <==> NothingStale(s, k, pid, 0))
  {
    hide Next, WrittenAndAtRest, InAgreement, Pending, KeysSound, Interested;
    var created := Next(s, GetConfiguration(pid));
    CreationFollows(s, k, pid);
    forall n: nat ensures Pending(created, pid, n) <==> Pending(s, pid, n) {
      CreationPending(s, k, pid, n);
    }
    assert AfterTask(created, k, pid) == AfterTask(s, k, pid);
    LaterWritesArriveExactly(created, k, pid);
  }

  /** On a quiet PID, which is where the runs of the eventual agreement create theirs, nothing is stale. */
  lemma QuietIsNotStale(s: State, k: nat, pid: string)
    requires Consistent(s) && pid !in s.repo.configurations && Quiet(s, pid)
    requires k in s.services && Interested(s.services[k], pid)
    ensures NothingStale(s, k, pid, 0)
  {
    assert Agrees(s, k, pid);
    AgreementSteps.QuietMeansSettled(s, k, pid);
    QuietIsSilent(s, k, pid);
  }

  lemma QuietIsSilent(s: State, k: nat, pid: string)
    requires k in s.services && Quiet(s, pid) && Settled(s, k, pid)
    ensures NothingStale(s, k, pid, 0)
  {
    forall n: nat ensures !Pending(s, pid, n) {
      assert !Announced(s, pid, n);
    }
    forall x | x in s.queue ensures !IsNews(x, pid) {
      NewsIsAnnounced(s, x, pid);
    }
  }

  lemma NewsIsAnnounced(s: State, x: Posted, pid: string)
    requires x in s.queue
    ensures IsNews(x, pid) ==> Announced(s, pid, x.task.changeCount)
  {
    assert IsNews(x, pid) ==> x.task == Announce(pid, x.task.changeCount);
  }

  lemma CreationPending(s: State, k: nat, pid: string, n: nat)
    requires Orderly(s) && KeysSound(s) && pid !in s.repo.configurations && k in s.services && Interested(s.services[k], pid)
    ensures Pending(Next(s, GetConfiguration(pid)), pid, n) <==> Pending(s, pid, n)
  {
    hide Next, KeysSound, Interested, FactoryPid;
    var created := Next(s, GetConfiguration(pid));
    CreationFollows(s, k, pid);
    forall t ensures UpdateUnderWay(created, t, pid) <==> UpdateUnderWay(s, t, pid) {
      if t in s.calls { assert CallSound(s.repo, s.calls[t]); }
    }
  }

  // ---- a run that loses a write --------------------------------------------------------------

  /** A configuration is written, a service for it appears and is promised it, and a removal gets as far
      as unmapping the PID: the service still remembers count 1. */
  function RemovedAfterTracking(pid: string, properties: Properties): seq<Act> {
    [GetConfiguration(pid), Update(0, 0, properties), AddManagedService(pid), Remove(1, 0), Continue(1)]
  }

  function Fresh(pid: string): Config {
    NewConfig(pid, FactoryPid(pid), map[], 0, FromClient)
  }

  lemma CreatedAndWritten(pid: string, properties: Properties)
    ensures var s := Next(Next(INIT, GetConfiguration(pid)), Update(0, 0, properties));
            && Wired(s.repo) && s == INIT.(repo := s.repo, calls := map[0 := Updating(0)])
            && s.repo.objects == [Write(Fresh(pid), properties)] && s.repo.configurations == map[pid := 0]
  {
    var s1 := Next(INIT, GetConfiguration(pid));
    assert s1 == INIT.(repo := s1.repo) && s1.repo.objects == [Fresh(pid)] && s1.repo.configurations == map[pid := 0];
    hide FactoryPid, AddInstance;
  }

  /** What a managed service is promised when it is tracked after one write. */
  function FirstHand(pid: string, properties: Properties): Posted {
    Posted(1, HandOver(0, map[pid := Snapshot(properties, 1)]))
  }

  lemma TrackedWithCount(s: State, pid: string, c: Config)
    requires pid != "" && Wired(s.repo) && s == INIT.(repo := s.repo, calls := map[0 := Updating(0)])
    requires s.repo.objects == [c] && s.repo.configurations == map[pid := 0] && c.changeCount == 1 && !c.removed
    ensures var s' := Next(s, AddManagedService(pid));
            && s'.repo == s.repo && s'.calls == s.calls && s'.worker.Idle? && s'.queue == [FirstHand(pid, c.properties)]
            && s'.services == map[0 := Tracked(Managed, pid, map[pid := 1], map[])]
  {
  }

  lemma Unmapping(s: State, pid: string, c: Config)
    requires Wired(s.repo) && s.repo.objects == [c] && s.repo.configurations == map[pid := 0]
    requires c.pid == pid && c.attached && !c.removed && c.changeCount == 1 && s.calls == map[0 := Updating(0)]
    ensures var s' := Next(Next(s, Remove(1, 0)), Continue(1));
            && s'.repo.configurations == map[] && s'.repo.objects == [c.(removed := true, attached := false)]
            && s'.calls == map[0 := Updating(0), 1 := Finishing([], [Announce(pid, 1), LogRemoval(pid)])]
            && s'.services == s.services && s'.worker == s.worker && s'.queue == s.queue
  {
    var s1 := Next(s, Remove(1, 0));
    assert s1 == s.(repo := s1.repo, calls := s.calls[1 := Removing(0)]);
    assert s1.repo.objects == [c.(removed := true)] && s1.repo.configurations == s.repo.configurations;
    assert Next(s1, Continue(1)) == Resume(s1, 1);
    hide Next, RemoveInstance;
  }

  lemma TwoSteps(s: State, a: Act, b: Act)
    requires Wired(s.repo)
    ensures Run(s, [a, b]) == Next(Next(s, a), b)
  {
    hide Next, Run, Wired;
    assert [a, b] == [a] + [b];
    OneStep(s, a);
    OneStep(Next(s, a), b);
    RunConcat(s, [a], [b]);
  }

  lemma FiveInParts(a: Act, b: Act, c: Act, d: Act, e: Act)
    ensures [a, b, c, d, e] == [a, b] + ([c] + [d, e])
  {
  }

  lemma FiveSteps(s: State, a: Act, b: Act, c: Act, d: Act, e: Act)
    requires Wired(s.repo)
    ensures Run(s, [a, b, c, d, e]) == Next(Next(Next(Next(Next(s, a), b), c), d), e)
  {
    hide Next, Run, Wired;
    var s2 := Next(Next(s, a), b);
    TwoSteps(s, a, b);
    OneStep(s2, c);
    TwoSteps(Next(s2, c), d, e);
    RunConcat(s2, [c], [d, e]);
    RunConcat(s, [a, b], [c] + [d, e]);
    FiveInParts(a, b, c, d, e);
  }

  lemma InitiallySound()
    ensures Wired(INIT.repo) && Orderly(INIT) && KeysSound(INIT)
  {
  }

  lemma RemovedButRemembered(pid: string, properties: Properties)
    requires pid != ""
    ensures var s := Run(INIT, RemovedAfterTracking(pid, properties));
            && Orderly(s) && KeysSound(s) && pid !in s.repo.configurations
            && s.services == map[0 := Tracked(Managed, pid, map[pid := 1], map[])] && s.worker.Idle?
            && AfterTask(s, 0, pid) == Mind(1, Silence) && s.queue == [FirstHand(pid, properties)]
            && s.calls == map[0 := Updating(0), 1 := Finishing([], [Announce(pid, 1), LogRemoval(pid)])]
            && |s.repo.objects| == 1 && !s.repo.objects[0].attached
  {
    hide FactoryPid, Next, Run, Orderly, KeysSound, Wired;
    InitiallySound();
    var get, write, track := GetConfiguration(pid), Update(0, 0, properties), AddManagedService(pid);
    var s2 := Next(Next(INIT, get), write);
    CreatedAndWritten(pid, properties);
    TrackedWithCount(s2, pid, Write(Fresh(pid), properties));
    Unmapping(Next(s2, track), pid, Write(Fresh(pid), properties));
    FiveSteps(INIT, get, write, track, Remove(1, 0), Continue(1));
    RunStaysSound(INIT, RemovedAfterTracking(pid, properties));
  }

  lemma NextKeepsIdentity(s: State, a: Act, k: nat)
    requires Wired(s.repo) && KeysSound(s) && k in s.services && k in Next(s, a).services
    ensures Next(s, a).services[k].kind == s.services[k].kind && Next(s, a).services[k].pid == s.services[k].pid
  {
    if !a.AddManagedService? && !a.AddManagedServiceFactory? {
      AgreementRuns.ServicesKept(s, a, k);
    }
    hide Resume, Take, AddAll, RemoveAll, Instances;
  }

  lemma {:induction false} RunKeepsIdentity(s: State, acts: seq<Act>, k: nat)
    requires Orderly(s) && KeysSound(s) && k < s.nextService && k in Run(s, acts).services
    ensures var s' := Run(s, acts);
            k in s.services && s'.services[k].kind == s.services[k].kind && s'.services[k].pid == s.services[k].pid
  {
    if acts != [] {
      var n := |acts| - 1;
      RunStaysSound(s, acts[..n]);
      ServiceBefore(Run(s, acts[..n]), acts[n], k);
      NextKeepsIdentity(Run(s, acts[..n]), acts[n], k);
      RunKeepsIdentity(s, acts[..n], k);
    }
  }

  /** For every PID but the empty one there is a run that creates it again while its removal is under way,
      and then writes to it, after which the repository holds a configuration that the service has not
      been handed. */
  lemma EarlyCreationBreaksAgreement(pid: string, properties: Properties) returns (acts: seq<Act>)
    requires pid != ""
    ensures RemovedAfterTracking(pid, properties) + [GetConfiguration(pid)] <= acts
    ensures var s := Run(INIT, acts);
            && Quiescent(s) && 0 in s.services && Interested(s.services[0], pid)
            && Alive(s, pid) && Object(s, pid).changeCount > 0
            && !InAgreement(s, 0, pid) && !QuietRun(acts)
  {
    var prefix, create := RemovedAfterTracking(pid, properties), GetConfiguration(pid);
    var s := Run(INIT, prefix);
    RemovedButRemembered(pid, properties);
    CreationFollows(s, 0, pid);
    OneStep(s, create);
    var created := Next(s, create);
    assert AfterTask(created, 0, pid) == AfterTask(s, 0, pid);
    var more := MissedWrite(created, 0, pid);
    RunConcat(INIT, prefix, [create]);
    RunConcat(INIT, prefix + [create], more);
    acts := prefix + [create] + more;
    RunKeepsIdentity(created, more, 0);
    if QuietRun(acts) {
      AgreementRuns.EventualAgreement(acts, 0, pid);
    }
  }
}
