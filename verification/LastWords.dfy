/** What a service will remember about a PID once everything under way has run out, as long as the PID
    leads to the same live object and nobody writes to it: exactly, and for every schedule. */
module LastWords {
  import opened Pids
  import opened Repository
  import opened Engine
  import opened Protocol
  import opened Agreement
  import opened Progress
  import AgreementRuns
  import AgreementSteps

  datatype Word = Silence | Said(what: Handed)

  /** The last count and the last word that a service has received for a PID. */
  datatype Mind = Mind(last: nat, word: Word)

  function Remembers(w: Tracked, pid: string): Mind {
    Mind(LastCount(w, pid), if pid in w.handed then Said(w.handed[pid]) else Silence)
  }

  /** What one queued task makes of it while the PID leads to the live object c. */
  function Hear(m: Mind, x: Posted, k: nat, pid: string, c: Config): Mind {
    if IsNews(x, pid) && c.changeCount > 0 && m.last < x.task.changeCount then
      Mind(x.task.changeCount, Said(Updated(c.properties, c.changeCount)))
    else if IsHand(x, k, pid) then
      Mind(m.last, Said(Updated(x.task.updates[pid].properties, x.task.updates[pid].version)))
    else m
  }

  function HearAll(m: Mind, queue: seq<Posted>, k: nat, pid: string, c: Config): Mind {
    if queue == [] then m else Hear(HearAll(m, queue[..|queue| - 1], k, pid, c), queue[|queue| - 1], k, pid, c)
  }

  lemma {:induction false} HearFirst(m: Mind, queue: seq<Posted>, k: nat, pid: string, c: Config)
    requires queue != []
    ensures HearAll(m, queue, k, pid, c) == HearAll(Hear(m, queue[0], k, pid, c), queue[1..], k, pid, c)
  {
    var n := |queue| - 1;
    if n == 0 {
      assert queue[..0] == [] && queue[1..] == [];
    } else {
      HearFirst(m, queue[..n], k, pid, c);
      assert queue[..n][1..] == queue[1..][..n - 1];
    }
  }

  lemma HearLast(m: Mind, queue: seq<Posted>, x: Posted, k: nat, pid: string, c: Config)
    ensures HearAll(m, queue + [x], k, pid, c) == Hear(HearAll(m, queue, k, pid, c), x, k, pid, c)
  {
    assert (queue + [x])[..|queue|] == queue;
  }

  /** When the worker is done with the task at hand. */
  function AfterTask(s: State, k: nat, pid: string): Mind
    requires k in s.services
  {
    Remembers(if s.worker.Idle? then s.services[k] else Perform(s.services, s.worker.job)[k], pid)
  }

  /** And with those in the queue. */
  function AfterQueue(s: State, k: nat, pid: string): Mind
    requires Wired(s.repo) && k in s.services && pid in s.repo.configurations
  {
    HearAll(AfterTask(s, k, pid), s.queue, k, pid, Object(s, pid))
  }

  ghost predicate PromisedCount(s: State, pid: string, n: nat) {
    exists t :: t in s.calls && Promises(s.calls[t], pid, n)
  }

  /** A count that a call may still announce. */
  ghost predicate Pending(s: State, pid: string, n: nat) {
    || PromisedCount(s, pid, n)
    || (exists t :: UpdateUnderWay(s, t, pid) && s.repo.objects[s.calls[t].id].changeCount == n)
  }

  /** A count that will be announced in any case.  An Update stalled on another object than the mapped one
      announces nothing if that object is invalidated first. */
  ghost predicate Certain(s: State, pid: string, n: nat)
    requires Wired(s.repo) && pid in s.repo.configurations
  {
    || PromisedCount(s, pid, n)
    || (Object(s, pid).changeCount == n && exists t :: UpdateUnderWay(s, t, pid) && s.calls[t].id == s.repo.configurations[pid])
  }

  ghost predicate MoreToHear(s: State, pid: string, last: nat) {
    exists n: nat :: Pending(s, pid, n) && last < n
  }

  ghost predicate CertainToHear(s: State, pid: string, last: nat)
    requires Wired(s.repo) && pid in s.repo.configurations
  {
    exists n: nat :: Certain(s, pid, n) && last < n
  }

  /** The last word, if the PID leads to the object c from now on. */
  function WordAfter(m: Mind, c: Config, more: bool): Word {
    if c.changeCount > 0 && more then Said(Updated(c.properties, c.changeCount)) else m.word
  }

  /** The last word if everything that may be announced is announced... */
  ghost function Outcome(s: State, k: nat, pid: string): Word
    requires Wired(s.repo) && k in s.services && pid in s.repo.configurations
  {
    var m := AfterQueue(s, k, pid);
    WordAfter(m, Object(s, pid), MoreToHear(s, pid, m.last))
  }

  /** ...and if only that is announced which cannot be prevented. */
  ghost function LeastOutcome(s: State, k: nat, pid: string): Word
    requires Wired(s.repo) && k in s.services && pid in s.repo.configurations
  {
    var m := AfterQueue(s, k, pid);
    WordAfter(m, Object(s, pid), CertainToHear(s, pid, m.last))
  }

  ghost predicate Following(s: State, k: nat, pid: string) {
    && Orderly(s) && KeysSound(s) && Alive(s, pid)
    && k in s.services && Interested(s.services[k], pid)
  }

  /** The PID leads to the same object, unchanged, and the service is the same. */
  ghost predicate SameLife(s: State, s': State, k: nat, pid: string)
    requires Following(s, k, pid)
  {
    && Following(s', k, pid)
    && s'.repo.configurations[pid] == s.repo.configurations[pid] && Object(s', pid) == Object(s, pid)
    && s'.services[k].kind == s.services[k].kind && s'.services[k].pid == s.services[k].pid
  }

  // ---- every finishing step keeps the outcome -------------------------------------------------

  lemma ResumeKeepsObject(s: State, t: nat, pid: string)
    requires Orderly(s) && Alive(s, pid) && t in s.calls
    ensures var s' := Resume(s, t);
            pid in s'.repo.configurations && s'.repo.configurations[pid] == s.repo.configurations[pid]
            && Object(s', pid) == Object(s, pid) && s'.services == s.services && s'.worker == s.worker
  {
    assert CallSound(s.repo, s.calls[t]);
    hide RemoveInstance, Orderly;
    match s.calls[t] {
      case Updating(_) =>
      case Removing(id) => assert id != s.repo.configurations[pid];
      case Finishing(detach, _) => assert detach != [] ==> detach[0] != s.repo.configurations[pid];
    }
  }

  lemma FinishingKeepsLife(s: State, a: Act, k: nat, pid: string)
    requires Following(s, k, pid) && FinishesWork(a)
    ensures SameLife(s, Next(s, a), k, pid)
  {
    NextKeepsProtocol(s, a);
    AgreementRuns.NextKeepsKeys(s, a);
    assert Wired(s.repo);
    if a.Continue? {
      if a.thread in s.calls {
        ResumeKeepsObject(s, a.thread, pid);
      }
    } else {
      hide Orderly, KeysSound;
      if a.FinishTask? && s.worker.Busy? {
        AgreementRuns.FinishIdentity(s, k);
      }
    }
  }

  lemma NotifyRemembers(w: Tracked, p: string, n: nat, removed: bool, snapshot: Snapshot, pid: string)
    ensures p != pid ==> Remembers(NotifyOne(w, p, n, removed, snapshot), pid) == Remembers(w, pid)
    ensures p == pid && Interested(w, pid) && !removed ==>
              Remembers(NotifyOne(w, p, n, removed, snapshot), pid) ==
              if LastCount(w, pid) < n then Mind(n, Said(Updated(snapshot.properties, snapshot.version)))
              else Remembers(w, pid)
  {
    hide Interested, RemovalNotice;
  }

  lemma HandRemembers(w: Tracked, updates: map<string, Snapshot>, pid: string)
    ensures Remembers(HandAll(w, updates), pid) ==
            if pid in updates then Mind(LastCount(w, pid), Said(Updated(updates[pid].properties, updates[pid].version)))
            else Remembers(w, pid)
  {
  }

  /** The worker takes the first task. */
  lemma TakeHears(s: State, k: nat, pid: string)
    requires Wired(s.repo) && Alive(s, pid) && k in s.services && Interested(s.services[k], pid)
    requires s.queue != [] && s.worker.Idle?
    ensures AfterTask(Take(s), k, pid) == Hear(AfterTask(s, k, pid), s.queue[0], k, pid, Object(s, pid))
  {
    var w, head := s.services[k], s.queue[0];
    match head.task
    case Announce(p, n) =>
      var job := ReadFor(s.repo, p, n, s.services.Keys);
      if job.Notify? {
        NotifyRemembers(w, p, n, job.removed, job.snapshot, pid);
        hide Remembers, NotifyOne;
        assert AfterTask(Take(s), k, pid) == Remembers(NotifyOne(w, p, n, job.removed, job.snapshot), pid);
      }
    case HandOver(j, updates) =>
      HandRemembers(w, updates, pid);
      hide Remembers, HandAll;
    case LogRemoval(_) =>
      hide Remembers;
  }

  /** A step decides at most what was open: both outcomes are among the earlier two. */
  ghost predicate Narrows(s: State, s': State, k: nat, pid: string)
    requires Following(s, k, pid) && Following(s', k, pid)
  {
    && (Outcome(s', k, pid) == Outcome(s, k, pid) || Outcome(s', k, pid) == LeastOutcome(s, k, pid))
    && (LeastOutcome(s', k, pid) == Outcome(s, k, pid) || LeastOutcome(s', k, pid) == LeastOutcome(s, k, pid))
  }

  lemma CertainIsPending(s: State, pid: string, n: nat)
    requires Wired(s.repo) && pid in s.repo.configurations && Certain(s, pid, n)
    ensures Pending(s, pid, n)
  {
  }

  lemma LeastFirst(s: State, pid: string, last: nat)
    requires Wired(s.repo) && pid in s.repo.configurations && CertainToHear(s, pid, last)
    ensures MoreToHear(s, pid, last)
  {
    var n: nat :| Certain(s, pid, n) && last < n;
    CertainIsPending(s, pid, n);
  }

  lemma TakeNarrows(s: State, k: nat, pid: string)
    requires Following(s, k, pid) && s.queue != [] && s.worker.Idle? && SameLife(s, Take(s), k, pid)
    ensures Narrows(s, Take(s), k, pid)
  {
    TakeHears(s, k, pid);
    HearFirst(AfterTask(s, k, pid), s.queue, k, pid, Object(s, pid));
    SamePending(s, Take(s), pid);
    hide Orderly, KeysSound, Pending, Certain, Take, AfterTask;
  }

  lemma SamePending(s: State, s': State, pid: string)
    requires s'.calls == s.calls && s'.repo == s.repo
    ensures forall n: nat :: Pending(s', pid, n) <==> Pending(s, pid, n)
    ensures Wired(s.repo) && pid in s.repo.configurations ==> forall n: nat :: Certain(s', pid, n) <==> Certain(s, pid, n)
    ensures forall t :: UpdateUnderWay(s', t, pid) <==> UpdateUnderWay(s, t, pid)
  {
    forall n: nat ensures Pending(s', pid, n) <==> Pending(s, pid, n) {
      assert PromisedCount(s', pid, n) <==> PromisedCount(s, pid, n);
    }
    if Wired(s.repo) && pid in s.repo.configurations {
      forall n: nat ensures Certain(s', pid, n) <==> Certain(s, pid, n) {
        assert PromisedCount(s', pid, n) <==> PromisedCount(s, pid, n);
      }
    }
  }

  lemma FinishNarrows(s: State, k: nat, pid: string)
    requires Following(s, k, pid) && s.worker.Busy? && SameLife(s, Finish(s), k, pid)
    ensures Narrows(s, Finish(s), k, pid)
  {
    SamePending(s, Finish(s), pid);
    assert AfterTask(Finish(s), k, pid) == AfterTask(s, k, pid);
    hide Orderly, KeysSound, Pending, Certain;
  }

  /** A section that posts nothing. */
  lemma MoveNarrows(s: State, t: nat, k: nat, pid: string)
    requires Following(s, k, pid) && t in s.calls && Resume(s, t).queue == s.queue && SameLife(s, Resume(s, t), k, pid)
    requires Resume(s, t).services == s.services && Resume(s, t).worker == s.worker
    ensures Narrows(s, Resume(s, t), k, pid) && AfterQueue(Resume(s, t), k, pid) == AfterQueue(s, k, pid)
  {
    var s' := Resume(s, t);
    assert AfterTask(s', k, pid) == AfterTask(s, k, pid);
    var last := AfterQueue(s, k, pid).last;
    assert Wired(s.repo);
    hide Resume, Orderly, KeysSound, AfterTask;
    if n: nat :| Pending(s', pid, n) && last < n {
      MoveBack(s, t, pid, n);
    }
    if n: nat :| Certain(s, pid, n) && last < n {
      CertainMoves(s, t, pid, n);
    }
    BothWays(s, s', pid, last);
  }

  lemma BothWays(s: State, s': State, pid: string, last: nat)
    requires Wired(s.repo) && pid in s.repo.configurations && Wired(s'.repo) && pid in s'.repo.configurations
    ensures CertainToHear(s, pid, last) ==> MoreToHear(s, pid, last)
    ensures CertainToHear(s', pid, last) ==> MoreToHear(s', pid, last)
  {
    if CertainToHear(s, pid, last) { LeastFirst(s, pid, last); }
    if CertainToHear(s', pid, last) { LeastFirst(s', pid, last); }
  }

  /** No call starts, and no object is written to. */
  lemma MoveUpdates(s: State, t: nat, pid: string)
    requires Orderly(s) && t in s.calls
    ensures forall u :: UpdateUnderWay(Resume(s, t), u, pid) ==>
              && UpdateUnderWay(s, u, pid) && Resume(s, t).calls[u] == s.calls[u]
              && Resume(s, t).repo.objects[s.calls[u].id].changeCount == s.repo.objects[s.calls[u].id].changeCount
  {
    ResumeObjects(s, t);
    ResumeCalls(s, t);
    hide Resume, Orderly;
  }

  lemma ResumeObjects(s: State, t: nat)
    requires Wired(s.repo) && t in s.calls
    ensures |Resume(s, t).repo.objects| == |s.repo.objects|
    ensures forall i :: 0 <= i < |s.repo.objects| ==>
              var c, c' := s.repo.objects[i], Resume(s, t).repo.objects[i];
              c' == c || c' == c.(attached := false)
  {
    hide Wired, RemoveInstance;
  }

  lemma ResumeCalls(s: State, t: nat)
    requires Wired(s.repo) && t in s.calls
    ensures forall u :: u in Resume(s, t).calls && Resume(s, t).calls[u].Updating? ==>
              u in s.calls && Resume(s, t).calls[u] == s.calls[u]
  {
    hide Wired, Erase, Detach;
  }

  /** What is certain stays certain. */
  lemma CertainMoves(s: State, t: nat, pid: string, n: nat)
    requires Orderly(s) && Alive(s, pid) && t in s.calls && Resume(s, t).queue == s.queue && Certain(s, pid, n)
    requires var s' := Resume(s, t); pid in s'.repo.configurations && Object(s', pid) == Object(s, pid)
    requires Resume(s, t).repo.configurations[pid] == s.repo.configurations[pid]
    ensures Certain(Resume(s, t), pid, n)
  {
    assert Wired(s.repo);
    hide Resume, Orderly, Alive;
    if u :| u in s.calls && Promises(s.calls[u], pid, n) {
      PromiseMoves(s, t, u, pid, n);
    } else {
      var u :| UpdateUnderWay(s, u, pid) && s.calls[u].id == s.repo.configurations[pid];
      if u == t {
        UpdatePromises(s, t, pid);
      } else {
        UpdateStays(s, t, u, pid);
      }
    }
  }

  lemma PromiseMoves(s: State, t: nat, u: nat, pid: string, n: nat)
    requires Wired(s.repo) && t in s.calls && Resume(s, t).queue == s.queue
    requires u in s.calls && Promises(s.calls[u], pid, n)
    ensures u in Resume(s, t).calls && Promises(Resume(s, t).calls[u], pid, n)
  {
  }

  lemma UpdatePromises(s: State, t: nat, pid: string)
    requires Wired(s.repo) && UpdateUnderWay(s, t, pid)
    ensures t in Resume(s, t).calls && Promises(Resume(s, t).calls[t], pid, s.repo.objects[s.calls[t].id].changeCount)
  {
    assert Resume(s, t).calls[t].posts[0] == Announce(pid, s.repo.objects[s.calls[t].id].changeCount);
  }

  lemma UpdateStays(s: State, t: nat, u: nat, pid: string)
    requires Orderly(s) && Alive(s, pid) && t in s.calls
    requires u != t && UpdateUnderWay(s, u, pid) && s.calls[u].id == s.repo.configurations[pid]
    ensures UpdateUnderWay(Resume(s, t), u, pid) && Resume(s, t).calls[u] == s.calls[u]
    ensures Resume(s, t).repo.objects[s.calls[u].id] == s.repo.objects[s.calls[u].id]
  {
    ResumeKeepsObject(s, t, pid);
    hide Orderly, RemoveInstance;
  }

  lemma MoveBack(s: State, t: nat, pid: string, n: nat)
    requires Orderly(s) && Alive(s, pid) && t in s.calls && Resume(s, t).queue == s.queue
    requires Pending(Resume(s, t), pid, n)
    ensures Pending(s, pid, n)
  {
    var s' := Resume(s, t);
    assert CallSound(s.repo, s.calls[t]);
    if u :| u in s'.calls && Promises(s'.calls[u], pid, n) {
      if u != t || s.calls[t].Finishing? {
        assert Promises(s.calls[u], pid, n);
      } else {
        assert s'.calls[t].posts[0] == Announce(pid, n);
        assert s.calls[t].Updating?;
        assert UpdateUnderWay(s, t, pid);
      }
    } else {
      var u :| UpdateUnderWay(s', u, pid) && s'.repo.objects[s'.calls[u].id].changeCount == n;
      MoveUpdates(s, t, pid);
      assert UpdateUnderWay(s, u, pid);
    }
  }

  lemma PostIsHeard(s: State, t: nat, k: nat, pid: string)
    requires Following(s, k, pid) && t in s.calls && s.calls[t].Finishing? && s.calls[t].detach == [] && s.calls[t].posts != []
    requires SameLife(s, Resume(s, t), k, pid)
    ensures AfterQueue(Resume(s, t), k, pid)
         == Hear(AfterQueue(s, k, pid), Posted(s.futuresID + 1, s.calls[t].posts[0]), k, pid, Object(s, pid))
  {
    hide HearAll, Hear, Perform, Remembers, Orderly, KeysSound, Interested;
    var s', posted := Resume(s, t), Posted(s.futuresID + 1, s.calls[t].posts[0]);
    assert s'.queue == s.queue + [posted] && s'.services == s.services && s'.worker == s.worker;
    hide Resume;
    HearLast(AfterTask(s, k, pid), s.queue, posted, k, pid, Object(s, pid));
  }

  /** A section that posts. */
  lemma PostNarrows(s: State, t: nat, k: nat, pid: string)
    requires Following(s, k, pid) && t in s.calls && s.calls[t].Finishing? && s.calls[t].detach == [] && s.calls[t].posts != []
    requires SameLife(s, Resume(s, t), k, pid)
    ensures Narrows(s, Resume(s, t), k, pid)
  {
    var s', c := Resume(s, t), Object(s, pid);
    var posted := Posted(s.futuresID + 1, s.calls[t].posts[0]);
    var m, m' := AfterQueue(s, k, pid), AfterQueue(s', k, pid);
    assert posted.task in s.calls[t].posts;
    PostIsHeard(s, t, k, pid);
    hide AfterQueue, Hear;
    if c.changeCount > 0 {
      PostPending(s, t, pid);
      hide Pending, Certain, HearAll, Resume, Orderly, KeysSound;
      PostMore(s, s', pid, m.last, m'.last, posted);
      PostCertain(s, s', pid, m.last, m'.last, posted);
    }
  }

  lemma PostMore(s: State, s': State, pid: string, last: nat, last': nat, posted: Posted)
    requires last' == if IsNews(posted, pid) && last < posted.task.changeCount then posted.task.changeCount else last
    requires forall n: nat :: Pending(s, pid, n) <==> Pending(s', pid, n) || (IsNews(posted, pid) && posted.task.changeCount == n)
    ensures MoreToHear(s, pid, last) <==> last' > last || MoreToHear(s', pid, last')
  {
    hide Pending;
    if MoreToHear(s, pid, last) && last' == last {
      var n: nat :| Pending(s, pid, n) && last < n;
      assert Pending(s', pid, n);
    }
    if MoreToHear(s', pid, last') {
      var n: nat :| Pending(s', pid, n) && last' < n;
      assert Pending(s, pid, n);
    }
    if last' > last {
      assert Pending(s, pid, posted.task.changeCount);
    }
  }

  lemma PostCertain(s: State, s': State, pid: string, last: nat, last': nat, posted: Posted)
    requires Wired(s.repo) && pid in s.repo.configurations && Wired(s'.repo) && pid in s'.repo.configurations
    requires last' == if IsNews(posted, pid) && last < posted.task.changeCount then posted.task.changeCount else last
    requires forall n: nat :: Certain(s, pid, n) <==> Certain(s', pid, n) || (IsNews(posted, pid) && posted.task.changeCount == n)
    ensures CertainToHear(s, pid, last) <==> last' > last || CertainToHear(s', pid, last')
  {
    hide Certain;
    if CertainToHear(s, pid, last) && last' == last {
      var n: nat :| Certain(s, pid, n) && last < n;
      assert Certain(s', pid, n);
    }
    if CertainToHear(s', pid, last') {
      var n: nat :| Certain(s', pid, n) && last' < n;
      assert Certain(s, pid, n);
    }
    if last' > last {
      assert Certain(s, pid, posted.task.changeCount);
    }
  }

  /** One promise is kept; no other call is concerned. */
  lemma PostPromises(s: State, t: nat, pid: string)
    requires Wired(s.repo) && t in s.calls && s.calls[t].Finishing? && s.calls[t].detach == [] && s.calls[t].posts != []
    ensures var task := s.calls[t].posts[0];
            forall n: nat :: PromisedCount(s, pid, n) <==> PromisedCount(Resume(s, t), pid, n) || task == Announce(pid, n)
    ensures forall u :: UpdateUnderWay(s, u, pid) <==> UpdateUnderWay(Resume(s, t), u, pid)
    ensures forall u :: UpdateUnderWay(s, u, pid) ==> Resume(s, t).calls[u] == s.calls[u]
  {
    var s', posts := Resume(s, t), s.calls[t].posts;
    assert posts == [posts[0]] + posts[1..];
    forall n: nat ensures PromisedCount(s, pid, n) <==> PromisedCount(s', pid, n) || posts[0] == Announce(pid, n) {
      if u :| u in s.calls && Promises(s.calls[u], pid, n) {
        assert posts[0] == Announce(pid, n) || Promises(s'.calls[u], pid, n);
      }
      if u :| u in s'.calls && Promises(s'.calls[u], pid, n) {
        assert Promises(s.calls[u], pid, n);
      }
      assert posts[0] == Announce(pid, n) ==> Promises(s.calls[t], pid, n);
    }
  }

  lemma PostPending(s: State, t: nat, pid: string)
    requires Wired(s.repo) && t in s.calls && s.calls[t].Finishing? && s.calls[t].detach == [] && s.calls[t].posts != []
    ensures var task := s.calls[t].posts[0];
            forall n: nat :: Pending(s, pid, n) <==> Pending(Resume(s, t), pid, n) || task == Announce(pid, n)
    ensures var task := s.calls[t].posts[0];
            pid in s.repo.configurations ==>
              forall n: nat :: Certain(s, pid, n) <==> Certain(Resume(s, t), pid, n) || task == Announce(pid, n)
  {
    var s', task := Resume(s, t), s.calls[t].posts[0];
    assert s'.repo == s.repo;
    PostPromises(s, t, pid);
    hide Resume, UpdateUnderWay, PromisedCount;
    forall n: nat ensures Pending(s, pid, n) <==> Pending(s', pid, n) || task == Announce(pid, n) {
      assert PromisedCount(s, pid, n) <==> PromisedCount(s', pid, n) || task == Announce(pid, n);
    }
    if pid in s.repo.configurations {
      forall n: nat ensures Certain(s, pid, n) <==> Certain(s', pid, n) || task == Announce(pid, n) {
        assert PromisedCount(s, pid, n) <==> PromisedCount(s', pid, n) || task == Announce(pid, n);
      }
    }
  }

  lemma StepNarrows(s: State, a: Act, k: nat, pid: string)
    requires Following(s, k, pid) && FinishesWork(a)
    ensures SameLife(s, Next(s, a), k, pid) && Narrows(s, Next(s, a), k, pid)
  {
    FinishingKeepsLife(s, a, k, pid);
    hide Orderly, KeysSound, Outcome, LeastOutcome, Resume, Take, Finish;
    match a {
      case Continue(t) =>
        if t in s.calls { ResumeNarrows(s, t, k, pid); }
      case TakeTask =>
        if s.queue != [] && s.worker.Idle? { TakeNarrows(s, k, pid); }
      case FinishTask =>
        if s.worker.Busy? { FinishNarrows(s, k, pid); }
    }
  }

  lemma ResumeNarrows(s: State, t: nat, k: nat, pid: string)
    requires Following(s, k, pid) && t in s.calls && SameLife(s, Resume(s, t), k, pid)
    ensures Narrows(s, Resume(s, t), k, pid)
  {
    ResumeKeepsObject(s, t, pid);
    hide Orderly, KeysSound, Outcome, LeastOutcome;
    if s.calls[t].Finishing? && s.calls[t].detach == [] && s.calls[t].posts != [] {
      PostNarrows(s, t, k, pid);
    } else {
      MoveNarrows(s, t, k, pid);
    }
  }

  lemma {:induction false} WorkNarrows(s: State, acts: seq<Act>, k: nat, pid: string)
    requires Following(s, k, pid) && AllFinishWork(acts)
    ensures SameLife(s, Run(s, acts), k, pid) && Narrows(s, Run(s, acts), k, pid)
  {
    if acts != [] {
      var n := |acts| - 1;
      WorkNarrows(s, acts[..n], k, pid);
      StepNarrows(Run(s, acts[..n]), acts[n], k, pid);
      SameLifeOn(s, Run(s, acts[..n]), Run(s, acts), k, pid);
      hide Following, SameLife, Outcome, LeastOutcome;
    } else {
      SameLifeAtOnce(s, k, pid);
    }
  }

  lemma SameLifeAtOnce(s: State, k: nat, pid: string)
    requires Following(s, k, pid)
    ensures SameLife(s, s, k, pid)
  {
  }

  lemma SameLifeOn(s: State, s1: State, s2: State, k: nat, pid: string)
    requires Following(s, k, pid) && SameLife(s, s1, k, pid) && SameLife(s1, s2, k, pid)
    ensures SameLife(s, s2, k, pid)
  {
    hide Orderly, KeysSound, Interested;
  }

  /** For every state in which the PID leads to a live object, and every way in which calls and tasks may
      run out: what the service remembers at the end is one of the two outcomes. */
  lemma AtRestOneOfTwo(s: State, k: nat, pid: string, more: seq<Act>)
    requires Following(s, k, pid) && AllFinishWork(more) && Quiescent(Run(s, more))
    ensures SameLife(s, Run(s, more), k, pid)
    ensures var word := Remembers(Run(s, more).services[k], pid).word;
            word == Outcome(s, k, pid) || word == LeastOutcome(s, k, pid)
  {
    WorkNarrows(s, more, k, pid);
    RestIsOutcome(Run(s, more), k, pid);
  }

  lemma RestIsOutcome(s: State, k: nat, pid: string)
    requires Wired(s.repo) && k in s.services && pid in s.repo.configurations && Quiescent(s)
    ensures Outcome(s, k, pid) == Remembers(s.services[k], pid).word
    ensures AfterQueue(s, k, pid) == Remembers(s.services[k], pid)
  {
  }

  /** The word that agrees with an object. */
  predicate Tells(word: Word, kind: Kind, c: Config) {
    if c.changeCount > 0 then word.Said? && word.what.Updated? && word.what.properties == c.properties
    else word.Said? ==> LooksRemoved(kind, word.what)
  }

  lemma AgreesIfTold(s: State, k: nat, pid: string)
    requires Wired(s.repo) && k in s.services && pid in s.repo.configurations
    ensures InAgreement(s, k, pid) <==> Tells(Remembers(s.services[k], pid).word, s.services[k].kind, Object(s, pid))
  {
  }

  // ---- a write at rest -----------------------------------------------------------------------

  ghost predicate AtRest(s: State, k: nat, pid: string) {
    Following(s, k, pid) && Quiescent(s)
  }

  /** A write to a live object while nothing is under way, and then every finishing schedule: the service
      is handed the new properties exactly if the count it last received is below the new one.  Otherwise
      it keeps what it had. */
  lemma WriteAtRestExactly(s: State, t: nat, properties: Properties, k: nat, pid: string, more: seq<Act>)
    requires AtRest(s, k, pid) && AllFinishWork(more)
    requires Quiescent(Run(Next(s, Update(t, s.repo.configurations[pid], properties)), more))
    ensures var s' := Run(Next(s, Update(t, s.repo.configurations[pid], properties)), more);
            var n := Object(s, pid).changeCount + 1;
            && AtRest(s', k, pid) && s'.repo.configurations[pid] == s.repo.configurations[pid]
            && Object(s', pid).properties == properties && Object(s', pid).changeCount == n
            && Remembers(s'.services[k], pid).word ==
               (if LastCount(s.services[k], pid) < n then Said(Updated(properties, n))
                else Remembers(s.services[k], pid).word)
  {
    var id, n := s.repo.configurations[pid], Object(s, pid).changeCount + 1;
    var s1 := Next(s, Update(t, id, properties));
    WriteFollows(s, t, properties, k, pid);
    assert UpdateUnderWay(s1, t, pid) && Pending(s1, pid, n) && Certain(s1, pid, n);
    forall i: nat | Pending(s1, pid, i) ensures i == n {
      OnlyWritePending(s, t, properties, pid, i);
    }
    AtRestOneOfTwo(s1, k, pid, more);
    hide Orderly, KeysSound, Pending, Certain, Run, Next;
  }

  lemma WriteFollows(s: State, t: nat, properties: Properties, k: nat, pid: string)
    requires Following(s, k, pid) && t !in s.calls
    ensures var id := s.repo.configurations[pid];
            var s1 := Next(s, Update(t, id, properties));
            && Following(s1, k, pid) && s1 == s.(repo := s1.repo, calls := s.calls[t := Updating(id)])
            && s1.repo.configurations == s.repo.configurations && s1.repo.objects == s.repo.objects[id := Object(s1, pid)]
            && Object(s1, pid) == Write(Object(s, pid), properties) && Object(s1, pid).attached
  {
    NextKeepsProtocol(s, Update(t, s.repo.configurations[pid], properties));
    AgreementRuns.NextKeepsKeys(s, Update(t, s.repo.configurations[pid], properties));
    hide KeysSound;
  }

  lemma OnlyWritePending(s: State, t: nat, properties: Properties, pid: string, n: nat)
    requires Orderly(s) && Alive(s, pid) && s.calls == map[]
    requires Pending(Next(s, Update(t, s.repo.configurations[pid], properties)), pid, n)
    ensures n == Object(s, pid).changeCount + 1
  {
  }

  // ---- a PID created again too early ---------------------------------------------------------

  /** The last word about the PID that is on its way to the service, or already there: an object that
      nobody has written to lets the notifications still queued say nothing. */
  function LastWord(s: State, k: nat, pid: string): Word
    requires k in s.services
  {
    HearAll(AfterTask(s, k, pid), s.queue, k, pid, NewConfig(pid, FactoryPid(pid), map[], 0, FromClient)).word
  }

  /** Creating a PID that is not mapped, at any moment, and then letting all work run out without a write
      leaves the service in agreement exactly when the last word on its way to it was not a set of
      properties. */
  lemma EarlyCreationExactly(s: State, k: nat, pid: string, more: seq<Act>)
    requires Orderly(s) && KeysSound(s) && pid !in s.repo.configurations && AllFinishWork(more)
    requires k in s.services && Interested(s.services[k], pid)
    requires Quiescent(Run(Next(s, GetConfiguration(pid)), more))
    ensures var s', word := Run(Next(s, GetConfiguration(pid)), more), LastWord(s, k, pid);
            && k in s'.services
            && (InAgreement(s', k, pid) <==> word == Silence || LooksRemoved(s.services[k].kind, word.what))
  {
    var created := Next(s, GetConfiguration(pid));
    CreationFollows(s, k, pid);
    assert Object(created, pid) == NewConfig(pid, FactoryPid(pid), map[], 0, FromClient);
    AtRestOneOfTwo(created, k, pid, more);
    AgreesIfTold(Run(created, more), k, pid);
  }

  lemma CreationFollows(s: State, k: nat, pid: string)
    requires Orderly(s) && KeysSound(s) && pid !in s.repo.configurations && k in s.services && Interested(s.services[k], pid)
    ensures var created := Next(s, GetConfiguration(pid));
            && Following(created, k, pid) && created == s.(repo := created.repo)
            && created.repo.objects == s.repo.objects + [Object(created, pid)]
            && Object(created, pid) == NewConfig(pid, FactoryPid(pid), map[], 0, FromClient)
  {
    NextKeepsProtocol(s, GetConfiguration(pid));
    AgreementRuns.NextKeepsKeys(s, GetConfiguration(pid));
    hide KeysSound, FactoryPid;
  }

  /** On a quiet PID that word is never a set of properties. */
  lemma QuietCreationIsSafe(s: State, k: nat, pid: string)
    requires Consistent(s) && pid !in s.repo.configurations && Quiet(s, pid)
    requires k in s.services && Interested(s.services[k], pid)
    ensures var word := LastWord(s, k, pid); word == Silence || LooksRemoved(s.services[k].kind, word.what)
  {
    assert Agrees(s, k, pid);
    AgreementSteps.QuietMeansSettled(s, k, pid);
    var c := NewConfig(pid, FactoryPid(pid), map[], 0, FromClient);
    NothingHeard(AfterTask(s, k, pid), s.queue, k, pid, c);
  }

  lemma {:induction false} NothingHeard(m: Mind, queue: seq<Posted>, k: nat, pid: string, c: Config)
    requires forall x :: x in queue ==> !IsHand(x, k, pid)
    requires c.changeCount == 0
    ensures HearAll(m, queue, k, pid, c) == m
  {
    if queue != [] {
      assert queue[|queue| - 1] in queue;
      NothingHeard(m, queue[..|queue| - 1], k, pid, c);
    }
  }
}
