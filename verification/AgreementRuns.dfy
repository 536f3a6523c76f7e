/** Agreement over whole runs. */
module AgreementRuns {
  import opened Pids
  import opened Repository
  import opened Engine
  import opened Evolution
  import opened Protocol
  import opened FactoryIndex
  import opened Agreement
  import opened AgreementSteps
  import opened AgreementCalls
  import opened AgreementWorker
  import opened AgreementFinish

  // ---- whole batches -------------------------------------------------------------------------

  lemma EmptyBatch(s: State, t: nat, pid: string)
    requires Orderly(s) && t !in s.calls && PidSound(s, pid)
    ensures PidSound(Batch(s, t, s.repo, [], []), pid)
    ensures forall k :: k in s.services && Agrees(s, k, pid) ==> Agrees(Batch(s, t, s.repo, [], []), k, pid)
  {
    var e := Batch(s, t, s.repo, [], []);
    assert e.calls - {t} == s.calls - {t};
    CallMoves(s, e, t, pid);
    forall u ensures UpdateUnderWay(e, u, pid) <==> UpdateUnderWay(s, u, pid) {
    }
    FrameAll(s, e, pid);
  }

  lemma EmptyBatchFree(s: State, t: nat, pid: string)
    requires Wired(s.repo) && t !in s.calls && FreeToCreate(s, pid)
    ensures FreeToCreate(Batch(s, t, s.repo, [], []), pid)
  {
    var e := Batch(s, t, s.repo, [], []);
    assert e.calls - {t} == s.calls - {t};
    CallMoves(s, e, t, pid);
    forall u ensures UpdateUnderWay(e, u, pid) <==> UpdateUnderWay(s, u, pid) {
    }
  }

  lemma AddAllOrderly(s: State, t: nat, metadata: seq<Metadata>)
    requires Orderly(s) && t !in s.calls
    ensures var all := AddAll(s.repo, metadata); Orderly(Batch(s, t, all.repo, all.detached, all.notices))
  {
    AddAllEvolves(s.repo, metadata);
    AddAllSound(s.repo, metadata);
    var all := AddAll(s.repo, metadata);
    BatchKeepsProtocol(s, t, all.repo, all.detached, Announcements(all.notices));
  }

  lemma RemoveAllOrderly(s: State, t: nat, receipts: seq<Receipt>)
    requires Orderly(s) && t !in s.calls
    ensures var all := RemoveAll(s.repo, receipts); Orderly(Batch(s, t, all.repo, all.detached, all.notices))
  {
    RemoveAllEvolves(s.repo, receipts);
    RemoveAllSound(s.repo, receipts);
    var all := RemoveAll(s.repo, receipts);
    BatchKeepsProtocol(s, t, all.repo, all.detached, Announcements(all.notices));
  }

  lemma AddOneFree(s: State, t: nat, r: Repo, ds: seq<nat>, ns: seq<Notice>, m: Metadata, pid: string)
    requires Wired(r) && Orderly(Batch(s, t, r, ds, ns))
    requires FreeToCreate(Batch(s, t, r, ds, ns), m.pid) && FreeToCreate(Batch(s, t, r, ds, ns), pid)
    ensures var one := AddOne(r, m);
            var more := if one.changed then [Notice(one.receipt.pid, one.receipt.changeCount)] else [];
            FreeToCreate(Batch(s, t, one.repo, ds + one.detached, ns + more), pid)
  {
    var one := AddOne(r, m);
    var more := if one.changed then [Notice(one.receipt.pid, one.receipt.changeCount)] else [];
    AddOneEvolves(r, m);
    AddOneKeepsPointers(r, m);
    hide KeepsPointers;
    if m.pid != pid || !one.changed {
      AddOneElsewhere(r, m, pid);
      BatchElsewhere(s, t, r, ds, ns, one.repo, ds + one.detached, more, pid);
      var e, e' := Batch(s, t, r, ds, ns), Batch(s, t, one.repo, ds + one.detached, ns + more);
      BatchUpdates(s, t, r, ds, ns, one.repo, ds + one.detached, more, pid);
    } else {
      AddOneHere(r, m);
    }
  }

  lemma BatchUpdates(s: State, t: nat, r: Repo, ds: seq<nat>, ns: seq<Notice>, r': Repo, ds': seq<nat>, more: seq<Notice>, pid: string)
    requires Wired(r) && Wired(r') && Orderly(Batch(s, t, r, ds, ns)) && Evolves(r, r') && KeepsPointers(r, r')
    ensures forall u :: UpdateUnderWay(Batch(s, t, r', ds', ns + more), u, pid) <==> UpdateUnderWay(Batch(s, t, r, ds, ns), u, pid)
  {
    var e, e' := Batch(s, t, r, ds, ns), Batch(s, t, r', ds', ns + more);
    CallsInRange(e, pid);
    forall u ensures UpdateUnderWay(e', u, pid) <==> UpdateUnderWay(e, u, pid) {
      if u in e.calls && e.calls[u].Updating? {
        assert Ages(r.objects[e.calls[u].id], r'.objects[e.calls[u].id]);
      }
    }
  }

  lemma {:induction false} AddAllFree(s: State, t: nat, metadata: seq<Metadata>, pid: string)
    requires Orderly(s) && t !in s.calls && FreeToCreate(s, pid)
    requires forall m :: m in metadata ==> FreeToCreate(s, m.pid)
    ensures var all := AddAll(s.repo, metadata); FreeToCreate(Batch(s, t, all.repo, all.detached, all.notices), pid)
  {
    if metadata == [] {
      EmptyBatchFree(s, t, pid);
    } else {
      var n := |metadata| - 1;
      assert metadata[n] in metadata;
      AddAllFree(s, t, metadata[..n], pid);
      AddAllFree(s, t, metadata[..n], metadata[n].pid);
      AddAllOrderly(s, t, metadata[..n]);
      var all := AddAll(s.repo, metadata[..n]);
      AddOneFree(s, t, all.repo, all.detached, all.notices, metadata[n], pid);
    }
  }

  lemma {:induction false} AddAllKeeps(s: State, t: nat, metadata: seq<Metadata>, pid: string)
    requires Orderly(s) && t !in s.calls && PidSound(s, pid)
    requires forall m :: m in metadata ==> FreeToCreate(s, m.pid)
    ensures var all := AddAll(s.repo, metadata);
            var e := Batch(s, t, all.repo, all.detached, all.notices);
            PidSound(e, pid) && forall k :: k in s.services && Agrees(s, k, pid) ==> Agrees(e, k, pid)
  {
    if metadata == [] {
      EmptyBatch(s, t, pid);
    } else {
      var n := |metadata| - 1;
      assert metadata[n] in metadata;
      AddAllKeeps(s, t, metadata[..n], pid);
      AddAllFree(s, t, metadata[..n], metadata[n].pid);
      AddAllOrderly(s, t, metadata[..n]);
      var all := AddAll(s.repo, metadata[..n]);
      AddOneKeeps(s, t, all.repo, all.detached, all.notices, metadata[n], pid);
    }
  }

  lemma {:induction false} RemoveAllKeeps(s: State, t: nat, receipts: seq<Receipt>, pid: string)
    requires Orderly(s) && t !in s.calls && PidSound(s, pid)
    ensures var all := RemoveAll(s.repo, receipts);
            var e := Batch(s, t, all.repo, all.detached, all.notices);
            PidSound(e, pid) && forall k :: k in s.services && Agrees(s, k, pid) ==> Agrees(e, k, pid)
  {
    if receipts == [] {
      EmptyBatch(s, t, pid);
    } else {
      var n := |receipts| - 1;
      RemoveAllKeeps(s, t, receipts[..n], pid);
      RemoveAllOrderly(s, t, receipts[..n]);
      var all := RemoveAll(s.repo, receipts[..n]);
      RemoveOneKeeps(s, t, all.repo, all.detached, all.notices, receipts[n], pid);
    }
  }

  // ---- one step ------------------------------------------------------------------------------

  lemma NextKeepsKeys(s: State, a: Act)
    requires Wired(s.repo) && KeysSound(s)
    ensures KeysSound(Next(s, a))
  {
    hide KeysSound, Resume, Take, Finish, AddManaged, AddFactory;
    match a {
      case Continue(t) => if t in s.calls { ResumeKeepsKeys(s, t); }
      case AddManagedService(_) => ServiceKeepsKeys(s, a);
      case AddManagedServiceFactory(_) => ServiceKeepsKeys(s, a);
      case RemoveService(_) => ServiceKeepsKeys(s, a);
      case TakeTask => WorkerKeepsKeys(s, a);
      case FinishTask => WorkerKeepsKeys(s, a);
      case _ => CallKeepsKeys(s, a);
    }
  }

  lemma ServiceKeepsKeys(s: State, a: Act)
    requires Wired(s.repo) && KeysSound(s) && (a.AddManagedService? || a.AddManagedServiceFactory? || a.RemoveService?)
    ensures KeysSound(Next(s, a))
  {
    hide Instances, Wired, Resume, Take, Finish;
  }

  lemma WorkerKeepsKeys(s: State, a: Act)
    requires Wired(s.repo) && KeysSound(s) && (a.TakeTask? || a.FinishTask?)
    ensures KeysSound(Next(s, a))
  {
    hide Wired, Resume, NotifyOne, HandAll;
  }

  lemma CallKeepsKeys(s: State, a: Act)
    requires Wired(s.repo) && KeysSound(s) && !a.Continue?
    requires !a.AddManagedService? && !a.AddManagedServiceFactory? && !a.RemoveService? && !a.TakeTask? && !a.FinishTask?
    ensures KeysSound(Next(s, a))
  {
    hide AddAll, RemoveAll, Register, Resume;
    var s' := Next(s, a);
    assert s'.services == s.services;
    assert s'.queue == s.queue;
    assert s'.worker == s.worker;
    assert s'.nextService == s.nextService;
  }

  lemma ResumeKeepsKeys(s: State, t: nat)
    requires Wired(s.repo) && KeysSound(s) && t in s.calls
    ensures KeysSound(Resume(s, t))
  {
    var s' := Resume(s, t);
    if s.calls[t].Finishing? && s.calls[t].posts != [] {
      assert s.calls[t].posts[0] in s.calls[t].posts;
    }
  }

  /** What is said about one PID, and about the services tracked before and after, still holds. */
  ghost predicate KeepsPid(s: State, s': State, pid: string)
    requires Wired(s.repo) && Wired(s'.repo)
  {
    && PidSound(s', pid)
    && (forall k :: k in s.services && k in s'.services && Interested(s.services[k], pid) && Agrees(s, k, pid)
          ==> Agrees(s', k, pid))
  }

  /** The calls of clients. */
  lemma ClientKeeps(s: State, a: Act, pid: string)
    requires Orderly(s) && FuturesSound(s) && Indexed(s.repo) && KeysSound(s) && CreatesQuietly(s, a) && PidSound(s, pid)
    requires a.GetConfiguration? || a.CreateFactoryConfiguration? || a.Update? || a.UpdateIfDifferent? || a.Remove?
    ensures KeepsPid(s, Next(s, a), pid)
  {
    assert Wired(s.repo);
    hide AddAll, RemoveAll, Resume, Orderly, FuturesSound, Indexed, KeysSound, PidSound, Agrees, Quiet, AddInstance;
    match a {
      case GetConfiguration(p) =>
        if p !in s.repo.configurations { CreateKeeps(s, NewConfig(p, FactoryPid(p), map[], 0, FromClient), pid); }
      case CreateFactoryConfiguration(f, name) =>
        if f + "~" + name !in s.repo.configurations { CreateKeeps(s, NewConfig(f + "~" + name, f, map[], 0, FromClient), pid); }
      case Update(t, id, properties) =>
        if Callable(s, t, id) { UpdateKeeps(s, t, id, properties, pid); }
      case UpdateIfDifferent(t, id, properties) =>
        if Callable(s, t, id) { UpdateKeeps(s, t, id, properties, pid); }
      case Remove(t, id) =>
        if Callable(s, t, id) { RemoveKeeps(s, t, id, pid); }
      case _ =>
    }
  }

  /** The calls made for bundles, and the rest of any call. */
  lemma BatchActKeeps(s: State, a: Act, pid: string)
    requires Orderly(s) && FuturesSound(s) && Indexed(s.repo) && KeysSound(s) && CreatesQuietly(s, a) && PidSound(s, pid)
    requires a.AddConfigurations? || a.RemoveConfigurations? || a.Continue?
    ensures KeepsPid(s, Next(s, a), pid)
  {
    match a {
      case AddConfigurations(t, metadata) =>
        if t !in s.calls { AddAllKeeps(s, t, metadata, pid); }
      case RemoveConfigurations(t, receipts) =>
        if t !in s.calls { RemoveAllKeeps(s, t, receipts, pid); }
      case Continue(t) =>
        if t in s.calls { ResumeKeeps(s, t, pid); }
      case _ =>
    }
  }

  /** Services come and go. */
  lemma ServiceKeeps(s: State, a: Act, pid: string)
    requires Orderly(s) && FuturesSound(s) && Indexed(s.repo) && KeysSound(s) && CreatesQuietly(s, a) && PidSound(s, pid)
    requires a.AddManagedService? || a.AddManagedServiceFactory? || a.RemoveService?
    ensures KeepsPid(s, Next(s, a), pid)
  {
    match a {
      case AddManagedService(p) => AddManagedKeeps(s, p, pid);
      case AddManagedServiceFactory(p) => AddFactoryKeeps(s, p, pid);
      case RemoveService(gone) => ForgetKeeps(s, gone, pid);
      case _ =>
    }
  }

  /** The worker. */
  lemma WorkerKeeps(s: State, a: Act, pid: string)
    requires Orderly(s) && FuturesSound(s) && Indexed(s.repo) && KeysSound(s) && CreatesQuietly(s, a) && PidSound(s, pid)
    requires a.TakeTask? || a.FinishTask?
    ensures KeepsPid(s, Next(s, a), pid)
  {
    match a {
      case TakeTask =>
        if s.queue != [] && s.worker.Idle? {
          TakePid(s, pid);
          forall k | k in s.services && Agrees(s, k, pid) ensures Agrees(Take(s), k, pid) {
            TakeKeeps(s, k, pid);
          }
        }
      case FinishTask =>
        if s.worker.Busy? {
          FinishPid(s, pid);
          forall k | k in s.services && Interested(s.services[k], pid) && Agrees(s, k, pid) ensures Agrees(Finish(s), k, pid) {
            FinishKeeps(s, k, pid);
          }
        }
      case _ =>
    }
  }

  lemma NextKeepsPid(s: State, a: Act, pid: string)
    requires Orderly(s) && FuturesSound(s) && Indexed(s.repo) && KeysSound(s) && CreatesQuietly(s, a) && PidSound(s, pid)
    ensures KeepsPid(s, Next(s, a), pid)
  {
    if a.AddConfigurations? || a.RemoveConfigurations? || a.Continue? {
      BatchActKeeps(s, a, pid);
    } else if a.AddManagedService? || a.AddManagedServiceFactory? || a.RemoveService? {
      ServiceKeeps(s, a, pid);
    } else if a.TakeTask? || a.FinishTask? {
      WorkerKeeps(s, a, pid);
    } else {
      ClientKeeps(s, a, pid);
    }
  }

  lemma ServicesStay(s: State, a: Act)
    requires Wired(s.repo)
    requires !a.AddManagedService? && !a.AddManagedServiceFactory? && !a.RemoveService? && !a.FinishTask?
    ensures Next(s, a).services == s.services
  {
  }

  /** A service keeps its kind and its PID. */
  lemma FinishIdentity(s: State, k: nat)
    requires s.worker.Busy? && k in Finish(s).services
    ensures k in s.services && Finish(s).services[k].kind == s.services[k].kind && Finish(s).services[k].pid == s.services[k].pid
  {
  }

  lemma ServicesKept(s: State, a: Act, k: nat)
    requires Wired(s.repo) && k in Next(s, a).services && !a.AddManagedService? && !a.AddManagedServiceFactory?
    ensures k in s.services && Next(s, a).services[k].kind == s.services[k].kind && Next(s, a).services[k].pid == s.services[k].pid
  {
    match a {
      case FinishTask => if s.worker.Busy? { FinishIdentity(s, k); }
      case RemoveService(_) =>
      case _ => ServicesStay(s, a);
    }
  }

  /** A service tracked from this step on agrees from the start; the others keep what they are. */
  lemma NextServices(s: State, a: Act, k: nat, pid: string)
    requires Wired(s.repo) && FuturesSound(s) && Indexed(s.repo) && KeysSound(s) && PidSound(s, pid)
    requires k in Next(s, a).services && Interested(Next(s, a).services[k], pid)
    ensures if k in s.services then Interested(s.services[k], pid) else Agrees(Next(s, a), k, pid)
  {
    hide Agrees, PidSound, FuturesSound, Indexed, AddAll, RemoveAll, Resume, Instances;
    match a {
      case AddManagedService(p) => AddManagedKeeps(s, p, pid);
      case AddManagedServiceFactory(p) => AddFactoryKeeps(s, p, pid);
      case _ => ServicesKept(s, a, k);
    }
  }

  lemma NextConsistent(s: State, a: Act)
    requires Consistent(s) && CreatesQuietly(s, a)
    ensures Consistent(Next(s, a))
  {
    var s' := Next(s, a);
    NextKeepsProtocol(s, a);
    NextKeepsFutures(s, a);
    NextIndexedExactly(s, a);
    NextKeepsKeys(s, a);
    forall pid ensures PidSound(s', pid) {
      NextKeepsPid(s, a, pid);
    }
    forall k, pid | k in s'.services && Interested(s'.services[k], pid) ensures Agrees(s', k, pid) {
      NextServices(s, a, k, pid);
      NextKeepsPid(s, a, pid);
    }
  }

  // ---- runs ----------------------------------------------------------------------------------

  lemma {:induction false} QuietRunConsistent(acts: seq<Act>)
    requires QuietRun(acts)
    ensures Consistent(Run(INIT, acts))
  {
    if acts == [] {
      assert Factories({}) == {};
      assert forall pid :: PidSound(INIT, pid);
    } else {
      var n := |acts| - 1;
      forall i | 0 <= i < n ensures CreatesQuietly(Run(INIT, acts[..n][..i]), acts[..n][i]) {
        assert acts[..n][..i] == acts[..i];
      }
      QuietRunConsistent(acts[..n]);
      NextConsistent(Run(INIT, acts[..n]), acts[n]);
    }
  }

  /** The promise the engine is for.  Over every run in which no PID is created again while news of
      its earlier life is on its way: whenever no call is half done and no task is left, every
      tracked service was last handed what the repository holds for each of its PIDs. */
  lemma EventualAgreement(acts: seq<Act>, k: nat, pid: string)
    requires QuietRun(acts) && Quiescent(Run(INIT, acts))
    requires k in Run(INIT, acts).services && Interested(Run(INIT, acts).services[k], pid)
    ensures InAgreement(Run(INIT, acts), k, pid)
  {
    QuietRunConsistent(acts);
    QuiescentAgrees(Run(INIT, acts), k, pid);
  }
}
