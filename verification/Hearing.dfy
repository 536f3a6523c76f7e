/** Who hears of what, in the terms of the program's callers: from the tracking of a service to the end of a
    run, and for every PID that a service is, or is not, concerned with. */
module Hearing {
  import opened Pids
  import opened Repository
  import opened Engine
  import opened Protocol
  import opened Agreement
  import opened AgreementRuns
  import opened LaterWrites

  /** A managed service is concerned with its own PID, a factory with the PIDs that begin with its own and
      have their first `~` behind it. */
  lemma InterestedExactly(w: Tracked, pid: string)
    ensures w.kind == Managed ==> (Interested(w, pid) <==> pid == w.pid)
    ensures w.kind == Factory ==> (Interested(w, pid) <==> w.pid != "" && '~' !in w.pid && w.pid + "~" <= pid)
  {
    if w.kind == Factory && w.pid != "" {
      FactoryPidExactly(pid, w.pid);
    }
  }

  // ---- from tracking to the end --------------------------------------------------------------

  /** A service stays what it is until it is removed. */
  lemma {:induction false} StaysTracked(acts: seq<Act>, i: nat, k: nat)
    requires i <= |acts| && k in Run(INIT, acts[..i]).services
    requires forall j :: i <= j < |acts| ==> acts[j] != RemoveService(k)
    ensures var w := Run(INIT, acts[..i]).services[k];
            var s := Run(INIT, acts);
            k in s.services && s.services[k].kind == w.kind && s.services[k].pid == w.pid
    decreases |acts|
  {
    hide Next, KeysSound, Orderly, Wired;
    InitiallySound();
    if i == |acts| {
      assert acts[..i] == acts;
    } else {
      var n := |acts| - 1;
      assert acts[..n][..i] == acts[..i];
      RunStaysSound(INIT, acts[..n]);
      StaysTracked(acts[..n], i, k);
      StepKeepsService(Run(INIT, acts[..n]), acts[n], k);
    }
  }

  lemma StepKeepsService(s: State, a: Act, k: nat)
    requires Wired(s.repo) && KeysSound(s) && k in s.services && a != RemoveService(k)
    ensures var s' := Next(s, a); k in s'.services && s'.services[k].kind == s.services[k].kind && s'.services[k].pid == s.services[k].pid
  {
    if a.FinishTask? {
      if s.worker.Busy? { SameKeys(s); }
    } else if !a.RemoveService? {
      hide Resume, Instances, AddAll, RemoveAll, ReadFor, Finish;
      assert s.services.Keys <= Next(s, a).services.Keys;
    }
    NextKeepsIdentity(s, a, k);
  }

  lemma ManagedIsTracked(s: State, pid: string)
    requires Wired(s.repo) && pid != ""
    ensures var s' := Next(s, AddManagedService(pid));
            s.nextService in s'.services && s'.services[s.nextService].kind == Managed && s'.services[s.nextService].pid == pid
  {
  }

  lemma FactoryIsTracked(s: State, pid: string)
    requires Wired(s.repo) && pid != ""
    ensures var s' := Next(s, AddManagedServiceFactory(pid));
            s.nextService in s'.services && s'.services[s.nextService].kind == Factory && s'.services[s.nextService].pid == pid
  {
  }

  /** A managed service that starts being tracked is handed what its PID shows, nothing if that is being removed,
      and remembers the count; one whose PID was never updated is handed nothing. */
  lemma NewManagedServiceIsTold(s: State, pid: string)
    requires Wired(s.repo) && pid != ""
    ensures var s', k := Next(s, AddManagedService(pid)), s.nextService;
            if pid in s.repo.configurations && s.repo.objects[s.repo.configurations[pid]].changeCount > 0 then
              var c := s.repo.objects[s.repo.configurations[pid]];
              var shown := if c.removed then Snapshot(map[], 0) else Snapshot(c.properties, c.changeCount);
              && s'.queue == s.queue + [Posted(s.futuresID + 1, HandOver(k, map[pid := shown]))]
              && s'.services == s.services[k := Tracked(Managed, pid, map[pid := shown.version], map[])]
            else
              s' == s.(services := s.services[k := Tracked(Managed, pid, map[pid := 0], map[])], nextService := k + 1)
  {
  }

  /** A factory is handed exactly the instances in the index that are live and have been updated, all at once,
      and remembers their counts; if there are none it is handed nothing. */
  lemma NewFactoryIsTold(s: State, f: string)
    requires Wired(s.repo) && f != ""
    ensures var s', k, r := Next(s, AddManagedServiceFactory(f)), s.nextService, s.repo;
            && k in s'.services && s'.services[k].kind == Factory && s'.services[k].handed == map[]
            && (forall p :: p in s'.services[k].last <==>
                  && f in r.factoryInstances && p in r.factoryInstances[f] && p in r.configurations
                  && !r.objects[r.configurations[p]].removed && r.objects[r.configurations[p]].changeCount > 0)
            && (if s'.services[k].last == map[] then s'.queue == s.queue
                else |s'.queue| == |s.queue| + 1 && s'.queue[..|s.queue|] == s.queue
                     && var task := s'.queue[|s.queue|].task;
                     && task.HandOver? && task.service == k && task.updates.Keys == s'.services[k].last.Keys
                     && forall p :: p in task.updates ==>
                          && task.updates[p].properties == r.objects[r.configurations[p]].properties
                          && task.updates[p].version == s'.services[k].last[p] == r.objects[r.configurations[p]].changeCount)
  {
    var updates := Instances(s.repo, f);
    var last := map p | p in updates :: updates[p].version;
    assert last.Keys == updates.Keys;
    assert updates == map[] <==> last == map[];
  }

  /** What it is then handed joins what it had been handed; no count is touched, and no other service. */
  lemma HandOverArrives(services: map<nat, Tracked>, k: nat, updates: map<string, Snapshot>)
    requires k in services
    ensures var services' := Perform(services, Hand(k, updates));
            && services'.Keys == services.Keys && (forall j :: j in services && j != k ==> services'[j] == services[j])
            && services'[k] == services[k].(handed := services'[k].handed)
            && services'[k].handed.Keys == services[k].handed.Keys + updates.Keys
            && (forall p :: p in services'[k].handed ==>
                  services'[k].handed[p] == if p in updates then Updated(updates[p].properties, updates[p].version) else services[k].handed[p])
  {
  }

  /** One service's turn when a PID is announced: a service that is not concerned is left alone; otherwise it is
      told of a removal and forgets the count, or is handed the properties and remembers the count if that is
      above the last one. */
  lemma TurnExactly(w: Tracked, pid: string, count: nat, removed: bool, snapshot: Snapshot)
    ensures var w' := NotifyOne(w, pid, count, removed, snapshot);
            var last := if pid in w.last then w.last[pid] else 0;
            if !(if w.kind == Managed then pid == w.pid else w.pid != "" && '~' !in w.pid && w.pid + "~" <= pid) then w' == w
            else if removed then
              w' == w.(last := w.last - {pid}, handed := w.handed[pid := if w.kind == Managed then Updated(map[], 0) else Handed.Removed])
            else if last < count then
              w' == w.(last := w.last[pid := count], handed := w.handed[pid := Updated(snapshot.properties, snapshot.version)])
            else
              w' == w.(last := w.last[pid := last])
  {
    InterestedExactly(w, pid);
    hide Interested;
  }

  /** The configuration under this PID has been updated. */
  predicate Stored(r: Repo, pid: string, properties: Properties)
    requires Wired(r)
  {
    pid in r.configurations && r.objects[r.configurations[pid]].changeCount > 0
    && r.objects[r.configurations[pid]].properties == properties
  }

  /** A managed service tracked at any moment of a quiet run and not removed since: at rest it was last
      handed the stored properties of its PID; if none are stored, nothing or no properties. */
  lemma ManagedServiceHears(acts: seq<Act>, i: nat, pid: string)
    requires QuietRun(acts) && Quiescent(Run(INIT, acts))
    requires i < |acts| && acts[i] == AddManagedService(pid) && pid != ""
    requires forall j :: i < j < |acts| ==> acts[j] != RemoveService(Run(INIT, acts[..i]).nextService)
    ensures var s, k := Run(INIT, acts), Run(INIT, acts[..i]).nextService;
            && k in s.services
            && (forall properties :: Stored(s.repo, pid, properties) ==>
                  pid in s.services[k].handed && s.services[k].handed[pid].Updated? && s.services[k].handed[pid].properties == properties)
            && ((forall properties :: !Stored(s.repo, pid, properties)) && pid in s.services[k].handed ==>
                  s.services[k].handed[pid].Updated? && s.services[k].handed[pid].properties == map[])
  {
    var before, k := Run(INIT, acts[..i]), Run(INIT, acts[..i]).nextService;
    assert acts[..i + 1][..i] == acts[..i];
    ManagedIsTracked(before, pid);
    hide Next;
    StaysTracked(acts, i + 1, k);
    EventualAgreement(acts, k, pid);
    NothingStored(Run(INIT, acts).repo, pid);
    hide QuietRun, Quiescent;
  }

  lemma NothingStored(r: Repo, pid: string)
    requires Wired(r)
    ensures (forall properties :: !Stored(r, pid, properties))
            <==> !(pid in r.configurations && r.objects[r.configurations[pid]].changeCount > 0)
  {
    if pid in r.configurations && r.objects[r.configurations[pid]].changeCount > 0 {
      assert Stored(r, pid, r.objects[r.configurations[pid]].properties);
    }
  }

  /** The same for a factory and each of its instances, whatever its name. */
  lemma FactoryHears(acts: seq<Act>, i: nat, f: string, name: string)
    requires QuietRun(acts) && Quiescent(Run(INIT, acts))
    requires i < |acts| && acts[i] == AddManagedServiceFactory(f) && f != "" && '~' !in f
    requires forall j :: i < j < |acts| ==> acts[j] != RemoveService(Run(INIT, acts[..i]).nextService)
    ensures var s, k, pid := Run(INIT, acts), Run(INIT, acts[..i]).nextService, f + "~" + name;
            && k in s.services
            && (forall properties :: Stored(s.repo, pid, properties) ==>
                  pid in s.services[k].handed && s.services[k].handed[pid].Updated? && s.services[k].handed[pid].properties == properties)
            && ((forall properties :: !Stored(s.repo, pid, properties)) && pid in s.services[k].handed ==>
                  s.services[k].handed[pid].Removed?)
  {
    var before, k, pid := Run(INIT, acts[..i]), Run(INIT, acts[..i]).nextService, f + "~" + name;
    assert acts[..i + 1][..i] == acts[..i];
    FactoryIsTracked(before, f);
    hide Next;
    StaysTracked(acts, i + 1, k);
    assert f + "~" <= pid;
    InterestedExactly(Run(INIT, acts).services[k], pid);
    EventualAgreement(acts, k, pid);
    NothingStored(Run(INIT, acts).repo, pid);
    hide QuietRun, Quiescent;
  }

  // ---- nothing else --------------------------------------------------------------------------

  /** The service's own PID, or one that names an instance of the factory. */
  predicate Belongs(w: Tracked, pid: string) {
    if w.kind == Managed then pid == w.pid else w.pid + "~" <= pid
  }

  predicate IndexBelongs(index: map<string, set<string>>) {
    forall f, p :: f in index && p in index[f] ==> f + "~" <= p
  }

  /** A hand-over on its way to a service that is still tracked. */
  predicate HandsOwn(s: State, k: nat, updates: map<string, Snapshot>) {
    k in s.services ==> forall p :: p in updates ==> Belongs(s.services[k], p)
  }

  ghost predicate OwnOnly(s: State) {
    && IndexBelongs(s.repo.factoryInstances)
    && (forall k, p :: k in s.services && p in s.services[k].handed ==> Belongs(s.services[k], p))
    && (forall x :: x in s.queue && x.task.HandOver? ==> HandsOwn(s, x.task.service, x.task.updates))
    && (s.worker.Busy? && s.worker.job.Hand? ==> HandsOwn(s, s.worker.job.service, s.worker.job.updates))
  }

  lemma RegisterBelongs(r: Repo, c: Config)
    requires IndexBelongs(r.factoryInstances) && (c.factoryPid == "" || c.factoryPid + "~" <= c.pid)
    ensures IndexBelongs(Register(r, c).factoryInstances)
  {
  }

  lemma FactoryPidBelongs(pid: string)
    ensures FactoryPid(pid) == "" || FactoryPid(pid) + "~" <= pid
  {
    if FactoryPid(pid) != "" {
      FactoryPidExactly(pid, FactoryPid(pid));
    }
  }

  lemma EraseBelongs(r: Repo, pid: string)
    requires IndexBelongs(r.factoryInstances)
    ensures IndexBelongs(Erase(r, pid).factoryInstances)
  {
    hide FactoryPid;
  }

  lemma {:induction false} AddAllBelongs(r: Repo, metadata: seq<Metadata>)
    requires Wired(r) && IndexBelongs(r.factoryInstances)
    ensures IndexBelongs(AddAll(r, metadata).repo.factoryInstances)
  {
    if metadata != [] {
      var n := |metadata| - 1;
      var before, m := AddAll(r, metadata[..n]).repo, metadata[n];
      AddAllBelongs(r, metadata[..n]);
      FactoryPidBelongs(m.pid);
      hide IndexBelongs, Register, FactoryPid;
      if m.pid !in before.configurations {
        RegisterBelongs(before, NewConfig(m.pid, FactoryPid(m.pid), m.properties, 1, FromMetadata));
      }
    }
  }

  lemma {:induction false} RemoveAllBelongs(r: Repo, receipts: seq<Receipt>)
    requires Wired(r) && IndexBelongs(r.factoryInstances)
    ensures IndexBelongs(RemoveAll(r, receipts).repo.factoryInstances)
  {
    if receipts != [] {
      var n := |receipts| - 1;
      var before, q := RemoveAll(r, receipts[..n]).repo, receipts[n];
      RemoveAllBelongs(r, receipts[..n]);
      hide IndexBelongs, RemoveInstance;
      if q.pid in before.configurations && before.configurations[q.pid] == q.configurationId {
        EraseBelongs(before, q.pid);
        EraseBelongs(SetObject(before, q.configurationId, before.objects[q.configurationId].(removed := true)), q.pid);
      }
    }
  }

  lemma ResumeBelongs(s: State, t: nat)
    requires Wired(s.repo) && t in s.calls && IndexBelongs(s.repo.factoryInstances)
    ensures IndexBelongs(Resume(s, t).repo.factoryInstances)
  {
    hide IndexBelongs, RemoveInstance;
    if s.calls[t].Removing? && s.calls[t].id < |s.repo.objects| {
      EraseBelongs(s.repo, s.repo.objects[s.calls[t].id].pid);
    }
  }

  lemma NextIndexBelongs(s: State, a: Act)
    requires Wired(s.repo) && IndexBelongs(s.repo.factoryInstances)
    ensures IndexBelongs(Next(s, a).repo.factoryInstances)
  {
    hide IndexBelongs, AddAll, RemoveAll, Resume, Instances, ReadFor, Perform, Register, FactoryPid;
    match a {
      case GetConfiguration(pid) =>
        FactoryPidBelongs(pid);
        RegisterBelongs(s.repo, NewConfig(pid, FactoryPid(pid), map[], 0, FromClient));
      case CreateFactoryConfiguration(f, name) =>
        RegisterBelongs(s.repo, NewConfig(f + "~" + name, f, map[], 0, FromClient));
      case AddConfigurations(_, metadata) => AddAllBelongs(s.repo, metadata);
      case RemoveConfigurations(_, receipts) => RemoveAllBelongs(s.repo, receipts);
      case Continue(t) => if t in s.calls { ResumeBelongs(s, t); }
      case _ =>
    }
  }

  /** The worker talks to the services. */
  lemma FinishTellsOwn(s: State)
    requires OwnOnly(s) && s.worker.Busy?
    ensures OwnOnly(Finish(s))
  {
    var s' := Finish(s);
    forall k, p | k in s'.services && p in s'.services[k].handed ensures Belongs(s'.services[k], p) {
      ToldOwn(s, k, p);
    }
    forall k, p | k in s'.services ensures Belongs(s'.services[k], p) <==> Belongs(s.services[k], p) {
      FinishIdentity(s, k);
    }
    hide Finish, Belongs;
    assert s'.services.Keys == s.services.Keys && s'.queue == s.queue && s'.worker.Idle? && s'.repo == s.repo by {
      SameKeys(s);
    }
  }

  lemma SameKeys(s: State)
    requires s.worker.Busy?
    ensures var s' := Finish(s); s'.services.Keys == s.services.Keys && s'.queue == s.queue && s'.worker.Idle? && s'.repo == s.repo
  {
    hide NotifyOne, HandAll;
  }

  lemma ToldOwn(s: State, k: nat, p: string)
    requires OwnOnly(s) && s.worker.Busy? && k in Finish(s).services && p in Finish(s).services[k].handed
    ensures Belongs(Finish(s).services[k], p)
  {
    FinishIdentity(s, k);
    var w := s.services[k];
    match s.worker.job {
      case Nothing =>
      case Notify(pid, _, _, _, _) =>
        InterestedExactly(w, pid);
        hide Interested;
        assert p in w.handed || (p == pid && Interested(w, pid));
      case Hand(j, updates) =>
        assert p in w.handed || (k == j && p in updates);
    }
  }

  lemma TrackTellsOwn(s: State, a: Act)
    requires Wired(s.repo) && OwnOnly(s) && KeysSound(s) && (a.AddManagedService? || a.AddManagedServiceFactory?)
    ensures OwnOnly(Next(s, a))
  {
    var s' := Next(s, a);
    if s' != s {
      OneMoreService(s, a);
      hide Belongs, Next, IndexBelongs;
      forall x | x in s'.queue && x.task.HandOver? ensures HandsOwn(s', x.task.service, x.task.updates) {
        if x !in s.queue {
          FirstHandOverIsOwn(s, a, x);
        }
      }
    }
  }

  lemma OneMoreService(s: State, a: Act)
    requires Wired(s.repo) && KeysSound(s) && (a.AddManagedService? || a.AddManagedServiceFactory?) && Next(s, a) != s
    ensures var s', k := Next(s, a), s.nextService;
            && k !in s.services && k in s'.services && s'.services[k].handed == map[]
            && s'.services - {k} == s.services && s'.worker == s.worker && s'.repo == s.repo
            && (forall j :: j in s'.services && j != k ==> j in s.services && s'.services[j] == s.services[j])
            && (forall x :: x in s.queue && x.task.HandOver? ==> x.task.service != k)
            && (s.worker.Busy? && s.worker.job.Hand? ==> s.worker.job.service != k)
  {
    hide Instances, Wired;
    assert Next(s, a).services - {s.nextService} == s.services;
  }

  lemma FirstHandOverIsOwn(s: State, a: Act, x: Posted)
    requires Wired(s.repo) && IndexBelongs(s.repo.factoryInstances)
    requires a.AddManagedService? || a.AddManagedServiceFactory?
    requires x in Next(s, a).queue && x !in s.queue && x.task.HandOver?
    ensures HandsOwn(Next(s, a), x.task.service, x.task.updates)
  {
  }

  lemma NextTellsOwn(s: State, a: Act)
    requires Wired(s.repo) && OwnOnly(s) && KeysSound(s)
    ensures OwnOnly(Next(s, a))
  {
    NextIndexBelongs(s, a);
    match a {
      case AddManagedService(_) => TrackTellsOwn(s, a);
      case AddManagedServiceFactory(_) => TrackTellsOwn(s, a);
      case FinishTask => if s.worker.Busy? { FinishTellsOwn(s); }
      case _ => OthersTellOwn(s, a);
    }
    hide Next, OwnOnly, KeysSound;
  }

  /** No new hand-over, and no service that was not there. */
  predicate TellsNoMore(s: State, s': State) {
    && (forall k :: k in s'.services ==> k in s.services && s'.services[k] == s.services[k])
    && (forall x :: x in s'.queue && x.task.HandOver? ==> x in s.queue)
    && (s'.worker == s.worker
        || (s'.worker.Busy? && s'.worker.job.Hand? ==>
              exists x :: x in s.queue && x.task == HandOver(s'.worker.job.service, s'.worker.job.updates)))
  }

  lemma OthersTellOwn(s: State, a: Act)
    requires Wired(s.repo) && OwnOnly(s) && KeysSound(s) && IndexBelongs(Next(s, a).repo.factoryInstances)
    requires !a.AddManagedService? && !a.AddManagedServiceFactory? && !a.FinishTask?
    ensures OwnOnly(Next(s, a))
  {
    OthersTellNoMore(s, a);
    hide IndexBelongs, Belongs, Next;
    var s' := Next(s, a);
    forall k, updates | HandsOwn(s, k, updates) ensures HandsOwn(s', k, updates) {
    }
  }

  lemma OthersTellNoMore(s: State, a: Act)
    requires Wired(s.repo) && KeysSound(s)
    requires !a.AddManagedService? && !a.AddManagedServiceFactory? && !a.FinishTask?
    ensures TellsNoMore(s, Next(s, a))
  {
    hide AddAll, RemoveAll, Register, Erase, Detach, ReadFor;
    if a.Continue? {
      if a.thread in s.calls { PostsNoHandOver(s, a.thread); }
      hide Resume;
    } else if a.TakeTask? && s.queue != [] && s.worker.Idle? {
      TakesFromQueue(s);
      hide Take;
    }
  }

  lemma TakesFromQueue(s: State)
    requires Wired(s.repo) && s.queue != [] && s.worker.Idle?
    ensures TellsNoMore(s, Take(s))
  {
    var s' := Take(s);
    assert s.queue[0] in s.queue && forall x :: x in s'.queue ==> x in s.queue;
    if s.queue[0].task.Announce? {
      ReadsNoHandOver(s.repo, s.queue[0].task.pid, s.queue[0].task.changeCount, s.services.Keys);
      assert !s'.worker.job.Hand?;
    } else if s.queue[0].task.HandOver? {
      assert s.queue[0].task == HandOver(s'.worker.job.service, s'.worker.job.updates);
    }
    hide ReadFor;
  }

  lemma ReadsNoHandOver(r: Repo, pid: string, count: nat, audience: set<nat>)
    requires Wired(r)
    ensures !ReadFor(r, pid, count, audience).Hand?
  {
  }

  /** Calls post announcements and logs. */
  lemma PostsNoHandOver(s: State, t: nat)
    requires Wired(s.repo) && KeysSound(s) && t in s.calls
    ensures forall x :: x in Resume(s, t).queue && x.task.HandOver? ==> x in s.queue
    ensures Resume(s, t).services == s.services && Resume(s, t).worker == s.worker
  {
    hide Erase, Detach;
    if s.calls[t].Finishing? && s.calls[t].posts != [] {
      assert s.calls[t].posts[0] in s.calls[t].posts;
    }
  }

  /** Over every run: whatever a service was handed was about its own PID, or about an instance of its
      factory. */
  lemma {:induction false} HearsOnlyItsOwn(acts: seq<Act>, k: nat, pid: string)
    requires k in Run(INIT, acts).services && pid in Run(INIT, acts).services[k].handed
    ensures var w := Run(INIT, acts).services[k]; if w.kind == Managed then pid == w.pid else w.pid + "~" <= pid
  {
    RunTellsOwn(acts);
  }

  lemma {:induction false} RunTellsOwn(acts: seq<Act>)
    ensures OwnOnly(Run(INIT, acts))
  {
    if acts != [] {
      var n := |acts| - 1;
      InitiallySound();
      RunStaysSound(INIT, acts[..n]);
      RunTellsOwn(acts[..n]);
      hide OwnOnly, KeysSound, Orderly, Next;
      NextTellsOwn(Run(INIT, acts[..n]), acts[n]);
    }
  }

  // ---- services that go ----------------------------------------------------------------------

  /** A service that is removed is gone for good, and nothing else is. */
  lemma RemovedStaysAway(acts: seq<Act>, more: seq<Act>, k: nat)
    requires k in Run(INIT, acts).services
    ensures var s := Run(INIT, acts);
            var s' := Next(s, RemoveService(k));
            && k !in Run(s', more).services
            && s' == s.(services := s'.services) && forall j :: j in s.services && j != k ==> j in s'.services && s'.services[j] == s.services[j]
  {
    var s := Run(INIT, acts);
    InitiallySound();
    RunStaysSound(INIT, acts);
    var s' := Next(s, RemoveService(k));
    NextKeepsProtocol(s, RemoveService(k));
    NextKeepsKeys(s, RemoveService(k));
    StaysAway(s', more, k);
  }

  lemma {:induction false} StaysAway(s: State, more: seq<Act>, k: nat)
    requires Orderly(s) && KeysSound(s) && k !in s.services && k < s.nextService
    ensures k !in Run(s, more).services
  {
    if more != [] {
      var n := |more| - 1;
      RunStaysSound(s, more[..n]);
      StaysAway(s, more[..n], k);
      if k in Run(s, more).services {
        ServiceBefore(Run(s, more[..n]), more[n], k);
      }
    }
  }
}
