/** What every interleaving keeps: back pointers, removals in flight, and the table of futures. */
module Protocol {
  import opened Pids
  import opened Repository
  import opened Engine
  import opened Evolution

  /** A mapped object still has its back pointer, and an object is mapped as long as it has not
      been removed. */
  ghost predicate MapSound(r: Repo)
    requires Wired(r)
  {
    && (forall p :: p in r.configurations ==> r.objects[r.configurations[p]].attached)
    && (forall id: nat :: Unmapped(r, id) ==> r.objects[id].removed)
  }

  /** Every object about to be cut off has already left the map. */
  ghost predicate CallSound(r: Repo, call: Call) {
    match call
    case Updating(id) => id < |r.objects|
    case Removing(id) => id < |r.objects| && r.objects[id].removed
    case Finishing(detach, _) =>
      forall id :: id in detach ==> Unmapped(r, id)
  }

  ghost predicate MappedRemoved(r: Repo, pid: string)
    requires Wired(r)
  {
    pid in r.configurations && r.objects[r.configurations[pid]].removed
  }

  /** Some thread is between the two critical sections of Remove on this object. */
  ghost predicate RemovalInFlight(s: State, id: nat) {
    exists t :: t in s.calls && s.calls[t] == Removing(id)
  }

  ghost predicate Orderly(s: State) {
    && Wired(s.repo)
    && MapSound(s.repo)
    && (forall t :: t in s.calls ==> CallSound(s.repo, s.calls[t]))
    && (forall p :: MappedRemoved(s.repo, p) ==> RemovalInFlight(s, s.repo.configurations[p]))
  }

  // ---- the two batch operations --------------------------------------------------------------

  /** No PID of `r'` leads to a removed object unless it did so before. */
  ghost predicate NoNewRemoval(r: Repo, r': Repo)
    requires Wired(r) && Wired(r')
  {
    forall p :: MappedRemoved(r', p) ==> MappedRemoved(r, p) && r.configurations[p] == r'.configurations[p]
  }

  ghost predicate BatchSound(r: Repo, r': Repo, detached: seq<nat>)
    requires Wired(r) && Wired(r')
  {
    && MapSound(r')
    && NoNewRemoval(r, r')
    && (forall id :: id in detached ==> Unmapped(r', id))
  }

  lemma BatchJoin(a: Repo, b: Repo, c: Repo, first: seq<nat>, second: seq<nat>)
    requires Wired(a) && Wired(b) && Wired(c)
    requires BatchSound(a, b, first) && BatchSound(b, c, second) && Evolves(b, c)
    ensures BatchSound(a, c, first + second)
  {
  }

  lemma RegisterSound(r: Repo, c: Config)
    requires Wired(r) && MapSound(r) && c.pid !in r.configurations && c.attached && !c.removed
    ensures Wired(Register(r, c)) && BatchSound(r, Register(r, c), [])
  {
    var r' := Register(r, c);
    forall id: nat | Unmapped(r', id) ensures r'.objects[id].removed {
      assert id < |r.objects|;
      assert Unmapped(r, id);
    }
  }

  lemma WriteSound(r: Repo, id: nat, properties: Properties)
    requires Wired(r) && MapSound(r) && id < |r.objects|
    ensures BatchSound(r, SetObject(r, id, Write(r.objects[id], properties)), [])
  {
    var r' := SetObject(r, id, Write(r.objects[id], properties));
    forall k: nat | Unmapped(r', k) ensures r'.objects[k].removed {
      assert Unmapped(r, k);
    }
  }

  lemma AddOneSound(r: Repo, m: Metadata)
    requires Wired(r) && MapSound(r)
    ensures BatchSound(r, AddOne(r, m).repo, AddOne(r, m).detached)
  {
    if m.pid !in r.configurations {
      RegisterSound(r, NewConfig(m.pid, FactoryPid(m.pid), m.properties, 1, FromMetadata));
    } else {
      var id := r.configurations[m.pid];
      if !r.objects[id].removed {
        WriteSound(r, id, m.properties);
      } else {
        var r' := AddOne(r, m).repo;
        forall k: nat | Unmapped(r', k) ensures r'.objects[k].removed {
          assert k < |r.objects|;
          assert k == id || Unmapped(r, k);
        }
      }
    }
  }

  lemma {:induction false} AddAllSound(r: Repo, metadata: seq<Metadata>)
    requires Wired(r) && MapSound(r)
    ensures BatchSound(r, AddAll(r, metadata).repo, AddAll(r, metadata).detached)
  {
    if metadata != [] {
      var n := |metadata| - 1;
      AddAllSound(r, metadata[..n]);
      var before := AddAll(r, metadata[..n]);
      var one := AddOne(before.repo, metadata[n]);
      AddOneSound(before.repo, metadata[n]);
      AddOneEvolves(before.repo, metadata[n]);
      BatchJoin(r, before.repo, one.repo, before.detached, one.detached);
    }
  }

  lemma RemoveOneSound(r: Repo, t: Receipt)
    requires Wired(r) && MapSound(r)
    ensures BatchSound(r, RemoveOne(r, t).repo, RemoveOne(r, t).detached)
  {
  }

  lemma {:induction false} RemoveAllSound(r: Repo, receipts: seq<Receipt>)
    requires Wired(r) && MapSound(r)
    ensures BatchSound(r, RemoveAll(r, receipts).repo, RemoveAll(r, receipts).detached)
  {
    if receipts != [] {
      var n := |receipts| - 1;
      RemoveAllSound(r, receipts[..n]);
      var before := RemoveAll(r, receipts[..n]);
      var one := RemoveOne(before.repo, receipts[n]);
      RemoveOneSound(before.repo, receipts[n]);
      RemoveOneEvolves(before.repo, receipts[n]);
      BatchJoin(r, before.repo, one.repo, before.detached, one.detached);
    }
  }

  // ---- every step keeps the protocol ---------------------------------------------------------

  lemma CallsStaySound(s: State, r': Repo)
    requires Orderly(s) && Evolves(s.repo, r')
    ensures forall t :: t in s.calls ==> CallSound(r', s.calls[t])
  {
    forall t | t in s.calls ensures CallSound(r', s.calls[t]) {
      assert CallSound(s.repo, s.calls[t]);
      match s.calls[t]
      case Removing(id) => assert Ages(s.repo.objects[id], r'.objects[id]);
      case _ =>
    }
  }

  /** A step in which one thread's call moves on and no live object is marked removed. */
  lemma CallStepKeepsProtocol(s: State, s': State, t: nat)
    requires Orderly(s) && Wired(s'.repo) && Evolves(s.repo, s'.repo)
    requires MapSound(s'.repo) && NoNewRemoval(s.repo, s'.repo)
    requires s'.calls - {t} == s.calls - {t}
    requires t in s'.calls ==> CallSound(s'.repo, s'.calls[t])
    requires t in s.calls && s.calls[t].Removing? ==> Unmapped(s'.repo, s.calls[t].id)
    ensures Orderly(s')
  {
    CallsStaySound(s, s'.repo);
    forall u | u in s'.calls ensures CallSound(s'.repo, s'.calls[u]) {
      if u != t {
        assert u in s'.calls - {t};
        assert u in s.calls;
      }
    }
    forall p | MappedRemoved(s'.repo, p) ensures RemovalInFlight(s', s'.repo.configurations[p]) {
      var u :| u in s.calls && s.calls[u] == Removing(s.repo.configurations[p]);
      assert u != t;
      assert u in s.calls - {t};
      assert s'.calls[u] == Removing(s'.repo.configurations[p]);
    }
  }

  lemma CreationKeepsProtocol(s: State, c: Config)
    requires Orderly(s) && c.pid !in s.repo.configurations && c.attached && !c.removed
    ensures Orderly(s.(repo := Register(s.repo, c)))
  {
    var s' := s.(repo := Register(s.repo, c));
    RegisterEvolves(s.repo, c);
    CallsStaySound(s, s'.repo);
    forall p | MappedRemoved(s'.repo, p) ensures RemovalInFlight(s', s'.repo.configurations[p]) {
      assert MappedRemoved(s.repo, p);
      var u :| u in s.calls && s.calls[u] == Removing(s.repo.configurations[p]);
      assert s'.calls[u] == Removing(s'.repo.configurations[p]);
    }
  }

  lemma RemoveKeepsProtocol(s: State, t: nat, id: nat)
    requires Orderly(s) && Callable(s, t, id)
    ensures Orderly(Next(s, Remove(t, id)))
  {
    var s' := Next(s, Remove(t, id));
    SetObjectEvolves(s.repo, id, s.repo.objects[id].(removed := true));
    CallsStaySound(s, s'.repo);
    forall p | MappedRemoved(s'.repo, p) ensures RemovalInFlight(s', s'.repo.configurations[p]) {
      if s'.repo.configurations[p] == id {
        assert s'.calls[t] == Removing(id);
      } else {
        assert MappedRemoved(s.repo, p);
        var u :| u in s.calls && s.calls[u] == Removing(s.repo.configurations[p]);
        assert s'.calls[u] == Removing(s'.repo.configurations[p]);
      }
    }
  }

  lemma DetachKeepsMap(r: Repo, id: nat)
    requires Wired(r) && MapSound(r) && Unmapped(r, id)
    ensures Wired(Detach(r, id)) && MapSound(Detach(r, id)) && NoNewRemoval(r, Detach(r, id))
  {
  }

  lemma ResumeKeepsProtocol(s: State, t: nat)
    requires Orderly(s) && t in s.calls
    ensures Orderly(Resume(s, t))
  {
    var s' := Resume(s, t);
    ResumeEvolves(s, t);
    ResumeKeepsMap(s, t);
    CallsStaySound(s, s'.repo);
    NextCallSound(s, s'.repo, t);
    hide Orderly, MapSound, NoNewRemoval, Evolves, Erase, Detach, Unmapped, CallSound;
    CallStepKeepsProtocol(s, s', t);
  }

  /** What is left of a call is sound where the call as a whole is, in particular after its section. */
  lemma NextCallSound(s: State, r: Repo, t: nat)
    requires Orderly(s) && t in s.calls && CallSound(r, s.calls[t])
    requires s.calls[t].Removing? ==> Unmapped(r, s.calls[t].id)
    ensures t in Resume(s, t).calls ==> CallSound(r, Resume(s, t).calls[t])
  {
    hide Erase, Detach, Unmapped, Orderly;
  }

  lemma StayKeepsMap(r: Repo)
    requires Wired(r)
    ensures NoNewRemoval(r, r)
  {
  }

  lemma EraseKeepsMap(r: Repo, pid: string)
    requires Wired(r) && MapSound(r) && MappedRemoved(r, pid)
    ensures var r' := Erase(r, pid);
            Wired(r') && MapSound(r') && NoNewRemoval(r, r') && Unmapped(r', r.configurations[pid])
  {
    hide RemoveInstance;
  }

  lemma NoNewRemovalOn(a: Repo, b: Repo, c: Repo)
    requires Wired(a) && Wired(b) && Wired(c) && NoNewRemoval(a, b) && NoNewRemoval(b, c)
    ensures NoNewRemoval(a, c)
  {
  }

  lemma DetachKeepsUnmapped(r: Repo, id: nat)
    requires Unmapped(r, id)
    ensures Unmapped(Detach(r, id), id)
  {
  }

  lemma AttachedIfMapped(r: Repo, id: nat)
    requires Wired(r) && MapSound(r) && id < |r.objects| && !r.objects[id].attached
    ensures Unmapped(r, id)
  {
  }

  lemma ResumeKeepsMap(s: State, t: nat)
    requires Orderly(s) && t in s.calls
    ensures var s' := Resume(s, t);
            && MapSound(s'.repo) && NoNewRemoval(s.repo, s'.repo)
            && s'.calls - {t} == s.calls - {t}
            && (s.calls[t].Removing? ==> Unmapped(s'.repo, s.calls[t].id))
  {
    assert CallSound(s.repo, s.calls[t]);
    assert Resume(s, t).calls - {t} == s.calls - {t};
    hide Erase, Detach, MapSound, NoNewRemoval;
    StayKeepsMap(s.repo);
    match s.calls[t] {
      case Updating(id) =>
      case Removing(id) =>
        var pid := s.repo.objects[id].pid;
        if !s.repo.objects[id].attached {
          AttachedIfMapped(s.repo, id);
        } else if pid in s.repo.configurations && s.repo.configurations[pid] == id {
          EraseKeepsMap(s.repo, pid);
          DetachKeepsMap(Erase(s.repo, pid), id);
          NoNewRemovalOn(s.repo, Erase(s.repo, pid), Detach(Erase(s.repo, pid), id));
          DetachKeepsUnmapped(Erase(s.repo, pid), id);
        } else {
          DetachKeepsMap(s.repo, id);
          DetachKeepsUnmapped(s.repo, id);
        }
      case Finishing(detach, _) =>
        if detach != [] {
          DetachKeepsMap(s.repo, detach[0]);
        }
    }
  }

  lemma UpdateKeepsProtocol(s: State, t: nat, id: nat, properties: Properties)
    requires Orderly(s)
    ensures Orderly(Next(s, Update(t, id, properties)))
    ensures Orderly(Next(s, UpdateIfDifferent(t, id, properties)))
  {
    hide AddAll, RemoveAll, Resume;
    UpdateEvolves(s, t, id, properties);
    if Callable(s, t, id) {
      var s' := Next(s, Update(t, id, properties));
      assert s'.calls - {t} == s.calls - {t};
      WriteSound(s.repo, id, properties);
      hide Evolves, Unmapped;
      CallStepKeepsProtocol(s, s', t);
    }
  }

  lemma BatchKeepsProtocol(s: State, t: nat, r: Repo, detached: seq<nat>, posts: seq<Task>)
    requires Orderly(s) && t !in s.calls
    requires Wired(r) && Evolves(s.repo, r) && BatchSound(s.repo, r, detached)
    ensures Orderly(s.(repo := r, calls := s.calls[t := Finishing(detached, posts)]))
  {
    var s' := s.(repo := r, calls := s.calls[t := Finishing(detached, posts)]);
    assert s'.calls - {t} == s.calls - {t};
    CallStepKeepsProtocol(s, s', t);
  }

  lemma NextKeepsProtocol(s: State, a: Act)
    requires Orderly(s)
    ensures Orderly(Next(s, a))
  {
    hide AddAll, RemoveAll, Resume, Register, Instances, ReadFor, Perform, BatchSound, Evolves;
    match a {
      case GetConfiguration(pid) =>
        if pid !in s.repo.configurations {
          CreationKeepsProtocol(s, NewConfig(pid, FactoryPid(pid), map[], 0, FromClient));
        }
      case CreateFactoryConfiguration(f, name) =>
        if f + "~" + name !in s.repo.configurations {
          CreationKeepsProtocol(s, NewConfig(f + "~" + name, f, map[], 0, FromClient));
        }
      case Update(t, id, properties) => UpdateKeepsProtocol(s, t, id, properties);
      case UpdateIfDifferent(t, id, properties) => UpdateKeepsProtocol(s, t, id, properties);
      case Remove(t, id) =>
        if Callable(s, t, id) { RemoveKeepsProtocol(s, t, id); }
      case AddConfigurations(t, metadata) =>
        if t !in s.calls {
          AddAllEvolves(s.repo, metadata);
          AddAllSound(s.repo, metadata);
          var all := AddAll(s.repo, metadata);
          BatchKeepsProtocol(s, t, all.repo, all.detached, Announcements(all.notices));
        }
      case RemoveConfigurations(t, receipts) =>
        if t !in s.calls {
          RemoveAllEvolves(s.repo, receipts);
          RemoveAllSound(s.repo, receipts);
          var all := RemoveAll(s.repo, receipts);
          BatchKeepsProtocol(s, t, all.repo, all.detached, Announcements(all.notices));
        }
      case Continue(t) =>
        if t in s.calls { ResumeKeepsProtocol(s, t); }
      case _ => QuietStepKeepsProtocol(s, Next(s, a));
    }
  }

  lemma QuietStepKeepsProtocol(s: State, s': State)
    requires Orderly(s) && s'.repo == s.repo && s'.calls == s.calls
    ensures Orderly(s')
  {
    forall p | MappedRemoved(s'.repo, p) ensures RemovalInFlight(s', s'.repo.configurations[p]) {
      var u :| u in s.calls && s.calls[u] == Removing(s.repo.configurations[p]);
      assert s'.calls[u] == Removing(s'.repo.configurations[p]);
    }
  }

  /** In every reachable interleaving a mapped object still has its back pointer, an object that has
      not been removed is mapped, and one that is mapped although removed has a Remove call between
      its two critical sections. */
  lemma {:induction false} ReachableProtocol(acts: seq<Act>)
    ensures Orderly(Run(INIT, acts))
  {
    if acts != [] {
      ReachableProtocol(acts[..|acts| - 1]);
      NextKeepsProtocol(Run(INIT, acts[..|acts| - 1]), acts[|acts| - 1]);
    }
  }

  /** Hence with no Remove under way an object is in the map exactly when it has not been removed. */
  lemma MappedIffAlive(acts: seq<Act>, id: nat)
    requires id < |Run(INIT, acts).repo.objects|
    requires var s := Run(INIT, acts); !(exists t :: t in s.calls && s.calls[t].Removing?)
    ensures var r := Run(INIT, acts).repo; Unmapped(r, id) <==> r.objects[id].removed
  {
    ReachableProtocol(acts);
    var s := Run(INIT, acts);
    if !Unmapped(s.repo, id) {
      assert !RemovalInFlight(s, id);
      assert !MappedRemoved(s.repo, s.repo.objects[id].pid);
    }
  }

  /** The second half of a Remove evicts at most the object it was called on: what another object
      holds under the same PID stays. */
  lemma LateRemoveSparesOthers(s: State, t: nat, pid: string)
    requires Wired(s.repo) && t in s.calls && s.calls[t].Removing?
    requires pid in s.repo.configurations && s.repo.configurations[pid] != s.calls[t].id
    ensures var s' := Next(s, Continue(t));
            && pid in s'.repo.configurations
            && s'.repo.configurations[pid] == s.repo.configurations[pid]
            && |s'.repo.objects| == |s.repo.objects|
            && (forall i :: 0 <= i < |s.repo.objects| && i != s.calls[t].id ==> s'.repo.objects[i] == s.repo.objects[i])
  {
    var id := s.calls[t].id;
    if id < |s.repo.objects| {
      assert s.repo.objects[s.repo.configurations[pid]].pid == pid;
    }
  }

  /** An object leaves the map at most once: once out, no run brings it back. */
  lemma LeavesOnce(s: State, acts: seq<Act>, id: nat, pid: string)
    requires Wired(s.repo) && Unmapped(s.repo, id)
    ensures pid in Run(s, acts).repo.configurations ==> Run(s, acts).repo.configurations[pid] != id
  {
    RunEvolves(s, acts);
    var r := Run(s, acts).repo;
    assert Unmapped(r, id);
  }

  // ---- futures -------------------------------------------------------------------------------

  ghost function PendingIds(s: State): set<nat> {
    (set x | x in s.queue :: x.id) + (if s.worker.Busy? then {s.worker.id} else {})
  }

  /** The table of unfinished futures names exactly the tasks queued or being worked on; tasks
      wait in the order of their ids. */
  ghost predicate FuturesSound(s: State) {
    && s.incomplete == PendingIds(s)
    && (forall i, j :: 0 <= i < j < |s.queue| ==> s.queue[i].id < s.queue[j].id)
    && (forall x :: x in s.queue ==> 0 < x.id <= s.futuresID)
    && (s.worker.Busy? ==> 0 < s.worker.id <= s.futuresID && forall x :: x in s.queue ==> s.worker.id < x.id)
  }

  lemma PostKeepsFutures(s: State, task: Task)
    requires FuturesSound(s)
    ensures FuturesSound(Post(s, task))
  {
    var s' := Post(s, task);
    forall x | x in s'.queue ensures 0 < x.id <= s'.futuresID {
      assert x in s.queue || x == s'.queue[|s.queue|];
    }
    assert s'.queue[|s.queue|] in s'.queue;
    forall id ensures id in s'.incomplete <==> id in PendingIds(s') {
      if id in PendingIds(s) && !(s.worker.Busy? && id == s.worker.id) {
        var x :| x in s.queue && x.id == id;
        assert x in s'.queue;
      }
      if id in PendingIds(s') && !(s.worker.Busy? && id == s.worker.id) {
        var x :| x in s'.queue && x.id == id;
        assert x in s.queue || x == s'.queue[|s.queue|];
      }
    }
  }

  lemma TakeKeepsFutures(s: State)
    requires FuturesSound(s) && Wired(s.repo) && s.queue != [] && s.worker.Idle?
    ensures FuturesSound(Take(s)) && Take(s).futuresID == s.futuresID
  {
    var s' := Take(s);
    assert s.queue == [s.queue[0]] + s'.queue;
    forall x | x in s'.queue ensures x in s.queue && s.queue[0].id < x.id {
      var i :| 0 <= i < |s'.queue| && s'.queue[i] == x;
      assert s.queue[i + 1] == x;
    }
    assert s.queue[0] in s.queue;
    TakeKeepsPending(s);
    hide PendingIds, ReadFor;
  }

  lemma TakeKeepsPending(s: State)
    requires Wired(s.repo) && s.queue != [] && s.worker.Idle?
    ensures PendingIds(Take(s)) == PendingIds(s)
  {
    hide ReadFor;
    var s' := Take(s);
    assert s.queue == [s.queue[0]] + s'.queue;
    forall id ensures id in PendingIds(s') <==> id in PendingIds(s) {
      if id in PendingIds(s) {
        var x :| x in s.queue && x.id == id;
        assert x == s.queue[0] || x in s'.queue;
      }
    }
  }

  lemma FinishKeepsFutures(s: State)
    requires FuturesSound(s) && s.worker.Busy?
    ensures FuturesSound(Finish(s)) && Finish(s).futuresID == s.futuresID
  {
    var s' := Finish(s);
    forall id ensures id in PendingIds(s') <==> id in PendingIds(s) - {s.worker.id} {
    }
  }

  lemma SameFutures(s: State, s': State)
    requires FuturesSound(s)
    requires s'.queue == s.queue && s'.worker == s.worker && s'.incomplete == s.incomplete && s'.futuresID == s.futuresID
    ensures FuturesSound(s')
  {
  }

  lemma AddManagedKeepsFutures(s: State, pid: string)
    requires FuturesSound(s) && Wired(s.repo)
    ensures FuturesSound(AddManaged(s, pid)) && s.futuresID <= AddManaged(s, pid).futuresID
  {
    if pid in s.repo.configurations && s.repo.objects[s.repo.configurations[pid]].changeCount > 0 {
      var c := s.repo.objects[s.repo.configurations[pid]];
      var snapshot := if c.removed then Snapshot(map[], 0) else Snapshot(c.properties, c.changeCount);
      var posted := Post(s, HandOver(s.nextService, map[pid := snapshot]));
      PostKeepsFutures(s, HandOver(s.nextService, map[pid := snapshot]));
      SameFutures(posted, AddManaged(s, pid));
    } else {
      SameFutures(s, AddManaged(s, pid));
    }
  }

  lemma AddFactoryKeepsFutures(s: State, pid: string)
    requires FuturesSound(s) && Wired(s.repo)
    ensures FuturesSound(AddFactory(s, pid)) && s.futuresID <= AddFactory(s, pid).futuresID
  {
    var updates := Instances(s.repo, pid);
    PostKeepsFutures(s, HandOver(s.nextService, updates));
    var posted := Post(s, HandOver(s.nextService, updates));
    SameFutures(if updates == map[] then s else posted, AddFactory(s, pid));
  }

  lemma NextKeepsFutures(s: State, a: Act)
    requires FuturesSound(s) && Wired(s.repo)
    ensures FuturesSound(Next(s, a))
    ensures s.futuresID <= Next(s, a).futuresID
  {
    hide FuturesSound, AddAll, RemoveAll, Instances, Register, Take, Finish;
    match a {
      case TakeTask => if s.queue != [] && s.worker.Idle? { TakeKeepsFutures(s); }
      case FinishTask => if s.worker.Busy? { FinishKeepsFutures(s); }
      case Continue(t) =>
        if t in s.calls && s.calls[t].Finishing? && s.calls[t].detach == [] && s.calls[t].posts != [] {
          PostKeepsFutures(s, s.calls[t].posts[0]);
          SameFutures(Post(s, s.calls[t].posts[0]), Next(s, a));
        } else {
          SameFutures(s, Next(s, a));
        }
      case AddManagedService(pid) => AddManagedKeepsFutures(s, pid);
      case AddManagedServiceFactory(pid) => AddFactoryKeepsFutures(s, pid);
      case _ => SameFutures(s, Next(s, a));
    }
  }

  lemma {:induction false} ReachableFutures(acts: seq<Act>)
    ensures FuturesSound(Run(INIT, acts))
  {
    if acts != [] {
      ReachableFutures(acts[..|acts| - 1]);
      NextKeepsFutures(Run(INIT, acts[..|acts| - 1]), acts[|acts| - 1]);
    }
  }

  /** The clean-up of a task always finds its future, and waiting for all tasks ends only when
      nothing is queued and the worker is idle. */
  lemma FuturesExact(acts: seq<Act>)
    ensures var s := Run(INIT, acts); s.worker.Busy? ==> s.worker.id in s.incomplete
    ensures var s := Run(INIT, acts); s.incomplete == {} <==> s.queue == [] && s.worker.Idle?
  {
    ReachableFutures(acts);
    var s := Run(INIT, acts);
    if s.queue != [] {
      assert s.queue[0] in s.queue;
      assert s.queue[0].id in PendingIds(s);
    }
  }

  /** A future's id is never used twice: whatever is posted later in the run has a larger id. */
  lemma IdsNeverReused(s: State, acts: seq<Act>, x: Posted)
    requires FuturesSound(s) && Wired(s.repo)
    requires x in Run(s, acts).queue && x !in s.queue
    ensures s.futuresID < x.id
    decreases |acts|
  {
    if acts == [] { assert false; }
    var n := |acts| - 1;
    var before := Run(s, acts[..n]);
    RunKeepsFutures(s, acts[..n]);
    NextKeepsFutures(before, acts[n]);
    if x in before.queue {
      IdsNeverReused(s, acts[..n], x);
    } else {
      NewPostsAreFresh(before, acts[n], x);
    }
  }

  lemma {:induction false} RunKeepsFutures(s: State, acts: seq<Act>)
    requires FuturesSound(s) && Wired(s.repo)
    ensures FuturesSound(Run(s, acts)) && s.futuresID <= Run(s, acts).futuresID
  {
    if acts != [] {
      var n := |acts| - 1;
      RunKeepsFutures(s, acts[..n]);
      NextKeepsFutures(Run(s, acts[..n]), acts[n]);
    }
  }

  lemma NewPostsAreFresh(s: State, a: Act, x: Posted)
    requires Wired(s.repo) && x in Next(s, a).queue && x !in s.queue
    ensures x.id == s.futuresID + 1
  {
  }
}
