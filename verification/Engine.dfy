/** The configuration admin engine as a state machine.  Each step is one critical section of one
    thread; a call that spans several critical sections leaves a continuation behind.  Asynchronous
    tasks are taken in order by a single worker, which reads the repository in one step and talks
    to the services in a later one. */
module Engine {
  import opened Pids
  import opened Repository

  datatype Kind = Managed | Factory

  /** The last thing a service was handed for one PID.  `version` is history: the change count of
      the object when the properties were read. */
  datatype Handed = Updated(properties: Properties, version: nat) | Removed

  /** A tracked service: the announced change count it last received per PID, and (history) the
      last thing it was handed per PID. */
  datatype Tracked = Tracked(kind: Kind, pid: string, last: map<string, nat>, handed: map<string, Handed>)

  datatype Snapshot = Snapshot(properties: Properties, version: nat)

  datatype Task =
    | Announce(pid: string, changeCount: nat)
    | HandOver(service: nat, updates: map<string, Snapshot>)
    | LogRemoval(pid: string)

  datatype Posted = Posted(id: nat, task: Task)

  /** What the worker still has to do for the task it took. */
  datatype Job =
    | Nothing
    | Notify(pid: string, changeCount: nat, removed: bool, snapshot: Snapshot, audience: set<nat>)
    | Hand(service: nat, updates: map<string, Snapshot>)

  datatype Worker = Idle | Busy(id: nat, job: Job)

  /** The rest of a call whose first critical section is done. */
  datatype Call =
    | Updating(id: nat)
    | Removing(id: nat)
    | Finishing(detach: seq<nat>, posts: seq<Task>)

  datatype State = State(
    repo: Repo,
    services: map<nat, Tracked>,
    nextService: nat,
    queue: seq<Posted>,
    worker: Worker,
    futuresID: nat,
    incomplete: set<nat>,
    calls: map<nat, Call>)

  const INIT := State(EMPTY_REPO, map[], 0, [], Idle, 0, {}, map[])

  datatype Act =
    | GetConfiguration(pid: string)
    | CreateFactoryConfiguration(factoryPid: string, name: string)
    | Update(thread: nat, id: nat, properties: Properties)
    | UpdateIfDifferent(thread: nat, id: nat, properties: Properties)
    | Remove(thread: nat, id: nat)
    | AddConfigurations(thread: nat, metadata: seq<Metadata>)
    | RemoveConfigurations(thread: nat, receipts: seq<Receipt>)
    | Continue(thread: nat)
    | AddManagedService(pid: string)
    | AddManagedServiceFactory(pid: string)
    | RemoveService(service: nat)
    | TakeTask
    | FinishTask

  // ---- asynchronous work ---------------------------------------------------------------------

  function Post(s: State, task: Task): State {
    s.(futuresID := s.futuresID + 1,
       incomplete := s.incomplete + {s.futuresID + 1},
       queue := s.queue + [Posted(s.futuresID + 1, task)])
  }

  function LastCount(w: Tracked, pid: string): nat {
    if pid in w.last then w.last[pid] else 0
  }

  predicate Interested(w: Tracked, pid: string) {
    match w.kind
    case Managed => w.pid == pid
    case Factory => FactoryPid(pid) != "" && w.pid == FactoryPid(pid)
  }

  /** How a service of this kind is told that a configuration is gone. */
  function RemovalNotice(kind: Kind): Handed {
    match kind
    case Managed => Updated(map[], 0)
    case Factory => Removed
  }

  /** What the notification task reads while it holds the repository lock. */
  function ReadFor(r: Repo, pid: string, count: nat, audience: set<nat>): Job
    requires Wired(r)
  {
    if pid !in r.configurations then
      Notify(pid, count, true, Snapshot(map[], 0), audience)
    else
      var c := r.objects[r.configurations[pid]];
      if c.changeCount == 0 then Nothing
      else if c.removed then Notify(pid, count, true, Snapshot(map[], 0), audience)
      else Notify(pid, count, false, Snapshot(c.properties, c.changeCount), audience)
  }

  /** One service's turn in the notification loop.  Looking up the last count creates the entry. */
  function NotifyOne(w: Tracked, pid: string, count: nat, removed: bool, snapshot: Snapshot): Tracked {
    if !Interested(w, pid) then w
    else if removed then
      w.(last := w.last - {pid}, handed := w.handed[pid := RemovalNotice(w.kind)])
    else if LastCount(w, pid) < count then
      w.(last := w.last[pid := count], handed := w.handed[pid := Updated(snapshot.properties, snapshot.version)])
    else
      w.(last := w.last[pid := LastCount(w, pid)])
  }

  function HandAll(w: Tracked, updates: map<string, Snapshot>): Tracked {
    w.(handed := w.handed + map p | p in updates :: Updated(updates[p].properties, updates[p].version))
  }

  function Perform(services: map<nat, Tracked>, job: Job): map<nat, Tracked> {
    match job
    case Nothing => services
    case Notify(pid, count, removed, snapshot, audience) =>
      map k | k in services :: if k in audience then NotifyOne(services[k], pid, count, removed, snapshot) else services[k]
    case Hand(k, updates) =>
      if k in services then services[k := HandAll(services[k], updates)] else services
  }

  function Take(s: State): State
    requires Wired(s.repo)
    requires s.queue != [] && s.worker.Idle?
  {
    var head := s.queue[0];
    var job := match head.task
      case Announce(pid, count) => ReadFor(s.repo, pid, count, s.services.Keys)
      case HandOver(k, updates) => Hand(k, updates)
      case LogRemoval(_) => Nothing;
    s.(queue := s.queue[1..], worker := Busy(head.id, job))
  }

  /** The task's clean-up asserts that its future is still recorded. */
  function Finish(s: State): State
    requires s.worker.Busy?
  {
    s.(services := Perform(s.services, s.worker.job),
       incomplete := s.incomplete - {s.worker.id},
       worker := Idle)
  }

  // ---- tracking services ---------------------------------------------------------------------

  function Track(s: State, w: Tracked): State {
    s.(services := s.services[s.nextService := w], nextService := s.nextService + 1)
  }

  function AddManaged(s: State, pid: string): State
    requires Wired(s.repo)
  {
    if pid in s.repo.configurations && s.repo.objects[s.repo.configurations[pid]].changeCount > 0 then
      var c := s.repo.objects[s.repo.configurations[pid]];
      var snapshot := if c.removed then Snapshot(map[], 0) else Snapshot(c.properties, c.changeCount);
      Track(Post(s, HandOver(s.nextService, map[pid := snapshot])),
            Tracked(Managed, pid, map[pid := snapshot.version], map[]))
    else
      Track(s, Tracked(Managed, pid, map[pid := 0], map[]))
  }

  /** The instances of a factory whose current properties can be handed to it. */
  function Instances(r: Repo, factoryPid: string): map<string, Snapshot>
    requires Wired(r)
  {
    if factoryPid !in r.factoryInstances then map[]
    else
      map p | p in r.factoryInstances[factoryPid] && p in r.configurations
              && !r.objects[r.configurations[p]].removed && r.objects[r.configurations[p]].changeCount > 0
        :: Snapshot(r.objects[r.configurations[p]].properties, r.objects[r.configurations[p]].changeCount)
  }

  function AddFactory(s: State, pid: string): State
    requires Wired(s.repo)
  {
    var updates := Instances(s.repo, pid);
    var w := Tracked(Factory, pid, map p | p in updates :: updates[p].version, map[]);
    Track(if updates == map[] then s else Post(s, HandOver(s.nextService, updates)), w)
  }

  // ---- calls ---------------------------------------------------------------------------------

  function Detach(r: Repo, id: nat): Repo {
    if id < |r.objects| then SetObject(r, id, r.objects[id].(attached := false)) else r
  }

  function Announcements(notices: seq<Notice>): (tasks: seq<Task>)
    ensures |tasks| == |notices|
    ensures forall i :: 0 <= i < |tasks| ==> tasks[i] == Announce(notices[i].pid, notices[i].changeCount)
  {
    seq(|notices|, i requires 0 <= i < |notices| => Announce(notices[i].pid, notices[i].changeCount))
  }

  /** The next critical section of a call under way.  Remove keeps its object locked from before the erasing
      until the back pointer is cut, and whoever reads the pointer needs that lock: so here it is cut at once. */
  function Resume(s: State, t: nat): (s': State)
    requires Wired(s.repo)
    requires t in s.calls
    ensures Wired(s'.repo)
  {
    match s.calls[t]
    case Updating(id) =>
      if id < |s.repo.objects| && s.repo.objects[id].attached then
        var c := s.repo.objects[id];
        s.(calls := s.calls[t := Finishing([], [Announce(c.pid, c.changeCount)])])
      else
        s.(calls := s.calls - {t})
    case Removing(id) =>
      if id < |s.repo.objects| && s.repo.objects[id].attached then
        var c := s.repo.objects[id];
        if c.pid in s.repo.configurations && s.repo.configurations[c.pid] == id then
          var posts := if c.changeCount > 0 then [Announce(c.pid, c.changeCount), LogRemoval(c.pid)] else [];
          s.(repo := Detach(Erase(s.repo, c.pid), id), calls := s.calls[t := Finishing([], posts)])
        else
          s.(repo := Detach(s.repo, id), calls := s.calls[t := Finishing([], [])])
      else
        s.(calls := s.calls - {t})
    case Finishing(detach, posts) =>
      if detach != [] then
        s.(repo := Detach(s.repo, detach[0]), calls := s.calls[t := Finishing(detach[1..], posts)])
      else if posts != [] then
        Post(s, posts[0]).(calls := s.calls[t := Finishing([], posts[1..])])
      else
        s.(calls := s.calls - {t})
  }

  /** An object that a thread can call into: it exists and has not been removed. */
  predicate Callable(s: State, t: nat, id: nat) {
    t !in s.calls && id < |s.repo.objects| && !s.repo.objects[id].removed
  }

  /** The first critical section of a call that changes one object. */
  function Enter(s: State, t: nat, id: nat, c: Config, call: Call): (s': State)
    requires Wired(s.repo) && id < |s.repo.objects| && c.pid == s.repo.objects[id].pid
    ensures Wired(s'.repo)
  {
    s.(repo := SetObject(s.repo, id, c), calls := s.calls[t := call])
  }

  /** One step.  An act that cannot happen, or that throws, changes nothing. */
  function Next(s: State, a: Act): (s': State)
    requires Wired(s.repo)
    ensures Wired(s'.repo)
  {
    match a
    case GetConfiguration(pid) =>
      s.(repo := Repository.GetConfiguration(s.repo, pid))
    case CreateFactoryConfiguration(factoryPid, name) =>
      if factoryPid + "~" + name in s.repo.configurations then s
      else s.(repo := Repository.CreateFactoryConfiguration(s.repo, factoryPid, name))
    case Update(t, id, properties) =>
      if !Callable(s, t, id) then s
      else Enter(s, t, id, Write(s.repo.objects[id], properties), Updating(id))
    case UpdateIfDifferent(t, id, properties) =>
      if !Callable(s, t, id) || s.repo.objects[id].properties == properties then s
      else Enter(s, t, id, Write(s.repo.objects[id], properties), Updating(id))
    case Remove(t, id) =>
      if !Callable(s, t, id) then s
      else Enter(s, t, id, s.repo.objects[id].(removed := true), Removing(id))
    case AddConfigurations(t, metadata) =>
      if t in s.calls then s
      else
        var all := AddAll(s.repo, metadata);
        s.(repo := all.repo, calls := s.calls[t := Finishing(all.detached, Announcements(all.notices))])
    case RemoveConfigurations(t, receipts) =>
      if t in s.calls then s
      else
        var all := RemoveAll(s.repo, receipts);
        s.(repo := all.repo, calls := s.calls[t := Finishing(all.detached, Announcements(all.notices))])
    case Continue(t) =>
      if t in s.calls then Resume(s, t) else s
    case AddManagedService(pid) =>
      if pid == "" then s else AddManaged(s, pid)
    case AddManagedServiceFactory(pid) =>
      if pid == "" then s else AddFactory(s, pid)
    case RemoveService(k) =>
      s.(services := s.services - {k})
    case TakeTask =>
      if s.queue != [] && s.worker.Idle? then Take(s) else s
    case FinishTask =>
      if s.worker.Busy? then Finish(s) else s
  }

  function Run(s: State, acts: seq<Act>): (s': State)
    requires Wired(s.repo)
    ensures Wired(s'.repo)
  {
    if acts == [] then s else Next(Run(s, acts[..|acts| - 1]), acts[|acts| - 1])
  }

  lemma {:induction false} RunConcat(s: State, a: seq<Act>, b: seq<Act>)
    requires Wired(s.repo)
    ensures Run(s, a + b) == Run(Run(s, a), b)
  {
    if b == [] {
      assert a + b == a;
    } else {
      var n := |b| - 1;
      assert (a + b)[..|a + b| - 1] == a + b[..n];
      RunConcat(s, a, b[..n]);
    }
  }

  /** No call half done, nothing queued, nothing being worked on. */
  predicate Quiescent(s: State) {
    s.calls == map[] && s.queue == [] && s.worker.Idle?
  }
}
