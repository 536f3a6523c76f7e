/** How the repository may change, whatever the steps: what an object keeps for ever, and what it
    means for an object to have left the map. */
module Evolution {
  import opened Pids
  import opened Repository
  import opened Engine

  /** The object exists and no PID leads to it. */
  ghost predicate Unmapped(r: Repo, id: nat) {
    id < |r.objects| && !(r.objects[id].pid in r.configurations && r.configurations[r.objects[id].pid] == id)
  }

  /** One object, earlier and later. */
  ghost predicate Ages(c: Config, c': Config) {
    && c'.pid == c.pid && c'.factoryPid == c.factoryPid && c'.origin == c.origin
    && c.writes <= c'.writes
    && c'.changeCount - c.changeCount == c'.writes - c.writes
    && (c'.writes == c.writes ==> c'.properties == c.properties)
    && (c.removed ==> c'.removed && c'.writes == c.writes)
    && (!c.attached ==> !c'.attached)
  }

  /** The repository, earlier and later.  An object that is out of the map stays out of it. */
  ghost predicate Evolves(r: Repo, r': Repo) {
    && |r.objects| <= |r'.objects|
    && (forall id :: 0 <= id < |r.objects| ==> Ages(r.objects[id], r'.objects[id]))
    && (forall id: nat :: Unmapped(r, id) ==> Unmapped(r', id))
  }

  lemma EvolvesTransitive(a: Repo, b: Repo, c: Repo)
    requires Evolves(a, b) && Evolves(b, c)
    ensures Evolves(a, c)
  {
    forall id | 0 <= id < |a.objects| ensures Ages(a.objects[id], c.objects[id]) {
      assert Ages(a.objects[id], b.objects[id]) && Ages(b.objects[id], c.objects[id]);
    }
  }

  lemma SetObjectEvolves(r: Repo, id: nat, c: Config)
    requires id < |r.objects| && Ages(r.objects[id], c)
    ensures Evolves(r, SetObject(r, id, c))
  {
    forall k: nat | Unmapped(r, k) ensures Unmapped(SetObject(r, id, c), k) {
    }
  }

  lemma RegisterEvolves(r: Repo, c: Config)
    requires Wired(r)
    ensures Evolves(r, Register(r, c))
  {
  }

  lemma AddOneEvolves(r: Repo, m: Metadata)
    requires Wired(r)
    ensures Evolves(r, AddOne(r, m).repo)
  {
    if m.pid in r.configurations && !r.objects[r.configurations[m.pid]].removed {
      var id := r.configurations[m.pid];
      SetObjectEvolves(r, id, WriteIfDifferent(r.objects[id], m.properties));
    }
  }

  lemma {:induction false} AddAllEvolves(r: Repo, metadata: seq<Metadata>)
    requires Wired(r)
    ensures Evolves(r, AddAll(r, metadata).repo)
  {
    if metadata != [] {
      var n := |metadata| - 1;
      AddAllEvolves(r, metadata[..n]);
      var before := AddAll(r, metadata[..n]).repo;
      AddOneEvolves(before, metadata[n]);
      EvolvesTransitive(r, before, AddAll(r, metadata).repo);
    }
  }

  lemma RemoveOneEvolves(r: Repo, t: Receipt)
    requires Wired(r)
    ensures Evolves(r, RemoveOne(r, t).repo)
  {
  }

  lemma {:induction false} RemoveAllEvolves(r: Repo, receipts: seq<Receipt>)
    requires Wired(r)
    ensures Evolves(r, RemoveAll(r, receipts).repo)
  {
    if receipts != [] {
      var n := |receipts| - 1;
      RemoveAllEvolves(r, receipts[..n]);
      var before := RemoveAll(r, receipts[..n]).repo;
      RemoveOneEvolves(before, receipts[n]);
      EvolvesTransitive(r, before, RemoveAll(r, receipts).repo);
    }
  }

  lemma ResumeEvolves(s: State, t: nat)
    requires Wired(s.repo) && t in s.calls
    ensures Evolves(s.repo, Resume(s, t).repo)
  {
    hide Evolves, Erase, Detach;
    StayEvolves(s.repo);
    match s.calls[t]
    case Updating(_) =>
    case Removing(id) =>
      if id < |s.repo.objects| {
        var pid := s.repo.objects[id].pid;
        EraseEvolves(s.repo, pid);
        DetachEvolves(s.repo, id);
        DetachEvolves(Erase(s.repo, pid), id);
        EvolvesTransitive(s.repo, Erase(s.repo, pid), Detach(Erase(s.repo, pid), id));
      }
    case Finishing(detach, _) =>
      if detach != [] { DetachEvolves(s.repo, detach[0]); }
  }

  lemma StayEvolves(r: Repo)
    ensures Evolves(r, r)
  {
  }

  lemma EraseEvolves(r: Repo, pid: string)
    ensures Evolves(r, Erase(r, pid))
  {
    hide RemoveInstance;
  }

  lemma DetachEvolves(r: Repo, id: nat)
    ensures Evolves(r, Detach(r, id))
  {
    if id < |r.objects| {
      SetObjectEvolves(r, id, r.objects[id].(attached := false));
    }
  }

  lemma UpdateEvolves(s: State, t: nat, id: nat, properties: Properties)
    requires Wired(s.repo)
    ensures Evolves(s.repo, Next(s, Update(t, id, properties)).repo)
    ensures Evolves(s.repo, Next(s, UpdateIfDifferent(t, id, properties)).repo)
  {
    if Callable(s, t, id) {
      SetObjectEvolves(s.repo, id, Write(s.repo.objects[id], properties));
    }
  }

  lemma NextEvolves(s: State, a: Act)
    requires Wired(s.repo)
    ensures Evolves(s.repo, Next(s, a).repo)
  {
    hide AddAll, RemoveAll, Resume, Register;
    match a {
      case GetConfiguration(pid) =>
        if pid !in s.repo.configurations {
          RegisterEvolves(s.repo, NewConfig(pid, FactoryPid(pid), map[], 0, FromClient));
        }
      case CreateFactoryConfiguration(f, name) =>
        if f + "~" + name !in s.repo.configurations {
          RegisterEvolves(s.repo, NewConfig(f + "~" + name, f, map[], 0, FromClient));
        }
      case Update(t, id, properties) => UpdateEvolves(s, t, id, properties);
      case UpdateIfDifferent(t, id, properties) => UpdateEvolves(s, t, id, properties);
      case Remove(t, id) =>
        if Callable(s, t, id) { SetObjectEvolves(s.repo, id, s.repo.objects[id].(removed := true)); }
      case AddConfigurations(_, metadata) => AddAllEvolves(s.repo, metadata);
      case RemoveConfigurations(_, receipts) => RemoveAllEvolves(s.repo, receipts);
      case Continue(t) => if t in s.calls { ResumeEvolves(s, t); }
      case _ =>
    }
  }

  /** Over any run: counts grow by one with each effective write and never otherwise, freeze on
      removal, and an object that has left the map never comes back. */
  lemma {:induction false} RunEvolves(s: State, acts: seq<Act>)
    requires Wired(s.repo)
    ensures Evolves(s.repo, Run(s, acts).repo)
  {
    if acts != [] {
      var before := Run(s, acts[..|acts| - 1]);
      RunEvolves(s, acts[..|acts| - 1]);
      NextEvolves(before, acts[|acts| - 1]);
      EvolvesTransitive(s.repo, before.repo, Run(s, acts).repo);
    }
  }

  // ---- one entry, one PID ---------------------------------------------------------------------

  /** A repository change that another PID does not see. */
  ghost predicate Elsewhere(r: Repo, r': Repo, pid: string)
    requires Wired(r) && Wired(r')
  {
    && (pid in r'.configurations <==> pid in r.configurations)
    && (pid in r.configurations ==>
          && r'.configurations[pid] == r.configurations[pid]
          && r'.objects[r'.configurations[pid]] == r.objects[r.configurations[pid]])
  }

  lemma AddOneElsewhere(r: Repo, m: Metadata, pid: string)
    requires Wired(r) && (m.pid != pid || !AddOne(r, m).changed)
    ensures Elsewhere(r, AddOne(r, m).repo, pid)
  {
  }

  lemma AddOneHere(r: Repo, m: Metadata)
    requires Wired(r) && AddOne(r, m).changed && (m.pid in r.configurations ==> !r.objects[r.configurations[m.pid]].removed)
    ensures var one := AddOne(r, m);
            && m.pid in one.repo.configurations && one.receipt.pid == m.pid
            && var c' := one.repo.objects[one.repo.configurations[m.pid]];
            && !c'.removed && c'.changeCount == one.receipt.changeCount
            && (m.pid !in r.configurations ==> c'.changeCount == 1)
            && (m.pid in r.configurations ==>
                  && one.repo.configurations[m.pid] == r.configurations[m.pid]
                  && c'.changeCount == r.objects[r.configurations[m.pid]].changeCount + 1)
  {
  }

  lemma RemoveOneElsewhere(r: Repo, q: Receipt, pid: string)
    requires Wired(r) && (q.pid != pid || !RemoveOne(r, q).erased)
    ensures Elsewhere(r, RemoveOne(r, q).repo, pid)
  {
  }

  lemma RemoveOneHere(r: Repo, q: Receipt)
    requires Wired(r) && RemoveOne(r, q).erased
    ensures q.pid in r.configurations && q.pid !in RemoveOne(r, q).repo.configurations
    ensures RemoveOne(r, q).notify <==> r.objects[r.configurations[q.pid]].changeCount > 0
  {
  }

  /** Every receipt names the object that now stands under its PID. */
  lemma AddOneReceipt(r: Repo, m: Metadata)
    requires Wired(r)
    ensures var one := AddOne(r, m);
            && one.receipt.pid == m.pid
            && m.pid in one.repo.configurations && one.repo.configurations[m.pid] == one.receipt.configurationId
            && one.receipt.changeCount <= one.repo.objects[one.receipt.configurationId].changeCount
            && (!one.changed ==> one.repo == r && one.receipt.changeCount == 0)
  {
  }

  /** The last turn of the loop, on its own. */
  lemma AddAllLast(r: Repo, metadata: seq<Metadata>)
    requires Wired(r) && metadata != []
    ensures var n := |metadata| - 1;
            var before, a := AddAll(r, metadata[..n]), AddAll(r, metadata);
            && a.repo == AddOne(before.repo, metadata[n]).repo
            && a.receipts == before.receipts + [AddOne(before.repo, metadata[n]).receipt]
  {
  }

  // ---- change counts -------------------------------------------------------------------------

  /** The change count is what the object was born with plus its effective writes, and an object
      that was never written to shows empty properties. */
  ghost predicate Counted(c: Config) {
    && c.changeCount == BirthCount(c.origin) + c.writes
    && (c.changeCount == 0 ==> c.properties == map[])
  }

  ghost predicate AllCounted(r: Repo) {
    forall id :: 0 <= id < |r.objects| ==> Counted(r.objects[id])
  }

  lemma NewConfigCounted(pid: string, factoryPid: string, properties: Properties)
    ensures Counted(NewConfig(pid, factoryPid, map[], 0, FromClient))
    ensures Counted(NewConfig(pid, factoryPid, properties, 1, FromMetadata))
    ensures Counted(NewConfig(pid, factoryPid, properties, 0, FromReplacement(|properties| > 0)))
  {
  }

  lemma AddOneCounted(r: Repo, m: Metadata)
    requires Wired(r) && AllCounted(r)
    ensures AllCounted(AddOne(r, m).repo)
  {
    NewConfigCounted(m.pid, FactoryPid(m.pid), m.properties);
    if m.pid in r.configurations {
      assert Counted(r.objects[r.configurations[m.pid]]);
    }
  }

  lemma {:induction false} AddAllCounted(r: Repo, metadata: seq<Metadata>)
    requires Wired(r) && AllCounted(r)
    ensures AllCounted(AddAll(r, metadata).repo)
  {
    if metadata != [] {
      var n := |metadata| - 1;
      AddAllCounted(r, metadata[..n]);
      AddOneCounted(AddAll(r, metadata[..n]).repo, metadata[n]);
    }
  }

  lemma {:induction false} RemoveAllCounted(r: Repo, receipts: seq<Receipt>)
    requires Wired(r) && AllCounted(r)
    ensures AllCounted(RemoveAll(r, receipts).repo)
  {
    if receipts != [] {
      RemoveAllCounted(r, receipts[..|receipts| - 1]);
    }
  }

  lemma NextCounted(s: State, a: Act)
    requires Wired(s.repo) && AllCounted(s.repo)
    ensures AllCounted(Next(s, a).repo)
  {
    hide AddAll, RemoveAll, Resume, AddInstance;
    match a
    case AddConfigurations(_, metadata) => AddAllCounted(s.repo, metadata);
    case RemoveConfigurations(_, receipts) => RemoveAllCounted(s.repo, receipts);
    case Continue(t) =>
      if t in s.calls { ResumeCounted(s, t); }
    case _ =>
  }

  lemma ResumeCounted(s: State, t: nat)
    requires Wired(s.repo) && AllCounted(s.repo) && t in s.calls
    ensures AllCounted(Resume(s, t).repo)
  {
    hide RemoveInstance;
  }

  lemma {:induction false} RunCounted(acts: seq<Act>)
    ensures AllCounted(Run(INIT, acts).repo)
  {
    if acts != [] {
      RunCounted(acts[..|acts| - 1]);
      NextCounted(Run(INIT, acts[..|acts| - 1]), acts[|acts| - 1]);
    }
  }

  /** An unfiltered listing shows a mapped object exactly when it has been written to or came from
      metadata.  The one exception is an object that replaced a removed one and was given no
      properties: it stays hidden until its first write. */
  lemma ListedExactly(acts: seq<Act>, pid: string)
    requires pid in Run(INIT, acts).repo.configurations
    ensures var r := Run(INIT, acts).repo;
            var c := r.objects[r.configurations[pid]];
            r.configurations[pid] in Listed(r) <==>
            c.writes > 0 || c.origin == FromMetadata || c.origin == FromReplacement(true)
  {
    RunCounted(acts);
    var r := Run(INIT, acts).repo;
    var id := r.configurations[pid];
    assert Counted(r.objects[id]);
    if id in Listed(r) {
      var p :| p in r.configurations && r.objects[r.configurations[p]].changeCount > 0 && r.configurations[p] == id;
    }
  }
}
