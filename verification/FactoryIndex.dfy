/** The index of factory instances is a view of the configuration map. */
module FactoryIndex {
  import opened Pids
  import opened Repository
  import opened Engine

  function Factories(pids: set<string>): set<string> {
    (set p | p in pids :: FactoryPid(p)) - {""}
  }

  function InstancesOf(pids: set<string>, f: string): set<string> {
    set p | p in pids && FactoryPid(p) == f
  }

  /** The index that a set of PIDs should have: each factory with its instances, no empty sets. */
  function IndexOf(pids: set<string>): map<string, set<string>> {
    map f | f in Factories(pids) :: InstancesOf(pids, f)
  }

  predicate Indexed(r: Repo) {
    r.factoryInstances == IndexOf(r.configurations.Keys)
  }

  lemma AddToIndex(pids: set<string>, pid: string)
    ensures AddInstance(IndexOf(pids), pid, FactoryPid(pid)) == IndexOf(pids + {pid})
  {
    hide FactoryPid;
    var f, after := FactoryPid(pid), pids + {pid};
    assert Factories(after) == Factories(pids) + ({f} - {""});
    assert InstancesOf(after, f) == InstancesOf(pids, f) + {pid};
    assert f !in Factories(pids) && f != "" ==> InstancesOf(pids, f) == {};
    forall g | g in Factories(after) && g != f ensures InstancesOf(after, g) == InstancesOf(pids, g) {
    }
  }

  lemma FactoryHasInstance(pids: set<string>, f: string)
    requires f != ""
    ensures f in Factories(pids) <==> InstancesOf(pids, f) != {}
  {
    if f in Factories(pids) {
      var p :| p in pids && FactoryPid(p) == f;
      assert p in InstancesOf(pids, f);
    } else if p :| p in InstancesOf(pids, f) {
      assert false;
    }
  }

  lemma FactoriesWithout(pids: set<string>, pid: string, g: string)
    ensures g != FactoryPid(pid) ==> InstancesOf(pids - {pid}, g) == InstancesOf(pids, g)
    ensures g != FactoryPid(pid) ==> (g in Factories(pids - {pid}) <==> g in Factories(pids))
    ensures InstancesOf(pids - {pid}, g) == InstancesOf(pids, g) - {pid}
  {
    if g != "" {
      FactoryHasInstance(pids, g);
      FactoryHasInstance(pids - {pid}, g);
    }
  }

  lemma RemoveFromIndex(pids: set<string>, pid: string)
    ensures RemoveInstance(IndexOf(pids), pid) == IndexOf(pids - {pid})
  {
    hide FactoryPid;
    var f, index, index' := FactoryPid(pid), RemoveInstance(IndexOf(pids), pid), IndexOf(pids - {pid});
    forall g ensures g in index <==> g in index' {
      FactoriesWithout(pids, pid, g);
      if g == f && f != "" {
        FactoryHasInstance(pids, f);
        FactoryHasInstance(pids - {pid}, f);
      }
    }
    forall g | g in index ensures index[g] == index'[g] {
      FactoriesWithout(pids, pid, g);
    }
  }

  /** Registering under a free PID keeps the index right exactly when the factory PID used is the
      one the PID itself carries. */
  lemma RegisterIndexed(r: Repo, c: Config)
    requires Indexed(r) && c.pid !in r.configurations
    ensures Indexed(Register(r, c)) <==> c.factoryPid == FactoryPid(c.pid)
  {
    var before, after := r.configurations.Keys, Register(r, c).configurations.Keys;
    var f := FactoryPid(c.pid);
    assert after == before + {c.pid};
    if c.factoryPid == f {
      AddToIndex(before, c.pid);
    } else if f != "" {
      assert c.pid in InstancesOf(after, f);
      FactoryHasInstance(after, f);
      var index := Register(r, c).factoryInstances;
      assert f in index ==> f in r.factoryInstances && index[f] == r.factoryInstances[f] == InstancesOf(before, f);
      assert f in IndexOf(after) && c.pid in IndexOf(after)[f];
    } else {
      assert c.pid in Register(r, c).factoryInstances[c.factoryPid];
      assert c.pid !in InstancesOf(after, c.factoryPid);
    }
  }

  lemma EraseIndexed(r: Repo, pid: string)
    requires Indexed(r)
    ensures Indexed(Erase(r, pid))
  {
    RemoveFromIndex(r.configurations.Keys, pid);
    assert Erase(r, pid).configurations.Keys == r.configurations.Keys - {pid};
  }

  lemma AddOneIndexed(r: Repo, m: Metadata)
    requires Wired(r) && Indexed(r)
    ensures Indexed(AddOne(r, m).repo)
  {
    if m.pid !in r.configurations {
      RegisterIndexed(r, NewConfig(m.pid, FactoryPid(m.pid), m.properties, 1, FromMetadata));
    } else {
      assert AddOne(r, m).repo.configurations.Keys == r.configurations.Keys;
    }
  }

  lemma {:induction false} AddAllIndexed(r: Repo, metadata: seq<Metadata>)
    requires Wired(r) && Indexed(r)
    ensures Indexed(AddAll(r, metadata).repo)
  {
    if metadata != [] {
      var n := |metadata| - 1;
      AddAllIndexed(r, metadata[..n]);
      AddOneIndexed(AddAll(r, metadata[..n]).repo, metadata[n]);
    }
  }

  lemma RemoveOneIndexed(r: Repo, t: Receipt)
    requires Wired(r) && Indexed(r)
    ensures Indexed(RemoveOne(r, t).repo)
  {
    if RemoveOne(r, t).erased {
      EraseIndexed(r, t.pid);
    }
  }

  lemma {:induction false} RemoveAllIndexed(r: Repo, receipts: seq<Receipt>)
    requires Wired(r) && Indexed(r)
    ensures Indexed(RemoveAll(r, receipts).repo)
  {
    if receipts != [] {
      var n := |receipts| - 1;
      RemoveAllIndexed(r, receipts[..n]);
      RemoveOneIndexed(RemoveAll(r, receipts[..n]).repo, receipts[n]);
    }
  }

  /** Not the creation of a factory configuration under a factory PID that contains `~`; an attempt that
      finds its PID taken creates nothing. */
  predicate PlainFactory(s: State, a: Act) {
    a.CreateFactoryConfiguration? && a.factoryPid + "~" + a.name !in s.repo.configurations ==> '~' !in a.factoryPid
  }

  predicate PlainFactories(acts: seq<Act>) {
    forall i :: 0 <= i < |acts| ==> PlainFactory(Run(INIT, acts[..i]), acts[i])
  }

  /** Creating a factory configuration keeps the index right exactly when the factory PID has no
      `~`: the entry is made under the PID given, but later looked up under the part before the
      first `~`. */
  lemma CreateFactoryIndexedExactly(r: Repo, factoryPid: string, name: string)
    requires Indexed(r) && factoryPid + "~" + name !in r.configurations
    ensures Indexed(Repository.CreateFactoryConfiguration(r, factoryPid, name)) <==> '~' !in factoryPid
  {
    FactoryPidOfInstance(factoryPid, name);
    var c := NewConfig(factoryPid + "~" + name, factoryPid, map[], 0, FromClient);
    RegisterIndexed(r, c);
  }

  lemma ResumeIndexed(s: State, t: nat)
    requires Wired(s.repo) && Indexed(s.repo) && t in s.calls
    ensures Indexed(Resume(s, t).repo)
  {
    if s.calls[t].Removing? && s.calls[t].id < |s.repo.objects| {
      EraseIndexed(s.repo, s.repo.objects[s.calls[t].id].pid);
    }
  }

  /** A step keeps the index right exactly unless it creates such a configuration. */
  lemma NextIndexedExactly(s: State, a: Act)
    requires Wired(s.repo) && Indexed(s.repo)
    ensures Indexed(Next(s, a).repo) <==> PlainFactory(s, a)
  {
    hide AddAll, RemoveAll, Resume, ReadFor, Perform, IndexOf, AddInstance, Instances, FactoryPid;
    match a {
      case GetConfiguration(pid) =>
        if pid !in s.repo.configurations {
          RegisterIndexed(s.repo, NewConfig(pid, FactoryPid(pid), map[], 0, FromClient));
        }
      case CreateFactoryConfiguration(f, name) =>
        if f + "~" + name !in s.repo.configurations {
          CreateFactoryIndexedExactly(s.repo, f, name);
        }
      case AddConfigurations(_, metadata) => AddAllIndexed(s.repo, metadata);
      case RemoveConfigurations(_, receipts) => RemoveAllIndexed(s.repo, receipts);
      case Continue(t) => if t in s.calls { ResumeIndexed(s, t); }
      case _ =>
        assert Next(s, a).repo.configurations == s.repo.configurations;
        assert Next(s, a).repo.factoryInstances == s.repo.factoryInstances;
    }
  }

  lemma {:induction false} ReachableIndexed(acts: seq<Act>)
    requires PlainFactories(acts)
    ensures Indexed(Run(INIT, acts).repo)
  {
    if acts == [] {
      assert IndexOf({}) == map[];
    } else {
      var n := |acts| - 1;
      PlainPrefix(acts, n);
      ReachableIndexed(acts[..n]);
      NextIndexedExactly(Run(INIT, acts[..n]), acts[n]);
    }
  }

  lemma PlainPrefix(acts: seq<Act>, n: nat)
    requires n <= |acts| && PlainFactories(acts)
    ensures PlainFactories(acts[..n])
  {
    forall i | 0 <= i < n ensures PlainFactory(Run(INIT, acts[..n][..i]), acts[..n][i]) {
      assert acts[..n][..i] == acts[..i];
    }
  }

  /** For every run: the index is the one computed from the map in every state of it exactly if the run
      creates no factory configuration under a factory PID with a `~`. */
  lemma ReachableIndexedExactly(acts: seq<Act>)
    ensures (forall n :: 0 <= n <= |acts| ==> Indexed(Run(INIT, acts[..n]).repo)) <==> PlainFactories(acts)
  {
    if PlainFactories(acts) {
      forall n | 0 <= n <= |acts| ensures Indexed(Run(INIT, acts[..n]).repo) {
        PlainPrefix(acts, n);
        ReachableIndexed(acts[..n]);
      }
    }
    if forall n :: 0 <= n <= |acts| ==> Indexed(Run(INIT, acts[..n]).repo) {
      forall i | 0 <= i < |acts| ensures PlainFactory(Run(INIT, acts[..i]), acts[i]) {
        assert acts[..i + 1][..i] == acts[..i];
        NextIndexedExactly(Run(INIT, acts[..i]), acts[i]);
      }
    }
  }

  /** Every instance that the index names is mapped: what the AddingService of a factory asserts. */
  ghost predicate LookupsSucceed(r: Repo) {
    forall f, pid :: f in r.factoryInstances && pid in r.factoryInstances[f] ==> pid in r.configurations
  }

  lemma InstanceLookupNeverFails(acts: seq<Act>)
    requires PlainFactories(acts)
    ensures LookupsSucceed(Run(INIT, acts).repo)
  {
    ReachableIndexed(acts);
  }

  // ---- and when a lookup does fail -----------------------------------------------------------

  /** Create a factory configuration on a fresh engine and remove it again. */
  function CreateAndRemove(f: string, name: string): seq<Act> {
    [CreateFactoryConfiguration(f, name), Remove(0, 0), Continue(0)]
  }

  lemma CreatedAndRemoved(f: string, name: string)
    ensures var pid := f + "~" + name;
            Run(INIT, CreateAndRemove(f, name)).repo ==
            Erase(SetObject(Repository.CreateFactoryConfiguration(EMPTY_REPO, f, name), 0,
                            NewConfig(pid, f, map[], 0, FromClient).(removed := true, attached := false)), pid)
  {
    var acts, pid := CreateAndRemove(f, name), f + "~" + name;
    var r1 := Repository.CreateFactoryConfiguration(EMPTY_REPO, f, name);
    var r2 := SetObject(r1, 0, r1.objects[0].(removed := true));
    assert acts[..0] == [] && acts[..1][..0] == [] && acts[..2][..1] == acts[..1] && acts[..3] == acts;
    assert Run(INIT, acts[..1]) == INIT.(repo := r1);
    assert Run(INIT, acts[..2]) == INIT.(repo := r2, calls := map[0 := Removing(0)]);
  }

  /** What is left in the index then: with a `~` in the factory PID the entry survives its configuration,
      and a factory tracked under that PID meets the failing assertion; without one nothing is left. */
  lemma LookupFailsExactly(f: string, name: string)
    ensures LookupsSucceed(Run(INIT, CreateAndRemove(f, name)).repo) <==> '~' !in f
    ensures '~' in f ==>
              var r := Run(INIT, CreateAndRemove(f, name)).repo;
              f in r.factoryInstances && f + "~" + name in r.factoryInstances[f] && r.configurations == map[]
  {
    var r, pid := Run(INIT, CreateAndRemove(f, name)).repo, f + "~" + name;
    CreatedAndRemoved(f, name);
    FactoryPidOfInstance(f, name);
    assert r.configurations == map[];
  }
}
