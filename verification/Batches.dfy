/** What the batch calls and the creating calls leave under a PID, in the terms of their callers. */
module Batches {
  import opened Pids
  import opened Repository
  import opened Engine
  import opened Evolution
  import opened FactoryIndex
  import opened Undo

  /** Entry i is the last one for its PID. */
  predicate LastFor(metadata: seq<Metadata>, i: nat) {
    i < |metadata| && forall j :: i < j < |metadata| ==> metadata[j].pid != metadata[i].pid
  }

  /** The PID leads to a live object with these properties. */
  predicate Shows(r: Repo, pid: string, properties: Properties)
    requires Wired(r)
  {
    pid in r.configurations && !r.objects[r.configurations[pid]].removed && r.objects[r.configurations[pid]].properties == properties
  }

  lemma AddOneStores(r: Repo, m: Metadata)
    requires Wired(r)
    ensures var one := AddOne(r, m);
            && Shows(one.repo, m.pid, m.properties)
            && one.receipt.pid == m.pid && one.receipt.configurationId == one.repo.configurations[m.pid]
  {
    hide FactoryPid, AddInstance;
  }

  /** After AddConfigurations every PID named leads to a live object with the properties of its last entry,
      whatever was there before, and that entry's receipt names the object. */
  lemma {:induction false} AdditionStoresTheLast(r: Repo, metadata: seq<Metadata>, i: nat)
    requires Wired(r) && LastFor(metadata, i)
    ensures var r', receipt := AddAll(r, metadata).repo, AddAll(r, metadata).receipts[i];
            var pid := metadata[i].pid;
            && pid in r'.configurations && !r'.objects[r'.configurations[pid]].removed
            && r'.objects[r'.configurations[pid]].properties == metadata[i].properties
            && receipt.pid == pid && receipt.configurationId == r'.configurations[pid]
  {
    var n := |metadata| - 1;
    var before := AddAll(r, metadata[..n]);
    AddAllLast(r, metadata);
    hide AddAll, AddOne;
    if i == n {
      AddOneStores(before.repo, metadata[n]);
    } else {
      assert metadata[..n][i] == metadata[i];
      AdditionStoresTheLast(r, metadata[..n], i);
      AddOneElsewhere(before.repo, metadata[n], metadata[i].pid);
      assert AddAll(r, metadata).receipts[i] == before.receipts[i];
    }
  }

  /** One more entry adds its receipt, the object it leaves to be cut off, and its announcement. */
  lemma OneMoreEntry(r: Repo, metadata: seq<Metadata>, m: Metadata)
    requires Wired(r)
    ensures var before, after := AddAll(r, metadata), AddAll(r, metadata + [m]);
            var one := AddOne(before.repo, m);
            && after.repo == one.repo
            && after.receipts == before.receipts + [one.receipt] && after.detached == before.detached + one.detached
            && after.notices == before.notices + if one.changed then [Notice(one.receipt.pid, one.receipt.changeCount)] else []
  {
    hide AddOne;
    assert (metadata + [m])[..|metadata|] == metadata;
  }

  /** And these are, for a PID that is free, one whose object is being removed, one that shows the same
      properties, and one that shows others. */
  lemma OneEntry(r: Repo, m: Metadata)
    requires Wired(r)
    ensures var one, next := AddOne(r, m), |r.objects|;
            if m.pid !in r.configurations then
              && one == Added(one.repo, Receipt(m.pid, 1, next), [], true)
              && |one.repo.objects| == next + 1 && one.repo.objects[next].changeCount == 1
            else
              var id := r.configurations[m.pid];
              var c := r.objects[id];
              if c.removed then
                && one == Added(one.repo, Receipt(m.pid, 0, next), [id], true)
                && |one.repo.objects| == next + 1 && one.repo.objects[next].changeCount == if m.properties == map[] then 0 else 1
              else if c.properties == m.properties then one == Added(r, Receipt(m.pid, 0, id), [], false)
              else
                && one == Added(one.repo, Receipt(m.pid, c.changeCount + 1, id), [], true)
                && |one.repo.objects| == next && one.repo.objects[id].changeCount == c.changeCount + 1
  {
    hide FactoryPid, AddInstance;
  }

  /** One more receipt: if it takes the object out, that one ends removed and is left to be cut off, and is
      announced with the receipt's count if it had ever been updated. */
  lemma OneMoreReceipt(r: Repo, receipts: seq<Receipt>, q: Receipt)
    requires Wired(r)
    ensures var before, after := RemoveAll(r, receipts), RemoveAll(r, receipts + [q]);
            if q.pid in before.repo.configurations && before.repo.configurations[q.pid] == q.configurationId then
              var c := before.repo.objects[q.configurationId];
              if c.removed || c.changeCount == q.changeCount then
                && after.repo.configurations == before.repo.configurations - {q.pid}
                && after.repo.objects == before.repo.objects[q.configurationId := c.(removed := true)]
                && after.detached == before.detached + [q.configurationId]
                && after.notices == before.notices + if c.changeCount > 0 then [Notice(q.pid, q.changeCount)] else []
              else after == before
            else after == before
  {
    assert (receipts + [q])[..|receipts|] == receipts;
    hide RemoveInstance;
  }

  /** After RemoveConfigurations a PID is gone exactly if it led to the object of some receipt for it, and that
      object had been removed already or still had the receipt's count; whatever stays is as it was. */
  lemma RemovalTakesOutExactly(r: Repo, receipts: seq<Receipt>, pid: string)
    requires Wired(r) && pid in r.configurations
    ensures var r', id := RemoveAll(r, receipts).repo, r.configurations[pid];
            && (pid !in r'.configurations <==>
                  exists q :: q in receipts && q.pid == pid && q.configurationId == id
                              && (r.objects[id].removed || r.objects[id].changeCount == q.changeCount))
            && (pid in r'.configurations ==> r'.configurations[pid] == id && r'.objects[id] == r.objects[id])
  {
    RemoveAllExactly(r, receipts, pid);
    var id := r.configurations[pid];
    if q :| q in receipts && Fits(r, q, pid) {
      assert q.pid == pid && q.configurationId == id;
    }
    if q :| q in receipts && q.pid == pid && q.configurationId == id && (r.objects[id].removed || r.objects[id].changeCount == q.changeCount) {
      assert Fits(r, q, pid);
    }
    hide RemoveAll;
  }

  /** And a PID that is not mapped stays so. */
  lemma RemovalMapsNothing(r: Repo, receipts: seq<Receipt>, pid: string)
    requires Wired(r) && pid !in r.configurations
    ensures pid !in RemoveAll(r, receipts).repo.configurations
  {
    RemoveAllExactly(r, receipts, pid);
  }

  /** A configuration that is asked for is the one there, or a new one, empty and never updated; nothing else
      changes. */
  lemma AskedForIsThere(s: State, pid: string)
    requires Wired(s.repo)
    ensures var s' := Next(s, GetConfiguration(pid));
            && pid in s'.repo.configurations
            && (pid in s.repo.configurations ==> s' == s)
            && (pid !in s.repo.configurations ==>
                  var c := s'.repo.objects[s'.repo.configurations[pid]];
                  && c.pid == pid && c.properties == map[] && c.changeCount == 0 && !c.removed && c.attached
                  && s'.repo.objects == s.repo.objects + [c]
                  && s'.repo.configurations == s.repo.configurations[pid := |s.repo.objects|]
                  && s' == s.(repo := s'.repo))
  {
    hide FactoryPid, AddInstance;
  }

  /** The same for a factory configuration under a free PID; under one in use nothing happens. */
  lemma FactoryConfigurationIsNew(s: State, f: string, name: string)
    requires Wired(s.repo)
    ensures var s', pid := Next(s, CreateFactoryConfiguration(f, name)), f + "~" + name;
            && (pid in s.repo.configurations ==> s' == s)
            && (pid !in s.repo.configurations ==>
                  && pid in s'.repo.configurations
                  && var c := s'.repo.objects[s'.repo.configurations[pid]];
                  && c.pid == pid && c.factoryPid == f && c.properties == map[] && c.changeCount == 0 && !c.removed && c.attached
                  && s'.repo.objects == s.repo.objects + [c]
                  && s'.repo.configurations == s.repo.configurations[pid := |s.repo.objects|]
                  && s' == s.(repo := s'.repo))
  {
    hide FactoryPid, AddInstance;
  }

  /** Over every run in which no factory PID has a `~`: the index holds exactly the mapped PIDs that begin with
      the factory's and have their first `~` behind it, and no factory without instances. */
  lemma IndexHoldsInstances(acts: seq<Act>, f: string, pid: string)
    requires PlainFactories(acts)
    ensures var r := Run(INIT, acts).repo;
            && (f in r.factoryInstances && pid in r.factoryInstances[f]
                <==> f != "" && '~' !in f && f + "~" <= pid && pid in r.configurations)
            && (f in r.factoryInstances ==> r.factoryInstances[f] != {})
  {
    ReachableIndexed(acts);
    var pids := Run(INIT, acts).repo.configurations.Keys;
    hide Run, FactoryPid, PlainFactories;
    if f != "" {
      FactoryPidExactly(pid, f);
      FactoryHasInstance(pids, f);
    }
    if pid in pids && FactoryPid(pid) == f && f != "" {
      assert pid in InstancesOf(pids, f);
    }
  }
}
