/** The engine's objects as a program: a configuration object with its back pointer, and the admin
    that maps PIDs to such objects.  Each method is one critical section, or a whole call that is not
    interrupted, and is proved against the repository functions. */
module ConfigurationAdmin {
  import opened Pids
  import opened Repository
  import opened Engine
  import opened WholeCalls

  /** The program's exception for a removed configuration. */
  datatype Result<+T> = Success(value: T) | RemovedError

  class Configuration {
    const id: nat
    const pid: string
    const factoryPid: string
    var admin: Admin?
    var properties: Properties
    var changeCount: nat
    var removed: bool
    ghost const origin: Origin
    ghost var writes: nat

    ghost function Value(): Config
      reads this
    {
      Config(pid, factoryPid, properties, changeCount, removed, admin != null, origin, writes)
    }

    constructor (id: nat, admin: Admin, pid: string, factoryPid: string, properties: Properties, count: nat, ghost origin: Origin)
      ensures this.id == id && this.pid == pid && this.admin == admin
      ensures Value() == NewConfig(pid, factoryPid, properties, count, origin)
    {
      this.id := id;
      this.admin := admin;
      this.pid := pid;
      this.factoryPid := factoryPid;
      this.properties := properties;
      this.changeCount := count;
      this.removed := false;
      this.origin := origin;
      this.writes := 0;
      new;
      if |properties| > 0 && changeCount == 0 {
        changeCount := changeCount + 1;
      }
    }

    method GetProperties() returns (r: Result<Properties>)
      ensures r == if removed then RemovedError else Success(properties)
    {
      if removed { return RemovedError; }
      return Success(properties);
    }

    method GetChangeCount() returns (r: Result<nat>)
      ensures r == if removed then RemovedError else Success(changeCount)
    {
      if removed { return RemovedError; }
      return Success(changeCount);
    }

    method HasBeenUpdatedAtLeastOnce() returns (b: bool)
      ensures b <==> changeCount > 0
    {
      b := changeCount > 0;
    }

    /** The first critical section of Update. */
    method SetProperties(newProperties: Properties) returns (r: Result<()>)
      modifies this
      ensures r.RemovedError? <==> old(removed)
      ensures Value() == if old(removed) then old(Value()) else Write(old(Value()), newProperties)
      ensures admin == old(admin)
    {
      if removed { return RemovedError; }
      properties := newProperties;
      changeCount := changeCount + 1;
      writes := writes + 1;
      return Success(());
    }

    method UpdateWithoutNotificationIfDifferent(newProperties: Properties) returns (r: Result<(bool, nat)>)
      modifies this
      ensures Value() == if old(removed) then old(Value()) else WriteIfDifferent(old(Value()), newProperties)
      ensures r == if old(removed) then RemovedError
                   else if old(properties) == newProperties then Success((false, 0))
                   else Success((true, old(changeCount) + 1))
      ensures admin == old(admin)
    {
      if removed { return RemovedError; }
      if properties == newProperties {
        return Success((false, 0));
      }
      properties := newProperties;
      changeCount := changeCount + 1;
      writes := writes + 1;
      return Success((true, changeCount));
    }

    method RemoveWithoutNotificationIfChangeCountEquals(expected: nat) returns (r: Result<bool>)
      modifies this
      ensures r == if old(removed) then RemovedError else Success(expected == old(changeCount))
      ensures Value() == old(Value()).(removed := old(removed) || expected == old(changeCount))
      ensures admin == old(admin)
    {
      if removed { return RemovedError; }
      if expected == changeCount {
        removed := true;
        return Success(true);
      }
      return Success(false);
    }

    /** The first critical section of Remove. */
    method MarkRemoved() returns (r: Result<()>)
      modifies this
      ensures r.RemovedError? <==> old(removed)
      ensures Value() == old(Value()).(removed := true)
      ensures admin == old(admin)
    {
      if removed { return RemovedError; }
      removed := true;
      return Success(());
    }

    method Invalidate()
      modifies this
      ensures admin == null && Value() == old(Value()).(attached := false)
    {
      admin := null;
    }

    /** Update, from start to end: the write, then the notification if the back pointer is set. */
    method Update(newProperties: Properties) returns (r: Result<()>)
      requires admin != null ==> admin.Valid() && this in admin.objects
      modifies this, if admin != null then {admin} else {}
      ensures r.RemovedError? <==> old(removed)
      ensures Value() == if old(removed) then old(Value()) else Write(old(Value()), newProperties)
      ensures admin == old(admin)
      ensures admin != null ==>
                && admin.Valid() && admin.objects == old(admin.objects)
                && admin.Value() == old(admin.Value()).(objects := old(admin.Value()).objects[id := Value()])
                && admin.queue == old(admin.queue) + if old(removed) then [] else [Posted(old(admin.futuresID) + 1, Announce(pid, changeCount))]
      ensures admin != null ==> Completes(old(admin.AsEngine()), Act.Update(0, id, newProperties), 0, admin.AsEngine())
    {
      hide ValuesOf, Admin.Mapping, Completes;
      if admin != null {
        admin.AtAddress(this);
        admin.UpdateStands(this, newProperties);
      }
      r := SetProperties(newProperties);
      if r.RemovedError? {
        if admin != null {
          assert admin.Value().objects == old(admin.Value()).objects[id := Value()];
          assert admin.Value().objects == old(admin.Value()).objects;
        }
        return;
      }
      if admin != null {
        assert admin.Value().objects == old(admin.Value()).objects[id := Value()];
        admin.PerformAsync(Announce(pid, changeCount));
      }
    }

    /** Remove, from start to end. */
    method Remove() returns (r: Result<()>)
      requires admin != null ==> admin.Valid() && this in admin.objects
      modifies this, if admin != null then {admin} else {}
      ensures r.RemovedError? <==> old(removed)
      ensures old(removed) ==> Value() == old(Value()) && admin == old(admin)
      ensures !old(removed) ==> Value() == old(Value()).(removed := true, attached := false)
      ensures old(admin) != null && !old(removed) ==>
                var a := old(admin);
                var marked := SetObject(old(a.Value()), id, old(Value()).(removed := true));
                && a.Valid() && a.objects == old(a.objects)
                && a.Value() == Detach(if old(Mapped()) then Erase(marked, pid) else marked, id)
                && a.queue == old(a.queue) + if old(Mapped()) && changeCount > 0
                     then [Posted(old(a.futuresID) + 1, Announce(pid, changeCount)), Posted(old(a.futuresID) + 2, LogRemoval(pid))]
                     else []
      ensures old(admin) != null ==>
                old(admin).Valid() && Completes(old(admin.AsEngine()), Act.Remove(0, id), 0, old(admin).AsEngine())
    {
      hide Erase, Completes, Wired, Post, Detach;
      if admin != null {
        admin.AtAddress(this);
        admin.RemoveStands(this);
        TwoPostsBeside(admin.Tasks(), Announce(pid, changeCount), LogRemoval(pid));
      }
      r := MarkRemoved();
      if r.RemovedError? {
        if admin != null {
          assert admin.Value().objects == old(admin.Value()).objects;
        }
        return;
      }
      if admin != null {
        assert admin.Value().objects == old(admin.Value()).objects[id := Value()];
        LeaveAdmin();
      }
    }

    /** The second critical section of Remove, under the lock on the back pointer. */
    method LeaveAdmin()
      requires admin != null && admin.Valid() && this in admin.objects
      modifies this`admin, admin`configurations, admin`factoryInstances, admin`queue, admin`futuresID, admin`incompleteFutures
      ensures var a := old(admin);
              && a.Valid() && a.objects == old(a.objects) && admin == null
              && a.Value() == Detach(if old(Mapped()) then Erase(old(a.Value()), pid) else old(a.Value()), id)
              && a.queue == old(a.queue) + if old(Mapped()) && changeCount > 0
                   then [Posted(old(a.futuresID) + 1, Announce(pid, changeCount)), Posted(old(a.futuresID) + 2, LogRemoval(pid))]
                   else []
      ensures old(admin).Tasks() ==
                if old(Mapped()) && changeCount > 0 then Post(Post(old(admin.Tasks()), Announce(pid, changeCount)), LogRemoval(pid))
                else old(admin.Tasks())
    {
      hide Erase, ValuesOf, Admin.Mapping;
      var a := admin;
      a.AtAddress(this);
      a.NotifyConfigurationRemoved(pid, id, changeCount);
      ghost var asked := a.Value();
      admin := null;
      assert a.Value().objects == asked.objects[id := Value()];
    }

    /** The PID still leads to this object. */
    ghost predicate Mapped()
      reads this, admin
    {
      admin != null && pid in admin.configurations && admin.configurations[pid] == this
    }

    method UpdateIfDifferent(newProperties: Properties) returns (r: Result<bool>)
      requires admin != null ==> admin.Valid() && this in admin.objects
      modifies this, if admin != null then {admin} else {}
      ensures r == if old(removed) then RemovedError else Success(old(properties) != newProperties)
      ensures Value() == if old(removed) then old(Value()) else WriteIfDifferent(old(Value()), newProperties)
      ensures admin == old(admin)
      ensures admin != null ==>
                && admin.Valid() && admin.objects == old(admin.objects)
                && admin.Value() == old(admin.Value()).(objects := old(admin.Value()).objects[id := Value()])
                && admin.queue == old(admin.queue)
                     + if r == Success(true) then [Posted(old(admin.futuresID) + 1, Announce(pid, changeCount))] else []
      ensures admin != null ==> Completes(old(admin.AsEngine()), Act.UpdateIfDifferent(0, id, newProperties), 0, admin.AsEngine())
    {
      hide ValuesOf, Admin.Mapping, Completes;
      if admin != null {
        admin.AtAddress(this);
        admin.UpdateIfDifferentStands(this, newProperties);
      }
      var updated := UpdateWithoutNotificationIfDifferent(newProperties);
      if admin != null {
        assert admin.Value().objects == old(admin.Value()).objects[id := Value()];
      }
      if admin != null && updated != Success((true, changeCount)) {
        assert admin.Value().objects == old(admin.Value()).objects;
      }
      if updated.RemovedError? {
        return RemovedError;
      }
      if !updated.value.0 {
        return Success(false);
      }
      if admin != null {
        admin.PerformAsync(Announce(pid, changeCount));
      }
      return Success(true);
    }
  }

  /** The first of the names that gives a free PID. */
  predicate FirstFree(taken: set<string>, factoryPid: string, names: seq<string>, i: nat) {
    && i < |names| && factoryPid + "~" + names[i] !in taken
    && forall j :: 0 <= j < i ==> factoryPid + "~" + names[j] in taken
  }

  class Admin {
    var configurations: map<string, Configuration>
    var factoryInstances: map<string, set<string>>
    var queue: seq<Posted>
    var futuresID: nat
    var incompleteFutures: set<nat>
    /** Every object ever made, in the order of their addresses. */
    ghost var objects: seq<Configuration>
    /** How many objects there are: the next address. */
    var made: nat

    ghost predicate Valid()
      reads this`objects, this`made, this`configurations, objects
    {
      && made == |objects|
      && (forall i :: 0 <= i < |objects| ==> objects[i].id == i && (objects[i].admin == null || objects[i].admin == this))
      && (forall p :: p in configurations ==> configurations[p] in objects && configurations[p].pid == p)
    }

    ghost function Value(): Repo
      requires Valid()
      reads this`objects, this`made, this`configurations, this`factoryInstances, objects
      ensures Wired(Value())
    {
      Repo(ValuesOf(objects), Mapping(), factoryInstances)
    }

    /** The tasks posted so far, as an engine with nothing else in it. */
    ghost function Tasks(): State
      reads this`queue, this`futuresID, this`incompleteFutures
    {
      State(EMPTY_REPO, map[], 0, queue, Idle, futuresID, incompleteFutures, map[])
    }

    /** The admin as an engine in which no call is under way. */
    ghost function AsEngine(): (s: State)
      requires Valid()
      reads this`objects, this`made, this`configurations, this`factoryInstances, objects
      reads this`queue, this`futuresID, this`incompleteFutures
      ensures Wired(s.repo)
    {
      Tasks().(repo := Value())
    }

    ghost function Mapping(): map<string, nat>
      reads this`configurations
    {
      map p | p in configurations :: configurations[p].id
    }

    /** An object stands at its address. */
    lemma AtAddress(c: Configuration)
      requires Valid() && c in objects
      ensures c.id < |objects| && objects[c.id] == c && Value().objects[c.id] == c.Value()
    {
    }

    /** What the engine leaves after the three calls on one object. */
    lemma UpdateStands(c: Configuration, properties: Properties)
      requires Valid() && c in objects && c.admin == this
      ensures var s, v := AsEngine(), Write(c.Value(), properties);
              Completes(s, Act.Update(0, c.id, properties), 0,
                        if c.removed then s else Post(s.(repo := SetObject(s.repo, c.id, v)), Announce(c.pid, c.changeCount + 1)))
    {
      AtAddress(c);
      hide Value, Tasks, Completes;
      if c.removed {
        NothingAlone(AsEngine(), Act.Update(0, c.id, properties), 0);
      } else {
        UpdateAlone(AsEngine(), 0, c.id, properties);
      }
    }

    lemma UpdateIfDifferentStands(c: Configuration, properties: Properties)
      requires Valid() && c in objects && c.admin == this
      ensures var s, v := AsEngine(), Write(c.Value(), properties);
              Completes(s, Act.UpdateIfDifferent(0, c.id, properties), 0,
                        if c.removed || c.properties == properties then s
                        else Post(s.(repo := SetObject(s.repo, c.id, v)), Announce(c.pid, c.changeCount + 1)))
    {
      AtAddress(c);
      hide Value, Tasks, Completes;
      if c.removed {
        NothingAlone(AsEngine(), Act.UpdateIfDifferent(0, c.id, properties), 0);
      } else {
        UpdateIfDifferentAlone(AsEngine(), 0, c.id, properties);
      }
    }

    lemma RemoveStands(c: Configuration)
      requires Valid() && c in objects && c.admin == this
      ensures var s := AsEngine();
              var marked := SetObject(s.repo, c.id, c.Value().(removed := true));
              var s1 := s.(repo := Detach(if c.Mapped() then Erase(marked, c.pid) else marked, c.id));
              Completes(s, Act.Remove(0, c.id), 0,
                        if c.removed then s
                        else if c.Mapped() && c.changeCount > 0
                        then Post(Post(s1, Announce(c.pid, c.changeCount)), LogRemoval(c.pid)) else s1)
    {
      AtAddress(c);
      hide Completes, Erase, Detach;
      if c.removed {
        NothingAlone(AsEngine(), Act.Remove(0, c.id), 0);
      } else {
        RemoveAlone(AsEngine(), 0, c.id);
      }
    }

    /** No object has gone and the new ones, if any, are fresh. */
    twostate predicate Grown()
      reads this
    {
      && old(objects) <= objects
      && forall i :: |old(objects)| <= i < |objects| ==> fresh(objects[i])
    }

    constructor ()
      ensures Valid() && Value() == EMPTY_REPO && queue == [] && futuresID == 0 && incompleteFutures == {} && fresh(this)
      ensures objects == []
    {
      configurations := map[];
      factoryInstances := map[];
      queue := [];
      futuresID := 0;
      incompleteFutures := {};
      objects := [];
      made := 0;
    }

    method PerformAsync(task: Task)
      modifies this`queue, this`futuresID, this`incompleteFutures
      ensures futuresID == old(futuresID) + 1
      ensures queue == old(queue) + [Posted(futuresID, task)]
      ensures incompleteFutures == old(incompleteFutures) + {futuresID}
      ensures Tasks() == Post(old(Tasks()), task)
    {
      futuresID := futuresID + 1;
      incompleteFutures := incompleteFutures + {futuresID};
      queue := queue + [Posted(futuresID, task)];
    }

    method AddFactoryInstanceIfRequired(pid: string, factoryPid: string)
      modifies this`factoryInstances
      ensures factoryInstances == AddInstance(old(factoryInstances), pid, factoryPid)
    {
      if factoryPid == "" {
        return;
      }
      if factoryPid !in factoryInstances {
        factoryInstances := factoryInstances[factoryPid := {}];
      }
      factoryInstances := factoryInstances[factoryPid := factoryInstances[factoryPid] + {pid}];
    }

    method RemoveFactoryInstanceIfRequired(pid: string)
      modifies this`factoryInstances
      ensures factoryInstances == RemoveInstance(old(factoryInstances), pid)
    {
      var factoryPid := FactoryPid(pid);
      if factoryPid == "" {
        return;
      }
      if factoryPid in factoryInstances {
        factoryInstances := factoryInstances[factoryPid := factoryInstances[factoryPid] - {pid}];
        if factoryInstances[factoryPid] == {} {
          factoryInstances := factoryInstances - {factoryPid};
        }
      }
    }

    /** A new object gets the next address. */
    method Allocate(c: Configuration)
      requires Valid() && c.id == made && c.admin == this
      modifies this`objects, this`made
      ensures Valid() && objects == old(objects) + [c]
      ensures Value() == old(Value()).(objects := old(Value()).objects + [c.Value()])
    {
      objects := objects + [c];
      made := made + 1;
      assert Value().objects == old(Value()).objects + [c.Value()];
    }

    /** The PID now leads to this object. */
    method MapTo(c: Configuration)
      requires Valid() && c in objects
      modifies this`configurations
      ensures Valid() && configurations == old(configurations)[c.pid := c]
      ensures Value() == old(Value()).(configurations := old(Value()).configurations[c.pid := c.id])
    {
      configurations := configurations[c.pid := c];
      assert Mapping() == old(Mapping())[c.pid := c.id];
    }

    method MakeObject(pid: string, factoryPid: string, properties: Properties, count: nat, ghost origin: Origin)
      returns (c: Configuration)
      requires Valid()
      modifies this`objects, this`made
      ensures Valid() && fresh(c) && objects == old(objects) + [c] && c.pid == pid && c.id == |old(objects)|
      ensures Value() == old(Value()).(objects := old(Value()).objects + [NewConfig(pid, factoryPid, properties, count, origin)])
    {
      c := new Configuration(made, this, pid, factoryPid, properties, count, origin);
      Allocate(c);
    }

    /** A new object under a free PID. */
    method Emplace(pid: string, factoryPid: string, properties: Properties, count: nat, ghost origin: Origin) returns (c: Configuration)
      requires Valid() && pid !in configurations
      modifies this`configurations, this`factoryInstances, this`objects, this`made
      ensures Valid() && fresh(c) && objects == old(objects) + [c]
      ensures Value() == Register(old(Value()), NewConfig(pid, factoryPid, properties, count, origin))
      ensures configurations == old(configurations)[pid := c] && c.pid == pid
    {
      c := MakeObject(pid, factoryPid, properties, count, origin);
      MapTo(c);
      AddFactoryInstanceIfRequired(pid, factoryPid);
    }

    method GetConfiguration(pid: string) returns (c: Configuration)
      requires Valid()
      modifies this`configurations, this`factoryInstances, this`objects, this`made
      ensures Valid() && Grown() && Value() == Repository.GetConfiguration(old(Value()), pid)
      ensures AsEngine() == Next(old(AsEngine()), Act.GetConfiguration(pid))
      ensures pid in configurations && c == configurations[pid]
    {
      if pid !in configurations {
        var made := Emplace(pid, FactoryPid(pid), map[], 0, FromClient);
      }
      c := configurations[pid];
    }

    /** The random names are drawn beforehand; the first that gives a free PID is used. */
    method CreateFactoryConfiguration(factoryPid: string, names: seq<string>) returns (c: Configuration?)
      requires Valid()
      modifies this`configurations, this`factoryInstances, this`objects, this`made
      ensures Valid() && Grown()
      ensures c == null ==>
                && Value() == old(Value())
                && forall i :: 0 <= i < |names| ==> factoryPid + "~" + names[i] in configurations
      ensures c != null ==>
                exists i: nat :: && FirstFree(old(configurations.Keys), factoryPid, names, i)
                                 && Value() == Repository.CreateFactoryConfiguration(old(Value()), factoryPid, names[i])
                                 && c.pid == factoryPid + "~" + names[i]
                                 && c.pid in configurations && configurations[c.pid] == c
    {
      var i := 0;
      while i < |names| && factoryPid + "~" + names[i] in configurations
        invariant 0 <= i <= |names|
        invariant forall j :: 0 <= j < i ==> factoryPid + "~" + names[j] in configurations
      {
        i := i + 1;
      }
      if i == |names| {
        return null;
      }
      c := Emplace(factoryPid + "~" + names[i], factoryPid, map[], 0, FromClient);
      assert FirstFree(old(configurations.Keys), factoryPid, names, i);
      assert Value() == Repository.CreateFactoryConfiguration(old(Value()), factoryPid, names[i]);
    }

    /** The PIDs whose configurations an unfiltered listing returns. */
    method ListConfigurations() returns (listed: set<nat>)
      requires Valid()
      ensures listed == Listed(Value())
      ensures listed == set p | p in configurations && configurations[p].changeCount > 0 :: configurations[p].id
    {
      listed := {};
      var todo := configurations.Keys;
      while todo != {}
        invariant todo <= configurations.Keys
        invariant listed == set p | p in configurations && p !in todo && configurations[p].changeCount > 0 :: configurations[p].id
        decreases todo
      {
        var p :| p in todo;
        var updated := configurations[p].HasBeenUpdatedAtLeastOnce();
        if updated {
          listed := listed + {configurations[p].id};
        }
        todo := todo - {p};
      }
      forall p | p in configurations
        ensures Value().objects[Value().configurations[p]].changeCount == configurations[p].changeCount {
        AtAddress(configurations[p]);
      }
    }

    // ---- adding and removing in batches ------------------------------------------------------

    /** One turn of the loop of AddConfigurations. */
    method AddOne(m: Metadata) returns (receipt: Receipt, replaced: Configuration?, changed: bool)
      requires Valid()
      modifies this`configurations, this`factoryInstances, this`objects, this`made, objects
      ensures Valid() && Grown() && (replaced != null ==> replaced in objects)
      ensures var one := Repository.AddOne(old(Value()), m);
              && Value() == one.repo && receipt == one.receipt && changed == one.changed
              && one.detached == if replaced == null then [] else [replaced.id]
    {
      AddOneCases(Value(), m);
      hide Repository.AddOne, Register;
      if m.pid !in configurations {
        receipt := CreateOne(m);
        replaced, changed := null, true;
      } else {
        receipt, replaced, changed := UpdateOne(m);
      }
    }

    /** There is an object under the PID: write to it, or replace it if somebody is removing it. */
    method UpdateOne(m: Metadata) returns (receipt: Receipt, replaced: Configuration?, changed: bool)
      requires Valid() && m.pid in configurations
      modifies this`configurations, this`objects, this`made, configurations[m.pid]
      ensures Valid() && Grown() && (replaced != null ==> replaced in objects)
      ensures var r, c := old(Value()), old(configurations[m.pid].Value());
              var id := old(configurations[m.pid].id);
              if c.removed then
                var made := NewConfig(m.pid, FactoryPid(m.pid), m.properties, 0, FromReplacement(|m.properties| > 0));
                && Value() == Repo(r.objects + [made], r.configurations[m.pid := |r.objects|], r.factoryInstances)
                && receipt == Receipt(m.pid, 0, |r.objects|) && replaced != null && replaced.id == id && changed
              else
                && Value() == SetObject(r, id, WriteIfDifferent(c, m.properties)) && replaced == null
                && changed == (c.properties != m.properties)
                && receipt == Receipt(m.pid, if changed then c.changeCount + 1 else 0, id)
    {
      var c := configurations[m.pid];
      AtAddress(c);
      var updated := WriteOne(c, m.properties);
      match updated {
        case Success((written, count)) =>
          return Receipt(m.pid, count, c.id), null, written;
        case RemovedError =>
          var substitute := Replace(m);
          return Receipt(m.pid, 0, substitute.id), c, true;
      }
    }

    /** There is no object under the PID: one is made, updated from the start. */
    method CreateOne(m: Metadata) returns (receipt: Receipt)
      requires Valid() && m.pid !in configurations
      modifies this`configurations, this`factoryInstances, this`objects, this`made
      ensures Valid() && Grown()
      ensures Value() == Register(old(Value()), NewConfig(m.pid, FactoryPid(m.pid), m.properties, 1, FromMetadata))
      ensures receipt == Receipt(m.pid, 1, |old(objects)|)
    {
      var created := Emplace(m.pid, FactoryPid(m.pid), m.properties, 1, FromMetadata);
      AtAddress(created);
      var count := created.GetChangeCount();
      return Receipt(m.pid, count.value, created.id);
    }

    /** There is an object: it is written to if that makes a difference, unless it has been removed. */
    method WriteOne(c: Configuration, properties: Properties) returns (r: Result<(bool, nat)>)
      requires Valid() && c in objects
      modifies c
      ensures Valid() && c.id < |objects|
      ensures Value() == if r.RemovedError? then old(Value())
                         else SetObject(old(Value()), c.id, WriteIfDifferent(old(c.Value()), properties))
      ensures r == if old(c.removed) then RemovedError
                   else if old(c.properties) == properties then Success((false, 0))
                   else Success((true, old(c.changeCount) + 1))
    {
      ghost var before := Value();
      AtAddress(c);
      r := c.UpdateWithoutNotificationIfDifferent(properties);
      assert Value().objects == before.objects[c.id := c.Value()];
      if r.RemovedError? {
        assert Value().objects == before.objects;
      }
    }

    /** Somebody is removing the object: another takes its place. */
    method Replace(m: Metadata) returns (c: Configuration)
      requires Valid() && m.pid in configurations
      modifies this`configurations, this`objects, this`made
      ensures Valid() && fresh(c) && objects == old(objects) + [c] && c.id == |old(objects)|
      ensures var made := NewConfig(m.pid, FactoryPid(m.pid), m.properties, 0, FromReplacement(|m.properties| > 0));
              Value() == old(Value()).(objects := old(Value()).objects + [made],
                                       configurations := old(Value()).configurations[m.pid := |old(objects)|])
    {
      hide ValuesOf, Mapping, NewConfig, FactoryPid;
      c := MakeObject(m.pid, FactoryPid(m.pid), m.properties, 0, FromReplacement(|m.properties| > 0));
      assert c == objects[|objects| - 1];
      MapTo(c);
    }

    /** One turn of the loop of RemoveConfigurations. */
    method RemoveOne(t: Receipt) returns (gone: Configuration?, notify: bool)
      requires Valid()
      modifies this`configurations, this`factoryInstances, objects
      ensures Valid() && objects == old(objects) && (gone != null ==> gone in objects)
      ensures var one := Repository.RemoveOne(old(Value()), t);
              && Value() == one.repo && notify == one.notify
              && one.detached == if gone == null then [] else [gone.id]
    {
      RemoveOneCases(Value(), t);
      hide Repository.RemoveOne, Erase;
      if t.pid !in configurations {
        return null, false;
      }
      var c := configurations[t.pid];
      AtAddress(c);
      if c.id != t.configurationId {
        return null, false;
      }
      var takeOut;
      takeOut, notify := TakeOut(c, t.pid, t.changeCount);
      if !takeOut {
        return null, false;
      }
      return c, notify;
    }

    /** The object leaves the map if it has to. */
    method TakeOut(c: Configuration, pid: string, count: nat) returns (takeOut: bool, hasBeenUpdated: bool)
      requires Valid() && c in objects
      modifies this`configurations, this`factoryInstances, c
      ensures Valid() && c.id < |objects|
      ensures takeOut <==> old(c.removed) || old(c.changeCount) == count
      ensures hasBeenUpdated <==> old(c.changeCount) > 0
      ensures Value() == if takeOut then Erase(SetObject(old(Value()), c.id, old(c.Value()).(removed := true)), pid)
                         else old(Value())
    {
      hide Erase;
      hasBeenUpdated := c.HasBeenUpdatedAtLeastOnce();
      takeOut := Mark(c, count);
      if takeOut {
        EraseMapping(pid);
      }
    }

    /** Marks the object as removed if it still has this count; says whether it has to leave the map,
        be it for that or because somebody else is removing it. */
    method Mark(c: Configuration, count: nat) returns (takeOut: bool)
      requires Valid() && c in objects
      modifies c
      ensures Valid()
      ensures takeOut <==> old(c.removed) || old(c.changeCount) == count
      ensures c.id < |objects|
      ensures Value() == if takeOut then SetObject(old(Value()), c.id, old(c.Value()).(removed := true)) else old(Value())
    {
      AtAddress(c);
      ghost var before := Value();
      var marked := c.RemoveWithoutNotificationIfChangeCountEquals(count);
      assert Value().objects == before.objects[c.id := c.Value()];
      takeOut := marked != Success(false);
    }

    method EraseMapping(pid: string)
      requires Valid()
      modifies this`configurations, this`factoryInstances
      ensures Valid() && Value() == Erase(old(Value()), pid)
    {
      hide RemoveInstance;
      configurations := configurations - {pid};
      RemoveFactoryInstanceIfRequired(pid);
      assert Mapping() == old(Mapping()) - {pid};
    }

    /** Cuts the back pointers of objects that have left the map. */
    method InvalidateAll(gone: seq<Configuration>)
      requires Valid() && forall c :: c in gone ==> c in objects
      modifies objects
      ensures Valid() && Value() == DetachAll(old(Value()), Ids(gone))
    {
      for i := 0 to |gone|
        invariant Valid() && Value() == DetachAll(old(Value()), Ids(gone[..i]))
      {
        hide DetachAll, Ids;
        DetachNext(old(Value()), gone, i);
        assert gone[i] in gone;
        InvalidateOne(gone[i]);
      }
      assert gone[..|gone|] == gone;
    }

    method InvalidateOne(c: Configuration)
      requires Valid() && c in objects
      modifies c
      ensures Valid() && Value() == Detach(old(Value()), c.id)
    {
      ghost var before := Value();
      AtAddress(c);
      c.Invalidate();
      assert Value().objects == before.objects[c.id := c.Value()];
    }

    /** Posts a notification for each receipt that is marked. */
    method NotifyMarked(receipts: seq<Receipt>, marks: seq<bool>)
      requires |marks| == |receipts|
      modifies this`queue, this`futuresID, this`incompleteFutures
      ensures Tasks() == PostAll(old(Tasks()), Announcements(Marked(receipts, marks)))
    {
      for i := 0 to |receipts|
        invariant Tasks() == PostAll(old(Tasks()), Announcements(Marked(receipts[..i], marks[..i])))
      {
        MarkedAnnounced(receipts, marks, i, old(Tasks()));
        hide Marked, Announcements, PostAll;
        if marks[i] {
          PerformAsync(Announce(receipts[i].pid, receipts[i].changeCount));
        }
      }
      assert receipts[..|receipts|] == receipts && marks[..|marks|] == marks;
    }

    /** One turn of the loop of AddConfigurations, with its records. */
    method RecordOne(ghost before: AddedAll, m: Metadata, receipts: seq<Receipt>, marks: seq<bool>, gone: seq<Configuration>)
      returns (receipts': seq<Receipt>, marks': seq<bool>, gone': seq<Configuration>)
      requires Valid() && Value() == before.repo && Recorded(before, receipts, marks, Ids(gone))
      requires forall c :: c in gone ==> c in objects
      modifies this`configurations, this`factoryInstances, this`objects, this`made, objects
      ensures Valid() && Grown() && (forall c :: c in gone' ==> c in objects) && |marks'| == |receipts'|
      ensures var all := Joined(before, Repository.AddOne(before.repo, m));
              Value() == all.repo && Recorded(all, receipts', marks', Ids(gone'))
    {
      assert |marks| == |receipts|;
      hide Repository.AddOne, Recorded, ValuesOf, Mapping, Ids, WithOne;
      var receipt, replaced, changed := AddOne(m);
      RecordedNext(before, Repository.AddOne(before.repo, m), receipts, marks, Ids(gone));
      IdsNext(gone, replaced);
      receipts' := receipts + [receipt];
      marks' := marks + [changed];
      gone' := WithOne(gone, replaced);
    }

    /** The critical section of AddConfigurations. */
    method AddSection(metadata: seq<Metadata>)
      returns (receipts: seq<Receipt>, createdOrUpdated: seq<bool>, gone: seq<Configuration>)
      requires Valid()
      modifies this`configurations, this`factoryInstances, this`objects, this`made, objects
      ensures Valid() && Grown() && (forall c :: c in gone ==> c in objects) && |createdOrUpdated| == |receipts|
      ensures Value() == AddAll(old(Value()), metadata).repo
      ensures Recorded(AddAll(old(Value()), metadata), receipts, createdOrUpdated, Ids(gone))
    {
      receipts, createdOrUpdated, gone := [], [], [];
      ghost var start := Value();
      for i := 0 to |metadata|
        invariant Valid() && Grown() && |createdOrUpdated| == |receipts|
        invariant forall c :: c in gone ==> c in objects
        invariant Value() == AddAll(start, metadata[..i]).repo
        invariant Recorded(AddAll(start, metadata[..i]), receipts, createdOrUpdated, Ids(gone))
      {
        AddAllNext(start, metadata, i);
        receipts, createdOrUpdated, gone :=
          RecordOne(AddAll(start, metadata[..i]), metadata[i], receipts, createdOrUpdated, gone);
      }
      assert metadata[..|metadata|] == metadata;
    }

    /** AddConfigurations, from start to end. */
    method AddConfigurations(metadata: seq<Metadata>) returns (receipts: seq<Receipt>)
      requires Valid()
      modifies this, objects
      ensures Valid() && Grown()
      ensures var all := AddAll(old(Value()), metadata);
              && receipts == all.receipts
              && Value() == DetachAll(all.repo, all.detached)
              && Tasks() == PostAll(old(Tasks()), Announcements(all.notices))
      ensures Completes(old(AsEngine()), Act.AddConfigurations(0, metadata), 0, AsEngine())
    {
      hide AddAll, DetachAll, Marked, PostAll, Completes, Announcements;
      ghost var start := AsEngine();
      var createdOrUpdated, gone;
      receipts, createdOrUpdated, gone := AddSection(metadata);
      InvalidateAll(gone);
      NotifyMarked(receipts, createdOrUpdated);
      AdditionAlone(start, 0, metadata);
      PostAllBeside(old(Tasks()), Value(), Announcements(AddAll(start.repo, metadata).notices));
    }

    /** The critical section of RemoveConfigurations. */
    method RemoveSection(receipts: seq<Receipt>) returns (notified: seq<bool>, gone: seq<Configuration>)
      requires Valid()
      modifies this`configurations, this`factoryInstances, objects
      ensures Valid() && objects == old(objects) && (forall c :: c in gone ==> c in objects) && |notified| == |receipts|
      ensures var all := RemoveAll(old(Value()), receipts);
              Value() == all.repo && Ids(gone) == all.detached && Marked(receipts, notified) == all.notices
    {
      hide Repository.RemoveOne;
      notified, gone := [], [];
      for i := 0 to |receipts|
        invariant Valid() && objects == old(objects) && |notified| == i
        invariant forall c :: c in gone ==> c in objects
        invariant var all := RemoveAll(old(Value()), receipts[..i]);
                  Value() == all.repo && Ids(gone) == all.detached && Marked(receipts[..i], notified) == all.notices
      {
        RemoveAllNext(old(Value()), receipts, i);
        notified, gone := DropOne(RemoveAll(old(Value()), receipts[..i]), receipts, i, notified, gone);
      }
      assert receipts[..|receipts|] == receipts;
    }

    /** One turn of the loop of RemoveConfigurations, with its records. */
    method DropOne(ghost before: DroppedAll, receipts: seq<Receipt>, i: nat, notified: seq<bool>, gone: seq<Configuration>)
      returns (notified': seq<bool>, gone': seq<Configuration>)
      requires Valid() && Value() == before.repo && i < |receipts| && |notified| == i
      requires Ids(gone) == before.detached && Marked(receipts[..i], notified) == before.notices
      requires forall c :: c in gone ==> c in objects
      modifies this`configurations, this`factoryInstances, objects
      ensures Valid() && objects == old(objects) && (forall c :: c in gone' ==> c in objects) && |notified'| == i + 1
      ensures var one := Repository.RemoveOne(before.repo, receipts[i]);
              && Value() == one.repo && Ids(gone') == before.detached + one.detached
              && Marked(receipts[..i + 1], notified')
                   == before.notices + if one.notify then [Notice(receipts[i].pid, receipts[i].changeCount)] else []
    {
      hide Repository.RemoveOne, Marked, ValuesOf, Mapping, Ids, WithOne;
      var erased, notify := RemoveOne(receipts[i]);
      assert receipts[..i + 1] == receipts[..i] + [receipts[i]];
      MarkedNext(receipts[..i], notified, receipts[i], notify);
      IdsNext(gone, erased);
      notified' := notified + [notify];
      gone' := WithOne(gone, erased);
    }

    /** RemoveConfigurations, from start to end. */
    method RemoveConfigurations(receipts: seq<Receipt>)
      requires Valid()
      modifies this, objects
      ensures Valid() && objects == old(objects)
      ensures var all := RemoveAll(old(Value()), receipts);
              && Value() == DetachAll(all.repo, all.detached)
              && Tasks() == PostAll(old(Tasks()), Announcements(all.notices))
      ensures Completes(old(AsEngine()), Act.RemoveConfigurations(0, receipts), 0, AsEngine())
    {
      hide RemoveAll, DetachAll, Marked, PostAll, Completes, Announcements;
      ghost var start := AsEngine();
      var notified, gone := RemoveSection(receipts);
      InvalidateAll(gone);
      NotifyMarked(receipts, notified);
      RemovalAlone(start, 0, receipts);
      PostAllBeside(old(Tasks()), Value(), Announcements(RemoveAll(start.repo, receipts).notices));
    }

    /** What Remove asks of the admin: the object leaves the map if it is still the one mapped. */
    method NotifyConfigurationRemoved(pid: string, id: nat, count: nat)
      requires Valid()
      modifies this`configurations, this`factoryInstances, this`queue, this`futuresID, this`incompleteFutures
      ensures Valid()
      ensures var mapped := pid in old(configurations) && old(configurations)[pid].id == id;
              && Value() == (if mapped then Erase(old(Value()), pid) else old(Value()))
              && queue == old(queue) + if mapped && old(configurations)[pid].changeCount > 0
                            then [Posted(old(futuresID) + 1, Announce(pid, count)), Posted(old(futuresID) + 2, LogRemoval(pid))]
                            else []
      ensures Tasks() ==
                if pid in old(configurations) && old(configurations)[pid].id == id && old(configurations)[pid].changeCount > 0
                then Post(Post(old(Tasks()), Announce(pid, count)), LogRemoval(pid)) else old(Tasks())
    {
      hide Erase, ValuesOf, Mapping, Post, Wired;
      if pid !in configurations {
        return;
      }
      if configurations[pid].id != id {
        return;
      }
      var hasBeenUpdated := configurations[pid].HasBeenUpdatedAtLeastOnce();
      EraseMapping(pid);
      if hasBeenUpdated {
        PostRemoval(pid, count);
      }
    }

    method PostRemoval(pid: string, count: nat)
      modifies this`queue, this`futuresID, this`incompleteFutures
      ensures queue == old(queue) + [Posted(old(futuresID) + 1, Announce(pid, count)), Posted(old(futuresID) + 2, LogRemoval(pid))]
      ensures Tasks() == Post(Post(old(Tasks()), Announce(pid, count)), LogRemoval(pid))
    {
      PerformAsync(Announce(pid, count));
      PerformAsync(LogRemoval(pid));
    }

    /** The instances handed to a factory that starts being tracked.  Every instance that the index
        names is mapped: that is the assertion in the program. */
    method CollectInstances(factoryPid: string) returns (updates: map<string, Snapshot>)
      requires Valid()
      requires factoryPid in factoryInstances ==> factoryInstances[factoryPid] <= configurations.Keys
      ensures updates == Instances(Value(), factoryPid)
    {
      updates := map[];
      if factoryPid !in factoryInstances {
        return;
      }
      var todo := factoryInstances[factoryPid];
      while todo != {}
        invariant todo <= factoryInstances[factoryPid]
        invariant updates == map p | p in factoryInstances[factoryPid] && p !in todo
                                 && !configurations[p].removed && configurations[p].changeCount > 0
                               :: Snapshot(configurations[p].properties, configurations[p].changeCount)
        decreases todo
      {
        var p :| p in todo;
        var updated := configurations[p].HasBeenUpdatedAtLeastOnce();
        if updated {
          var properties := configurations[p].GetProperties();
          var count := configurations[p].GetChangeCount();
          if properties.Success? && count.Success? {
            updates := updates[p := Snapshot(properties.value, count.value)];
          }
        }
        todo := todo - {p};
      }
      CollectedAll(factoryPid, updates);
    }

    lemma CollectedAll(factoryPid: string, updates: map<string, Snapshot>)
      requires Valid() && factoryPid in factoryInstances && factoryInstances[factoryPid] <= configurations.Keys
      requires updates == map p | p in factoryInstances[factoryPid]
                                  && !configurations[p].removed && configurations[p].changeCount > 0
                                :: Snapshot(configurations[p].properties, configurations[p].changeCount)
      ensures updates == Instances(Value(), factoryPid)
    {
      forall p | p in factoryInstances[factoryPid]
        ensures Value().objects[Value().configurations[p]] == configurations[p].Value() {
        AtAddress(configurations[p]);
      }
    }
  }

  ghost function ValuesOf(cs: seq<Configuration>): (r: seq<Config>)
    reads cs
    ensures |r| == |cs| && forall i :: 0 <= i < |r| ==> r[i] == cs[i].Value()
  {
    seq(|cs|, i requires 0 <= i < |cs| reads cs => cs[i].Value())
  }

  /** The cases of one entry, in the order of the program's tests. */
  lemma AddOneCases(r: Repo, m: Metadata)
    requires Wired(r)
    ensures var one := Repository.AddOne(r, m);
            if m.pid !in r.configurations then
              && one.repo == Register(r, NewConfig(m.pid, FactoryPid(m.pid), m.properties, 1, FromMetadata))
              && one.receipt == Receipt(m.pid, 1, |r.objects|) && one.detached == [] && one.changed
            else
              var id := r.configurations[m.pid];
              var c := r.objects[id];
              if c.removed then
                var made := NewConfig(m.pid, FactoryPid(m.pid), m.properties, 0, FromReplacement(|m.properties| > 0));
                && one.repo == Repo(r.objects + [made], r.configurations[m.pid := |r.objects|], r.factoryInstances)
                && one.receipt == Receipt(m.pid, 0, |r.objects|) && one.detached == [id] && one.changed
              else
                && one.repo == SetObject(r, id, WriteIfDifferent(c, m.properties)) && one.detached == []
                && one.changed == (c.properties != m.properties)
                && one.receipt == Receipt(m.pid, if one.changed then c.changeCount + 1 else 0, id)
  {
    if m.pid in r.configurations {
      var id := r.configurations[m.pid];
      assert r.objects[id := r.objects[id]] == r.objects;
    }
  }

  lemma RemoveOneCases(r: Repo, t: Receipt)
    requires Wired(r)
    ensures var one := Repository.RemoveOne(r, t);
            if t.pid !in r.configurations || r.configurations[t.pid] != t.configurationId then
              one == Dropped(r, [], false, false)
            else
              var id := t.configurationId;
              var c := r.objects[id];
              if c.removed || c.changeCount == t.changeCount then
                one == Dropped(Erase(SetObject(r, id, c.(removed := true)), t.pid), [id], true, c.changeCount > 0)
              else one == Dropped(r, [], false, false)
  {
    if t.pid in r.configurations && r.configurations[t.pid] == t.configurationId {
      var id := t.configurationId;
      assert r.objects[id := r.objects[id]] == r.objects;
    }
  }

  ghost function Ids(cs: seq<Configuration>): seq<nat> {
    seq(|cs|, i requires 0 <= i < |cs| => cs[i].id)
  }

  lemma DetachNext(r: Repo, cs: seq<Configuration>, i: nat)
    requires Wired(r) && i < |cs|
    ensures DetachAll(r, Ids(cs[..i + 1])) == Detach(DetachAll(r, Ids(cs[..i])), cs[i].id)
  {
    assert Ids(cs[..i + 1]) == Ids(cs[..i]) + [cs[i].id];
    assert Ids(cs[..i + 1])[..i] == Ids(cs[..i]);
  }

  function WithOne(cs: seq<Configuration>, c: Configuration?): seq<Configuration> {
    if c == null then cs else cs + [c]
  }

  lemma IdsNext(cs: seq<Configuration>, c: Configuration?)
    ensures Ids(WithOne(cs, c)) == Ids(cs) + if c == null then [] else [c.id]
    ensures forall x :: x in WithOne(cs, c) ==> x in cs || x == c
  {
  }

  lemma MarkedNext(receipts: seq<Receipt>, marks: seq<bool>, receipt: Receipt, mark: bool)
    requires |marks| == |receipts|
    ensures Marked(receipts + [receipt], marks + [mark])
         == Marked(receipts, marks) + if mark then [Notice(receipt.pid, receipt.changeCount)] else []
  {
    assert (receipts + [receipt])[..|receipts|] == receipts && (marks + [mark])[..|marks|] == marks;
  }

  lemma AddAllNext(r: Repo, metadata: seq<Metadata>, i: nat)
    requires Wired(r) && i < |metadata|
    ensures var before := AddAll(r, metadata[..i]);
            AddAll(r, metadata[..i + 1]) == Joined(before, Repository.AddOne(before.repo, metadata[i]))
  {
    assert metadata[..i + 1][..i] == metadata[..i];
  }

  /** What the loop of AddConfigurations keeps beside the repository. */
  predicate Recorded(all: AddedAll, receipts: seq<Receipt>, marks: seq<bool>, ids: seq<nat>) {
    |marks| == |receipts| && receipts == all.receipts && ids == all.detached && Marked(receipts, marks) == all.notices
  }

  /** One entry more: `one` is what its turn of the loop gave. */
  function Joined(before: AddedAll, one: Added): AddedAll {
    AddedAll(one.repo, before.receipts + [one.receipt], before.detached + one.detached,
             before.notices + if one.changed then [Notice(one.receipt.pid, one.receipt.changeCount)] else [])
  }

  lemma RecordedNext(before: AddedAll, one: Added, receipts: seq<Receipt>, marks: seq<bool>, ids: seq<nat>)
    requires Recorded(before, receipts, marks, ids)
    ensures Recorded(Joined(before, one), receipts + [one.receipt], marks + [one.changed], ids + one.detached)
  {
    MarkedNext(receipts, marks, one.receipt, one.changed);
  }

  lemma RemoveAllNext(r: Repo, receipts: seq<Receipt>, i: nat)
    requires Wired(r) && i < |receipts|
    ensures var before := RemoveAll(r, receipts[..i]);
            var one := Repository.RemoveOne(before.repo, receipts[i]);
            RemoveAll(r, receipts[..i + 1])
              == DroppedAll(one.repo, before.detached + one.detached,
                            before.notices + if one.notify then [Notice(receipts[i].pid, receipts[i].changeCount)] else [])
  {
    assert receipts[..i + 1][..i] == receipts[..i];
  }

  /** The announcements of the marked receipts. */
  function Marked(receipts: seq<Receipt>, marks: seq<bool>): seq<Notice>
    requires |marks| == |receipts|
  {
    if receipts == [] then []
    else
      var n := |receipts| - 1;
      Marked(receipts[..n], marks[..n]) + if marks[n] then [Notice(receipts[n].pid, receipts[n].changeCount)] else []
  }

  lemma MarkedAnnounced(receipts: seq<Receipt>, marks: seq<bool>, i: nat, s: State)
    requires |marks| == |receipts| && i < |receipts|
    ensures var before := PostAll(s, Announcements(Marked(receipts[..i], marks[..i])));
            PostAll(s, Announcements(Marked(receipts[..i + 1], marks[..i + 1])))
            == if marks[i] then Post(before, Announce(receipts[i].pid, receipts[i].changeCount)) else before
  {
    assert receipts[..i + 1][..i] == receipts[..i] && marks[..i + 1][..i] == marks[..i];
    var tasks := Announcements(Marked(receipts[..i], marks[..i]));
    if marks[i] {
      var last := Announce(receipts[i].pid, receipts[i].changeCount);
      assert Announcements(Marked(receipts[..i + 1], marks[..i + 1])) == tasks + [last];
      assert (tasks + [last])[..|tasks|] == tasks;
    } else {
      assert Marked(receipts[..i + 1], marks[..i + 1]) == Marked(receipts[..i], marks[..i]);
    }
  }

  lemma TwoPostsBeside(s: State, first: Task, second: Task)
    ensures forall r: Repo :: Post(Post(s.(repo := r), first), second) == Post(Post(s, first), second).(repo := r)
  {
  }

  /** Posting does not look at the repository. */
  lemma {:induction false} PostAllBeside(s: State, r: Repo, tasks: seq<Task>)
    ensures PostAll(s.(repo := r), tasks) == PostAll(s, tasks).(repo := r)
  {
    if tasks != [] {
      PostAllBeside(s, r, tasks[..|tasks| - 1]);
    }
  }

  /** A tracked service with the announced count it last received per PID; `handed` is history. */
  class TrackedServiceWrapper {
    const kind: Kind
    const pid: string
    var lastUpdatedChangeCountPerPid: map<string, nat>
    ghost var handed: map<string, Handed>

    ghost function Value(): Tracked
      reads this
    {
      Tracked(kind, pid, lastUpdatedChangeCountPerPid, handed)
    }

    constructor (kind: Kind, pid: string, initial: map<string, nat>)
      ensures Value() == Tracked(kind, pid, initial, map[])
    {
      this.kind := kind;
      this.pid := pid;
      lastUpdatedChangeCountPerPid := initial;
      handed := map[];
    }

    /** Looking up the count creates an entry if there is none. */
    method NeedsAnUpdateNotification(pid: string, changeCount: nat) returns (needs: bool)
      modifies this`lastUpdatedChangeCountPerPid
      ensures needs <==> LastCount(old(Value()), pid) < changeCount
      ensures lastUpdatedChangeCountPerPid == old(lastUpdatedChangeCountPerPid)[pid := LastCount(old(Value()), pid)]
    {
      if pid !in lastUpdatedChangeCountPerPid {
        lastUpdatedChangeCountPerPid := lastUpdatedChangeCountPerPid[pid := 0];
      }
      needs := lastUpdatedChangeCountPerPid[pid] < changeCount;
    }

    /** This service's turn in the notification loop. */
    method Notify(pid: string, changeCount: nat, removed: bool, snapshot: Snapshot)
      modifies this
      ensures Value() == NotifyOne(old(Value()), pid, changeCount, removed, snapshot)
    {
      var factoryPid := FactoryPid(pid);
      var concerned := if kind == Managed then this.pid == pid else factoryPid != "" && this.pid == factoryPid;
      if !concerned {
        return;
      }
      if removed {
        handed := handed[pid := RemovalNotice(kind)];
        lastUpdatedChangeCountPerPid := lastUpdatedChangeCountPerPid - {pid};
        return;
      }
      var needs := NeedsAnUpdateNotification(pid, changeCount);
      if needs {
        handed := handed[pid := Updated(snapshot.properties, snapshot.version)];
        lastUpdatedChangeCountPerPid := lastUpdatedChangeCountPerPid[pid := changeCount];
      }
    }
  }

  /** The notification loop over the services the task found tracked. */
  method NotifyServices(services: seq<TrackedServiceWrapper>, pid: string, changeCount: nat, removed: bool, snapshot: Snapshot)
    requires forall i, j :: 0 <= i < j < |services| ==> services[i] != services[j]
    modifies services
    ensures forall w :: w in services ==> w.Value() == NotifyOne(old(w.Value()), pid, changeCount, removed, snapshot)
  {
    for i := 0 to |services|
      invariant forall j :: 0 <= j < i ==> services[j].Value() == NotifyOne(old(services[j].Value()), pid, changeCount, removed, snapshot)
      invariant forall j :: i <= j < |services| ==> services[j].Value() == old(services[j].Value())
    {
      services[i].Notify(pid, changeCount, removed, snapshot);
    }
  }
}
