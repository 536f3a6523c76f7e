/** A bundle that is started again brings its configurations back while the removal of the earlier ones may
    still be on its way: what services hear of them, for every batch that makes a PID's object anew. */
module Restarts {
  import opened Pids
  import opened Repository
  import opened Engine
  import opened Evolution
  import opened Protocol
  import opened Pointers
  import opened Agreement
  import opened Progress
  import opened LastWords
  import opened Schedules
  import opened LaterWrites
  import opened Undo
  import AgreementRuns

  // ---- what the batch makes ------------------------------------------------------------------

  /** The PID is not mapped, or leads to an object that somebody is removing. */
  ghost predicate Vacant(r: Repo, pid: string)
    requires Wired(r)
  {
    pid in r.configurations ==> MappedRemoved(r, pid)
  }

  /** Earlier objects of the PID are as they were, and no object changes its PID or loses its pointer. */
  ghost predicate KeepsEarlier(r: Repo, r': Repo, pid: string) {
    && |r.objects| <= |r'.objects|
    && (forall id :: 0 <= id < |r.objects| ==>
          && r'.objects[id].pid == r.objects[id].pid && r'.objects[id].attached == r.objects[id].attached
          && (r.objects[id].pid == pid ==> r'.objects[id] == r.objects[id]))
  }

  /** The PID leads to an object with a number from n on, and no notice says more than its count. */
  ghost predicate MadeFrom(r: Repo, n: nat, notices: seq<Notice>, pid: string)
    requires Wired(r)
  {
    && pid in r.configurations && r.configurations[pid] >= n && !r.objects[r.configurations[pid]].removed
    && forall q :: q in notices && q.pid == pid ==> q.changeCount <= r.objects[r.configurations[pid]].changeCount
  }

  ghost predicate Untouched(r: Repo, r': Repo, notices: seq<Notice>, pid: string)
    requires Wired(r) && Wired(r')
  {
    Elsewhere(r, r', pid) && forall q :: q in notices ==> q.pid != pid
  }

  /** The notices after one more turn. */
  function Noticed(notices: seq<Notice>, one: Added): seq<Notice> {
    notices + if one.changed then [Notice(one.receipt.pid, one.receipt.changeCount)] else []
  }

  lemma {:induction false} AddAllMakes(r: Repo, metadata: seq<Metadata>, pid: string)
    requires Wired(r) && Vacant(r, pid)
    ensures var a := AddAll(r, metadata);
            && KeepsEarlier(r, a.repo, pid)
            && (if About(metadata, pid) then MadeFrom(a.repo, |r.objects|, a.notices, pid)
                else Untouched(r, a.repo, a.notices, pid))
  {
    hide AddAll, AddOne, About, Noticed, Vacant;
    if metadata == [] {
      NothingMade(r, metadata, pid);
    } else {
      var n := |metadata| - 1;
      var before, m := AddAll(r, metadata[..n]), metadata[n];
      AddAllMakes(r, metadata[..n], pid);
      LastTurn(r, metadata);
      AboutLast(metadata, pid);
      hide KeepsEarlier, MadeFrom, Untouched;
      if About(metadata[..n], pid) {
        MadeStep(r, before.repo, m, before.notices, pid);
      } else if m.pid == pid {
        MakingStep(r, before.repo, m, before.notices);
      } else {
        UntouchedStep(r, before.repo, m, before.notices, pid);
      }
    }
  }

  lemma NothingMade(r: Repo, metadata: seq<Metadata>, pid: string)
    requires Wired(r) && metadata == []
    ensures var a := AddAll(r, metadata);
            !About(metadata, pid) && KeepsEarlier(r, a.repo, pid) && Untouched(r, a.repo, a.notices, pid)
  {
  }

  lemma LastTurn(r: Repo, metadata: seq<Metadata>)
    requires Wired(r) && metadata != []
    ensures var n := |metadata| - 1;
            var before, a := AddAll(r, metadata[..n]), AddAll(r, metadata);
            && a.repo == AddOne(before.repo, metadata[n]).repo
            && a.notices == Noticed(before.notices, AddOne(before.repo, metadata[n]))
  {
    hide AddOne;
  }

  lemma AboutLast(metadata: seq<Metadata>, pid: string)
    requires metadata != []
    ensures var n := |metadata| - 1;
            About(metadata, pid) <==> About(metadata[..n], pid) || metadata[n].pid == pid
  {
    var n := |metadata| - 1;
    assert metadata == metadata[..n] + [metadata[n]];
    if m :| m in metadata && m.pid == pid {
      assert m in metadata[..n] || m == metadata[n];
    }
    if About(metadata[..n], pid) {
      var m :| m in metadata[..n] && m.pid == pid;
      assert m in metadata;
    }
    assert metadata[n] in metadata;
  }

  lemma MadeStep(r: Repo, b: Repo, m: Metadata, notices: seq<Notice>, pid: string)
    requires Wired(r) && Wired(b) && KeepsEarlier(r, b, pid) && MadeFrom(b, |r.objects|, notices, pid)
    ensures KeepsEarlier(r, AddOne(b, m).repo, pid) && MadeFrom(AddOne(b, m).repo, |r.objects|, Noticed(notices, AddOne(b, m)), pid)
  {
    hide AddOne;
    OthersStay(b, m);
    AddOneReceipt(b, m);
    if m.pid != pid || !AddOne(b, m).changed {
      AddOneElsewhere(b, m, pid);
    } else {
      AddOneHere(b, m);
    }
  }

  lemma OthersStay(r: Repo, m: Metadata)
    requires Wired(r)
    ensures var r' := AddOne(r, m).repo;
            && |r.objects| <= |r'.objects|
            && (forall id :: 0 <= id < |r.objects| ==>
                  && r'.objects[id].pid == r.objects[id].pid && r'.objects[id].attached == r.objects[id].attached
                  && (r'.objects[id] == r.objects[id] || (m.pid in r.configurations && id == r.configurations[m.pid])))
  {
    hide FactoryPid, AddInstance;
  }

  lemma MakingStep(r: Repo, b: Repo, m: Metadata, notices: seq<Notice>)
    requires Wired(r) && Wired(b) && Vacant(r, m.pid) && KeepsEarlier(r, b, m.pid) && Untouched(r, b, notices, m.pid)
    ensures KeepsEarlier(r, AddOne(b, m).repo, m.pid) && MadeFrom(AddOne(b, m).repo, |r.objects|, Noticed(notices, AddOne(b, m)), m.pid)
  {
    hide FactoryPid, AddInstance;
  }

  lemma UntouchedStep(r: Repo, b: Repo, m: Metadata, notices: seq<Notice>, pid: string)
    requires Wired(r) && Wired(b) && m.pid != pid && KeepsEarlier(r, b, pid) && Untouched(r, b, notices, pid)
    ensures KeepsEarlier(r, AddOne(b, m).repo, pid) && Untouched(r, AddOne(b, m).repo, Noticed(notices, AddOne(b, m)), pid)
  {
    AddOneElsewhere(b, m, pid);
    AddOneReceipt(b, m);
    hide FactoryPid, AddInstance;
  }

  // ---- the state after the batch's section ---------------------------------------------------

  ghost predicate MakesAnew(s: State, t: nat, metadata: seq<Metadata>, k: nat, pid: string) {
    && Orderly(s) && KeysSound(s) && t !in s.calls
    && About(metadata, pid) && Vacant(s.repo, pid)
    && k in s.services && Interested(s.services[k], pid)
  }

  /** The object that the batch makes, and the counts that it is going to announce for it. */
  function Anew(r: Repo, metadata: seq<Metadata>, pid: string): Config
    requires Wired(r) && pid in AddAll(r, metadata).repo.configurations
  {
    var r' := AddAll(r, metadata).repo;
    r'.objects[r'.configurations[pid]]
  }

  predicate WillAnnounce(r: Repo, metadata: seq<Metadata>, pid: string, n: nat)
    requires Wired(r)
  {
    Notice(pid, n) in AddAll(r, metadata).notices
  }

  lemma BatchFollows(s: State, t: nat, metadata: seq<Metadata>, k: nat, pid: string)
    requires MakesAnew(s, t, metadata, k, pid)
    ensures var s1 := Next(s, AddConfigurations(t, metadata));
            var all := AddAll(s.repo, metadata);
            && Following(s1, k, pid) && pid in all.repo.configurations && Object(s1, pid) == Anew(s.repo, metadata, pid)
            && s1 == s.(repo := all.repo, calls := s.calls[t := Finishing(all.detached, Announcements(all.notices))])
            && KeepsEarlier(s.repo, s1.repo, pid) && MadeFrom(s1.repo, |s.repo.objects|, all.notices, pid)
  {
    AddAllMakes(s.repo, metadata, pid);
    NextKeepsProtocol(s, AddConfigurations(t, metadata));
    AgreementRuns.NextKeepsKeys(s, AddConfigurations(t, metadata));
    hide AddAll, Orderly, KeysSound, Interested, About, KeepsEarlier;
  }

  /** What is pending afterwards was pending before or comes from the batch; nothing else becomes certain. */
  lemma BatchPending(s: State, t: nat, metadata: seq<Metadata>, k: nat, pid: string, n: nat)
    requires MakesAnew(s, t, metadata, k, pid)
    ensures var s1 := Next(s, AddConfigurations(t, metadata));
            && Wired(s1.repo) && pid in s1.repo.configurations
            && (Pending(s1, pid, n) <==> Pending(s, pid, n) || WillAnnounce(s.repo, metadata, pid, n))
            && (Certain(s1, pid, n) <==> PromisedCount(s, pid, n) || WillAnnounce(s.repo, metadata, pid, n))
  {
    var s1, all := Next(s, AddConfigurations(t, metadata)), AddAll(s.repo, metadata);
    BatchFollows(s, t, metadata, k, pid);
    hide Next, AddAll, Announcements, KeysSound, Interested, About, Vacant;
    BatchPromises(all.notices, all.detached, pid, n);
    PromisedBesides(s, s1, t, pid, n);
    forall u ensures UpdateUnderWay(s1, u, pid) <==> UpdateUnderWay(s, u, pid) {
      if u in s.calls { assert CallSound(s.repo, s.calls[u]); }
    }
    hide Orderly, Promises, PromisedCount, MadeFrom;
  }

  lemma PromisedBesides(s: State, s1: State, t: nat, pid: string, n: nat)
    requires t !in s.calls && t in s1.calls && s1.calls == s.calls[t := s1.calls[t]]
    ensures PromisedCount(s1, pid, n) <==> PromisedCount(s, pid, n) || Promises(s1.calls[t], pid, n)
  {
    hide Promises;
    if u :| u in s.calls && Promises(s.calls[u], pid, n) {
      assert Promises(s1.calls[u], pid, n);
    }
  }

  // ---- later writes, and none ----------------------------------------------------------------

  /** A batch that makes an object anew, under a PID that is not mapped or in the place of an object being
      removed: no later write is lost, in any run, if and only if nothing stale is ahead of that object. */
  lemma BatchLosesNothingExactly(s: State, t: nat, metadata: seq<Metadata>, k: nat, pid: string)
    requires MakesAnew(s, t, metadata, k, pid)
    ensures var s1 := Next(s, AddConfigurations(t, metadata));
            && Following(s1, k, pid)
            && ((forall acts :: WrittenAndAtRest(s1, acts, k, pid) ==> InAgreement(Run(s1, acts), k, pid))
                <==> NothingStale(s, k, pid, Object(s1, pid).changeCount))
  {
    hide Next, WrittenAndAtRest, InAgreement, Pending, Certain, KeysSound, Interested, About, KeepsEarlier;
    var s1 := Next(s, AddConfigurations(t, metadata));
    BatchFollows(s, t, metadata, k, pid);
    forall n: nat ensures Pending(s1, pid, n) <==> Pending(s, pid, n) || WillAnnounce(s.repo, metadata, pid, n) {
      BatchPending(s, t, metadata, k, pid, n);
    }
    assert AfterTask(s1, k, pid) == AfterTask(s, k, pid);
    LaterWritesArriveExactly(s1, k, pid);
  }

  /** Some announcement is certain to be above the last count, and some may be. */
  ghost predicate CertainlyAbove(s: State, metadata: seq<Metadata>, pid: string, last: nat)
    requires Wired(s.repo)
  {
    exists n: nat :: last < n && (PromisedCount(s, pid, n) || WillAnnounce(s.repo, metadata, pid, n))
  }

  ghost predicate PossiblyAbove(s: State, metadata: seq<Metadata>, pid: string, last: nat)
    requires Wired(s.repo)
  {
    exists n: nat :: last < n && (Pending(s, pid, n) || WillAnnounce(s.repo, metadata, pid, n))
  }

  /** And without a later write: every schedule ends in agreement, or some schedule does, if and only if what
      the service will hear, for certain or possibly, tells the properties of the object made. */
  lemma BatchAgreesExactly(s: State, t: nat, metadata: seq<Metadata>, k: nat, pid: string)
    requires MakesAnew(s, t, metadata, k, pid) && PointersSound(s)
    requires pid in AddAll(s.repo, metadata).repo.configurations
    ensures var s1 := Next(s, AddConfigurations(t, metadata));
            var kind, c := s.services[k].kind, Anew(s.repo, metadata, pid);
            var m := HearAll(AfterTask(s, k, pid), s.queue, k, pid, c);
            && ((forall more :: EndsAgreeing(s1, more, k, pid))
                <==> Tells(WordAfter(m, c, CertainlyAbove(s, metadata, pid, m.last)), kind, c))
            && ((exists more :: AllFinishWork(more) && Quiescent(Run(s1, more)) && EndsAgreeing(s1, more, k, pid))
                <==> Tells(WordAfter(m, c, PossiblyAbove(s, metadata, pid, m.last)), kind, c))
  {
    hide Next, Tells, EndsAgreeing, KeysSound, Interested, About, PointersSound, AfterTask, KeepsEarlier, MadeFrom, Vacant;
    var s1 := Next(s, AddConfigurations(t, metadata));
    BatchFollows(s, t, metadata, k, pid);
    SameTask(s, s1, k, pid);
    BatchOutcome(s, t, metadata, k, pid, AfterQueue(s1, k, pid).last);
    NextKeepsPointers(s, AddConfigurations(t, metadata));
    hide Orderly, CertainlyAbove, PossiblyAbove, CertainToHear, MoreToHear, WordAfter, Anew, HearAll;
    AgreesAnywayExactly(s1, k, pid);
    AgreesSomehowExactly(s1, k, pid);
  }

  lemma SameTask(s: State, s1: State, k: nat, pid: string)
    requires k in s.services && s1.services == s.services && s1.worker == s.worker
    ensures AfterTask(s1, k, pid) == AfterTask(s, k, pid)
  {
  }

  lemma BatchOutcome(s: State, t: nat, metadata: seq<Metadata>, k: nat, pid: string, last: nat)
    requires MakesAnew(s, t, metadata, k, pid)
    ensures var s1 := Next(s, AddConfigurations(t, metadata));
            && Wired(s1.repo) && pid in s1.repo.configurations
            && (CertainToHear(s1, pid, last) <==> CertainlyAbove(s, metadata, pid, last))
            && (MoreToHear(s1, pid, last) <==> PossiblyAbove(s, metadata, pid, last))
  {
    hide Next, Pending, Certain, WillAnnounce, PromisedCount;
    BatchFollows(s, t, metadata, k, pid);
    var s1 := Next(s, AddConfigurations(t, metadata));
    forall n: nat
      ensures (Pending(s1, pid, n) <==> Pending(s, pid, n) || WillAnnounce(s.repo, metadata, pid, n))
              && (Certain(s1, pid, n) <==> PromisedCount(s, pid, n) || WillAnnounce(s.repo, metadata, pid, n))
    {
      BatchPending(s, t, metadata, k, pid, n);
    }
    hide MakesAnew, Following;
  }

  // ---- a bundle started again too early ------------------------------------------------------

  /** A service was promised a configuration, the configuration is on its way out, and a bundle brings it
      back: the announcement of the new object repeats the count that the service remembers. */
  lemma RestartIsHeardExactly(pid: string, properties: Properties, m: Metadata)
    requires pid != "" && m.pid == pid
    ensures var s1 := Run(INIT, RemovedAfterTracking(pid, properties) + [AddConfigurations(2, [m])]);
            (exists more :: AllFinishWork(more) && Quiescent(Run(s1, more)) && EndsAgreeing(s1, more, 0, pid))
            <==> m.properties == properties
  {
    var acts := RemovedAfterTracking(pid, properties);
    var s := Run(INIT, acts);
    RemovedButRemembered(pid, properties);
    ReachablePointers(acts);
    RestartedBatch(s, pid, m);
    RunConcat(INIT, acts, [AddConfigurations(2, [m])]);
    OneAct(s, AddConfigurations(2, [m]));
    hide Orderly, KeysSound, PointersSound, Run, Next, EndsAgreeing, MakesAnew, PossiblyAbove, CertainlyAbove, Tells, HearAll, Anew;
    BatchAgreesExactly(s, 2, [m], 0, pid);
    HeardTheOld(s, pid, properties, m);
  }

  lemma RestartedBatch(s: State, pid: string, m: Metadata)
    requires Orderly(s) && KeysSound(s) && pid !in s.repo.configurations && m.pid == pid && 2 !in s.calls
    requires 0 in s.services && Interested(s.services[0], pid)
    ensures MakesAnew(s, 2, [m], 0, pid) && pid in AddAll(s.repo, [m]).repo.configurations
    ensures Anew(s.repo, [m], pid) == NewConfig(pid, FactoryPid(pid), m.properties, 1, FromMetadata)
    ensures AddAll(s.repo, [m]).notices == [Notice(pid, 1)]
  {
    assert m in [m];
    AddAllOfOne(s.repo, m);
    hide AddAll, Orderly, KeysSound, FactoryPid, AddInstance;
  }

  lemma HeardTheOld(s: State, pid: string, properties: Properties, m: Metadata)
    requires Wired(s.repo) && 0 in s.services && s.queue == [FirstHand(pid, properties)] && AfterTask(s, 0, pid) == Mind(1, Silence)
    requires s.calls == map[0 := Updating(0), 1 := Finishing([], [Announce(pid, 1), LogRemoval(pid)])]
    requires |s.repo.objects| == 1 && !s.repo.objects[0].attached && pid in AddAll(s.repo, [m]).repo.configurations
    requires Anew(s.repo, [m], pid) == NewConfig(pid, FactoryPid(pid), m.properties, 1, FromMetadata)
    requires AddAll(s.repo, [m]).notices == [Notice(pid, 1)]
    ensures var c := Anew(s.repo, [m], pid);
            var heard := HearAll(AfterTask(s, 0, pid), s.queue, 0, pid, c);
            Tells(WordAfter(heard, c, PossiblyAbove(s, [m], pid, heard.last)), s.services[0].kind, c) <==> m.properties == properties
  {
    hide AddAll, FactoryPid, AfterTask;
    var c := Anew(s.repo, [m], pid);
    var queue := s.queue;
    assert queue[..0] == [];
    assert HearAll(Mind(1, Silence), queue[..0], 0, pid, c) == Mind(1, Silence);
    assert HearAll(Mind(1, Silence), queue, 0, pid, c) == Mind(1, Said(Updated(properties, 1)));
    forall n: nat | Pending(s, pid, n) ensures n == 1 {
    }
    forall n: nat | WillAnnounce(s.repo, [m], pid, n) ensures n == 1 {
    }
    assert !PossiblyAbove(s, [m], pid, 1);
  }
}
