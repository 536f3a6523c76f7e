/** The engine never gets stuck: once clients stop calling, what is under way runs out, and then
    services and repository agree.  And what can go wrong when a PID is created again too early. */
module Progress {
  import opened Pids
  import opened Repository
  import opened Engine
  import opened Protocol
  import opened Agreement
  import opened AgreementRuns

  /** Steps that finish work and start none. */
  predicate FinishesWork(a: Act) {
    a.Continue? || a.TakeTask? || a.FinishTask?
  }

  predicate AllFinishWork(acts: seq<Act>) {
    forall i :: 0 <= i < |acts| ==> FinishesWork(acts[i])
  }

  // ---- how much work is left -----------------------------------------------------------------

  /** What a call can still cause: its own critical sections, and two steps of the worker for every task
      that it posts. */
  function Weight(call: Call): nat {
    match call
    case Updating(_) => 5
    case Removing(_) => 8
    case Finishing(detach, posts) => 1 + |detach| + 3 * |posts|
  }

  ghost function TotalWeight(calls: map<nat, Call>): nat
    decreases |calls|
  {
    if calls == map[] then 0
    else
      var t :| t in calls;
      assert |(calls - {t}).Keys| < |calls.Keys|;
      Weight(calls[t]) + TotalWeight(calls - {t})
  }

  lemma {:induction false} WeightOfOne(calls: map<nat, Call>, t: nat)
    requires t in calls
    ensures TotalWeight(calls) == Weight(calls[t]) + TotalWeight(calls - {t})
    decreases |calls|
  {
    var u :| u in calls && TotalWeight(calls) == Weight(calls[u]) + TotalWeight(calls - {u});
    if u != t {
      assert |(calls - {u}).Keys| < |calls.Keys|;
      WeightOfOne(calls - {u}, t);
      assert |(calls - {t}).Keys| < |calls.Keys|;
      WeightOfOne(calls - {t}, u);
      assert calls - {t} - {u} == calls - {u} - {t};
    }
  }

  ghost function Work(s: State): nat {
    TotalWeight(s.calls) + 2 * |s.queue| + if s.worker.Busy? then 1 else 0
  }

  /** A step that gets something done. */
  predicate Effective(s: State, a: Act)
    requires Wired(s.repo)
  {
    FinishesWork(a) && Next(s, a) != s
  }

  lemma EffectiveStepDecreases(s: State, a: Act)
    requires Wired(s.repo) && Effective(s, a)
    ensures Work(Next(s, a)) < Work(s)
  {
    if a.Continue? {
      ResumeDecreases(s, a.thread);
    }
  }

  lemma ResumeDecreases(s: State, t: nat)
    requires Wired(s.repo) && t in s.calls
    ensures Work(Resume(s, t)) < Work(s)
  {
    hide Resume, Weight, TotalWeight;
    CallShrinks(s, t);
    var calls := Resume(s, t).calls;
    WeightOfOne(s.calls, t);
    if t in calls {
      WeightOfOne(calls, t);
    } else {
      assert calls - {t} == calls;
    }
  }

  lemma CallShrinks(s: State, t: nat)
    requires Wired(s.repo) && t in s.calls
    ensures var s' := Resume(s, t);
            && s'.calls - {t} == s.calls - {t} && s'.worker == s.worker
            && (if t in s'.calls then Weight(s'.calls[t]) else 0) + 2 * |s'.queue| < Weight(s.calls[t]) + 2 * |s.queue|
  {
    hide Detach, Erase;
    assert Resume(s, t).calls - {t} == s.calls - {t};
  }

  /** Nothing can be done any more exactly when no call is half done and no task is left. */
  lemma QuiescentExactly(s: State)
    requires Wired(s.repo)
    ensures Quiescent(s) <==> forall a :: !Effective(s, a)
  {
    if s.worker.Busy? {
      assert Effective(s, FinishTask);
    } else if s.queue != [] {
      assert Effective(s, TakeTask);
    } else if s.calls != map[] {
      var t :| t in s.calls;
      ResumeDecreases(s, t);
      assert Effective(s, Continue(t));
    }
  }

  predicate AllEffective(s: State, acts: seq<Act>)
    requires Wired(s.repo)
  {
    forall i :: 0 <= i < |acts| ==> Effective(Run(s, acts[..i]), acts[i])
  }

  /** Once clients stop calling, every way of letting calls and tasks go on comes to an end, however the
      steps are chosen: what is left of it bounds the steps, and where none is left there is quiescence. */
  lemma {:induction false} EveryScheduleEnds(s: State, acts: seq<Act>)
    requires Wired(s.repo) && AllEffective(s, acts)
    ensures AllFinishWork(acts) && |acts| + Work(Run(s, acts)) <= Work(s)
    ensures (forall a :: !AllEffective(s, acts + [a])) ==> Quiescent(Run(s, acts))
  {
    hide Work, Effective, Next, Wired;
    if acts != [] {
      var n := |acts| - 1;
      EffectivePrefix(s, acts);
      EveryScheduleEnds(s, acts[..n]);
      EffectiveStepDecreases(Run(s, acts[..n]), acts[n]);
    }
    QuiescentExactly(Run(s, acts));
    forall a | Effective(Run(s, acts), a) ensures AllEffective(s, acts + [a]) {
      OneMore(s, acts, a);
    }
  }

  lemma EffectivePrefix(s: State, acts: seq<Act>)
    requires Wired(s.repo) && AllEffective(s, acts) && acts != []
    ensures var n := |acts| - 1;
            AllEffective(s, acts[..n]) && Effective(Run(s, acts[..n]), acts[n]) && FinishesWork(acts[n])
  {
    hide Next, Run, Wired;
    var n := |acts| - 1;
    assert Effective(Run(s, acts[..n]), acts[n]);
    forall i | 0 <= i < n ensures Effective(Run(s, acts[..n][..i]), acts[..n][i]) {
      assert acts[..n][..i] == acts[..i];
      assert Effective(Run(s, acts[..i]), acts[i]);
    }
  }

  lemma OneMore(s: State, acts: seq<Act>, a: Act)
    requires Wired(s.repo) && AllEffective(s, acts) && Effective(Run(s, acts), a)
    ensures AllEffective(s, acts + [a])
  {
    hide Effective, Run, Wired;
    forall i | 0 <= i < |acts + [a]| ensures Effective(Run(s, (acts + [a])[..i]), (acts + [a])[i]) {
      assert (acts + [a])[..i] == acts[..i];
    }
  }

  /** From any state, letting calls and tasks run out leads to quiescence. */
  lemma {:induction false} RunsOut(s: State) returns (acts: seq<Act>)
    requires Wired(s.repo)
    ensures AllFinishWork(acts) && Quiescent(Run(s, acts))
    decreases Work(s)
  {
    QuiescentExactly(s);
    if Quiescent(s) {
      acts := [];
    } else {
      var a :| Effective(s, a);
      EffectiveStepDecreases(s, a);
      var rest := RunsOut(Next(s, a));
      acts := [a] + rest;
      assert [a][..0] == [] && Run(s, [a]) == Next(s, a);
      RunConcat(s, [a], rest);
    }
  }

  /** So after any quiet run, once clients stop, services and repository come to agree. */
  lemma ComesToAgree(acts: seq<Act>) returns (more: seq<Act>)
    requires QuietRun(acts)
    ensures AllFinishWork(more)
    ensures var s := Run(INIT, acts + more);
            Quiescent(s) && forall k, pid :: k in s.services && Interested(s.services[k], pid) ==> InAgreement(s, k, pid)
  {
    more := RunsOut(Run(INIT, acts));
    RunConcat(INIT, acts, more);
    var s := Run(INIT, acts + more);
    forall i | 0 <= i < |acts + more| ensures CreatesQuietly(Run(INIT, (acts + more)[..i]), (acts + more)[i]) {
      if i < |acts| {
        assert (acts + more)[..i] == acts[..i];
      } else {
        assert FinishesWork(more[i - |acts|]);
      }
    }
    forall k, pid | k in s.services && Interested(s.services[k], pid) ensures InAgreement(s, k, pid) {
      EventualAgreement(acts + more, k, pid);
    }
  }

  // ---- creating a PID again too early --------------------------------------------------------

  /** When AddConfigurations replaces an object that somebody is removing, the announcement it makes hands
      properties to no service, whatever they are and whatever the repository holds when the worker gets
      to it: an interested service is told something exactly if by then the new object is gone as well,
      and then it is told that it is gone. */
  lemma ReplacementIsHeardExactly(r: Repo, m: Metadata, later: Repo, services: map<nat, Tracked>, k: nat)
    requires Wired(r) && MappedRemoved(r, m.pid) && Wired(later)
    requires k in services && Interested(services[k], m.pid)
    ensures var one := AddOne(r, m);
            && one.changed && one.repo.objects[one.repo.configurations[m.pid]].properties == m.properties
            && var job := ReadFor(later, m.pid, one.receipt.changeCount, services.Keys);
            && k in Perform(services, job)
            && Perform(services, job)[k].handed ==
               if GoneAfterUpdate(later, m.pid) then services[k].handed[m.pid := RemovalNotice(services[k].kind)]
               else services[k].handed
  {
    hide Interested;
  }

  /** The PID is not mapped, or leads to an updated object that somebody is removing. */
  predicate GoneAfterUpdate(r: Repo, pid: string)
    requires Wired(r)
  {
    pid in r.configurations ==>
      var c := r.objects[r.configurations[pid]];
      c.removed && c.changeCount > 0
  }

  const GIVEN: Properties := map["b" := "2"]
  const WAITING := map[0 := Tracked(Managed, "p", map["p" := 0], map[])]
  const NEWS := Announce("p", 0)

  function Made(removed: bool, attached: bool): Config {
    Config("p", "", map[], 0, removed, attached, FromClient, 0)
  }

  /** The repository once the object being removed has been replaced. */
  function Replaced(attached: bool): Repo {
    Repo([Made(true, attached), Config("p", "", GIVEN, 1, false, true, FromReplacement(true), 0)], map["p" := 1], map[])
  }

  /** A client has asked for a configuration and is half way through removing it... */
  lemma HalfRemoved()
    ensures var s := State(EMPTY_REPO, WAITING, 1, [], Idle, 0, {}, map[]);
            var s' := s.(repo := Repo([Made(false, true)], map["p" := 0], map[]));
            && Next(INIT, AddManagedService("p")) == s
            && Next(s, GetConfiguration("p")) == s'
            && Next(s', Remove(0, 0)) == s'.(repo := Repo([Made(true, true)], map["p" := 0], map[]), calls := map[0 := Removing(0)])
  {
    assert FirstTilde("p") == 1;
  }

  lemma AddAllOfOne(r: Repo, m: Metadata)
    requires Wired(r)
    ensures var one := AddOne(r, m);
            AddAll(r, [m]) == AddedAll(one.repo, [one.receipt], one.detached,
                                       if one.changed then [Notice(one.receipt.pid, one.receipt.changeCount)] else [])
  {
    hide AddOne;
    assert [m][..0] == [];
  }

  lemma EntryReplaces()
    ensures AddOne(Repo([Made(true, true)], map["p" := 0], map[]), Metadata("p", GIVEN))
         == Added(Replaced(true), Receipt("p", 0, 1), [0], true)
  {
    assert FirstTilde("p") == 1;
    assert "b" in GIVEN;
    assert map["p" := 0]["p" := 1] == map["p" := 1];
  }

  /** ...when a bundle starts that brings a configuration with the same PID. */
  lemma BundleReplaces()
    ensures var r := Repo([Made(true, true)], map["p" := 0], map[]);
            var s := State(r, WAITING, 1, [], Idle, 0, {}, map[0 := Removing(0)]);
            Next(s, AddConfigurations(1, [Metadata("p", GIVEN)]))
              == s.(repo := Replaced(true), calls := map[0 := Removing(0), 1 := Finishing([0], [NEWS])])
  {
    var r := Repo([Made(true, true)], map["p" := 0], map[]);
    var m := Metadata("p", GIVEN);
    var one := AddOne(r, m);
    EntryReplaces();
    AddAllOfOne(r, m);
    hide AddOne, AddAll;
    assert Announcements([Notice("p", 0)]) == [NEWS];
  }

  lemma BundleFinishes()
    ensures var s := State(Replaced(true), WAITING, 1, [], Idle, 0, {}, map[0 := Removing(0), 1 := Finishing([0], [NEWS])]);
            Next(s, Continue(1)) == s.(repo := Replaced(false), calls := map[0 := Removing(0), 1 := Finishing([], [NEWS])])
  {
    assert Detach(Replaced(true), 0).objects == Replaced(false).objects;
    assert map[0 := Removing(0), 1 := Finishing([0], [NEWS])][1 := Finishing([], [NEWS])]
        == map[0 := Removing(0), 1 := Finishing([], [NEWS])];
    assert [0][1..] == [];
  }

  lemma BundleAnnounces()
    ensures var s := State(Replaced(false), WAITING, 1, [], Idle, 0, {}, map[0 := Removing(0), 1 := Finishing([], [NEWS])]);
            Next(s, Continue(1)) == s.(queue := [Posted(1, NEWS)], futuresID := 1, incomplete := {1},
                                       calls := map[0 := Removing(0), 1 := Finishing([], [])])
  {
    assert map[0 := Removing(0), 1 := Finishing([], [NEWS])][1 := Finishing([], [])]
        == map[0 := Removing(0), 1 := Finishing([], [])];
    assert [NEWS][1..] == [];
  }

  lemma CallsReturn()
    ensures var s := State(Replaced(false), WAITING, 1, [Posted(1, NEWS)], Idle, 1, {1}, map[0 := Removing(0), 1 := Finishing([], [])]);
            && Next(s, Continue(1)) == s.(calls := map[0 := Removing(0)])
            && Next(s.(calls := map[0 := Removing(0)]), Continue(0)) == s.(calls := map[])
  {
    assert map[0 := Removing(0), 1 := Finishing([], [])] - {1} == map[0 := Removing(0)];
    assert map[0 := Removing(0)] - {0} == map[];
  }

  lemma NobodyHears()
    ensures var s := State(Replaced(false), WAITING, 1, [Posted(1, NEWS)], Idle, 1, {1}, map[]);
            var s1 := s.(queue := [], worker := Busy(1, Notify("p", 0, false, Snapshot(GIVEN, 1), {0})));
            && Next(s, TakeTask) == s1
            && Next(s1, FinishTask) == s.(queue := [], incomplete := {})
  {
    assert WAITING.Keys == {0};
    var w := WAITING[0];
    assert NotifyOne(w, "p", 0, false, Snapshot(GIVEN, 1)) == w;
    assert Perform(WAITING, Notify("p", 0, false, Snapshot(GIVEN, 1), {0})) == WAITING;
  }

  function ExampleAct(i: nat): Act {
    if i == 0 then AddManagedService("p")
    else if i == 1 then GetConfiguration("p")
    else if i == 2 then Remove(0, 0)
    else if i == 3 then AddConfigurations(1, [Metadata("p", GIVEN)])
    else if i < 7 then Continue(1)
    else if i == 7 then Continue(0)
    else if i == 8 then TakeTask
    else FinishTask
  }

  function ExampleState(i: nat): State {
    var tracked := State(EMPTY_REPO, WAITING, 1, [], Idle, 0, {}, map[]);
    var posted := State(Replaced(false), WAITING, 1, [Posted(1, NEWS)], Idle, 1, {1}, map[]);
    if i == 0 then INIT
    else if i == 1 then tracked
    else if i == 2 then tracked.(repo := Repo([Made(false, true)], map["p" := 0], map[]))
    else if i == 3 then tracked.(repo := Repo([Made(true, true)], map["p" := 0], map[]), calls := map[0 := Removing(0)])
    else if i == 4 then tracked.(repo := Replaced(true), calls := map[0 := Removing(0), 1 := Finishing([0], [NEWS])])
    else if i == 5 then tracked.(repo := Replaced(false), calls := map[0 := Removing(0), 1 := Finishing([], [NEWS])])
    else if i == 6 then posted.(calls := map[0 := Removing(0), 1 := Finishing([], [])])
    else if i == 7 then posted.(calls := map[0 := Removing(0)])
    else if i == 8 then posted
    else if i == 9 then posted.(queue := [], worker := Busy(1, Notify("p", 0, false, Snapshot(GIVEN, 1), {0})))
    else posted.(queue := [], incomplete := {})
  }

  lemma ExampleStep(i: nat)
    requires i < 10
    ensures Wired(ExampleState(i).repo) && Next(ExampleState(i), ExampleAct(i)) == ExampleState(i + 1)
  {
    if i < 3 { HalfRemoved(); }
    else if i == 3 { BundleReplaces(); }
    else if i == 4 { BundleFinishes(); }
    else if i == 5 { BundleAnnounces(); }
    else if i < 8 { CallsReturn(); }
    else { NobodyHears(); }
  }

  function ExampleRun(n: nat): (acts: seq<Act>)
    ensures |acts| == n
  {
    if n == 0 then [] else ExampleRun(n - 1) + [ExampleAct(n - 1)]
  }

  lemma {:induction false} ExampleReaches(n: nat)
    requires n <= 10
    ensures Run(INIT, ExampleRun(n)) == ExampleState(n)
  {
    if n > 0 {
      ExampleReaches(n - 1);
      ExampleStep(n - 1);
      assert ExampleRun(n)[..n - 1] == ExampleRun(n - 1);
    }
  }

  lemma ExampleEnds()
    ensures var s := ExampleState(10);
            && Quiescent(s) && Wired(s.repo)
            && 0 in s.services && Interested(s.services[0], "p") && s.services[0].handed == map[]
            && "p" in s.repo.configurations && Object(s, "p").properties == GIVEN && Object(s, "p").changeCount > 0
            && !InAgreement(s, 0, "p")
  {
  }

  /** A run that replaces an object which is being removed: at the end the repository holds the
      bundle's properties, and the service that waits for them has been handed nothing. */
  lemma ReplacementBreaksAgreement() returns (acts: seq<Act>)
    ensures !QuietRun(acts) && Quiescent(Run(INIT, acts))
    ensures var s := Run(INIT, acts);
            && 0 in s.services && Interested(s.services[0], "p") && s.services[0].handed == map[]
            && "p" in s.repo.configurations && Object(s, "p").properties == GIVEN && Object(s, "p").changeCount > 0
            && !InAgreement(s, 0, "p")
  {
    acts := ExampleRun(10);
    ExampleReaches(10);
    ExampleEnds();
    if QuietRun(acts) {
      EventualAgreement(acts, 0, "p");
    }
  }
}
