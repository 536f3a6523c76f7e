/** The mutexes of the engine are always taken in one order, so threads never wait for each other in
    a circle. */
module LockOrder {

  datatype Lock =
    | BundleRegistry
    | ConfigAdmin(id: nat)
    | Configurations
    | Properties(id: nat)
    | Futures
    | Wrapper(service: nat)

  datatype Op = Acquire(lock: Lock) | Release(lock: Lock)

  function Rank(l: Lock): nat {
    match l
    case BundleRegistry => 0
    case ConfigAdmin(_) => 1
    case Configurations => 2
    case Properties(_) => 3
    case Futures => 3
    case Wrapper(_) => 3
  }

  // ---- what each procedure locks -------------------------------------------------------------

  /** Each lock is taken and given back before the next. */
  function Visits(locks: seq<Lock>): seq<Op> {
    if locks == [] then [] else [Acquire(locks[0]), Release(locks[0])] + Visits(locks[1..])
  }

  function Inside(l: Lock, ops: seq<Op>): seq<Op> {
    [Acquire(l)] + ops + [Release(l)]
  }

  function ManyFutures(n: nat): seq<Lock> {
    seq(n, i => Futures)
  }

  function EachProperties(ids: seq<nat>): seq<Lock> {
    seq(|ids|, i requires 0 <= i < |ids| => Properties(ids[i]))
  }

  function EachConfigAdmin(ids: seq<nat>): seq<Lock> {
    seq(|ids|, i requires 0 <= i < |ids| => ConfigAdmin(ids[i]))
  }

  function EachWrapper(services: seq<nat>): seq<Lock> {
    seq(|services|, i requires 0 <= i < |services| => Wrapper(services[i]))
  }

  /** The procedures that lock.  `read` lists the objects whose properties are visited in order,
      `detached` those invalidated afterwards, `posts` the number of tasks posted. */
  datatype Procedure =
    | ReadObject(id: nat)
    | UpdateObject(id: nat, posts: nat)
    | RemoveObject(id: nat, read: seq<nat>, posts: nat)
    | Lookup(read: seq<nat>)
    | ChangeConfigurations(read: seq<nat>, detached: seq<nat>, posts: nat)
    | StartBundle(read: seq<nat>, detached: seq<nat>, posts: nat)
    | StopBundle(read: seq<nat>, detached: seq<nat>, posts: nat)
    | TrackService(read: seq<nat>, posts: nat)
    | NotificationTask(read: seq<nat>, wrappers: seq<nat>)
    | OtherTask

  function Change(read: seq<nat>, detached: seq<nat>, posts: nat): seq<Op> {
    Inside(Configurations, Visits(EachProperties(read))) + Visits(EachConfigAdmin(detached) + ManyFutures(posts))
  }

  function Body(p: Procedure): seq<Op> {
    match p
    case ReadObject(id) => Visits([Properties(id)])
    case UpdateObject(id, posts) =>
      Visits([Properties(id)]) + Inside(ConfigAdmin(id), Visits(ManyFutures(posts)))
    case RemoveObject(id, read, posts) =>
      Visits([Properties(id)])
      + Inside(ConfigAdmin(id), Inside(Configurations, Visits(EachProperties(read))) + Visits(ManyFutures(posts)))
    case Lookup(read) => Inside(Configurations, Visits(EachProperties(read)))
    case ChangeConfigurations(read, detached, posts) => Change(read, detached, posts)
    case StartBundle(read, detached, posts) =>
      Visits([BundleRegistry]) + Change(read, detached, posts) + Visits([BundleRegistry])
    case StopBundle(read, detached, posts) => Inside(BundleRegistry, Change(read, detached, posts))
    case TrackService(read, posts) =>
      Inside(Configurations, Visits(EachProperties(read) + ManyFutures(posts)))
    case NotificationTask(read, wrappers) =>
      Inside(Configurations, Visits(EachProperties(read))) + Visits(EachWrapper(wrappers) + [Futures])
    case OtherTask => Visits([Futures])
  }

  // ---- the discipline ------------------------------------------------------------------------

  /** Every lock taken ranks above all locks held, and nothing is held at the end. */
  predicate Disciplined(ops: seq<Op>, held: set<Lock>) {
    if ops == [] then held == {}
    else match ops[0]
      case Acquire(l) => (forall h :: h in held ==> Rank(h) < Rank(l)) && Disciplined(ops[1..], held + {l})
      case Release(l) => l in held && Disciplined(ops[1..], held - {l})
  }

  predicate Above(locks: seq<Lock>, held: set<Lock>) {
    forall l, h :: l in locks && h in held ==> Rank(h) < Rank(l)
  }

  lemma VisitDisciplined(l: Lock, rest: seq<Op>, held: set<Lock>)
    requires (forall h :: h in held ==> Rank(h) < Rank(l)) && Disciplined(rest, held)
    ensures Disciplined([Acquire(l), Release(l)] + rest, held)
  {
    var ops := [Acquire(l), Release(l)] + rest;
    assert ops[1..] == [Release(l)] + rest && ops[1..][1..] == rest;
    assert held + {l} - {l} == held;
  }

  lemma {:induction false} VisitsDisciplined(locks: seq<Lock>, rest: seq<Op>, held: set<Lock>)
    requires Above(locks, held) && Disciplined(rest, held)
    ensures Disciplined(Visits(locks) + rest, held)
  {
    if locks == [] {
      assert Visits(locks) + rest == rest;
    } else {
      var l := locks[0];
      assert l in locks;
      VisitsDisciplined(locks[1..], rest, held);
      VisitDisciplined(l, Visits(locks[1..]) + rest, held);
      hide Disciplined;
      assert Visits(locks) + rest == [Acquire(l), Release(l)] + (Visits(locks[1..]) + rest);
    }
  }

  lemma InsideDisciplined(l: Lock, ops: seq<Op>, rest: seq<Op>, held: set<Lock>)
    requires Above([l], held) && Disciplined(ops + ([Release(l)] + rest), held + {l})
    ensures Disciplined(Inside(l, ops) + rest, held)
  {
    assert (Inside(l, ops) + rest)[1..] == ops + ([Release(l)] + rest);
    assert l in [l];
  }

  lemma ReleaseDisciplined(l: Lock, rest: seq<Op>, held: set<Lock>)
    requires l !in held && Disciplined(rest, held)
    ensures Disciplined([Release(l)] + rest, held + {l})
  {
    assert held + {l} - {l} == held;
    assert ([Release(l)] + rest)[1..] == rest;
  }

  /** The configurations section, followed by anything in order. */
  lemma SectionDisciplined(locks: seq<Lock>, rest: seq<Op>, held: set<Lock>)
    requires Above([Configurations], held) && Above(locks, held + {Configurations}) && Configurations !in held
    requires Disciplined(rest, held)
    ensures Disciplined(Inside(Configurations, Visits(locks)) + rest, held)
  {
    ReleaseDisciplined(Configurations, rest, held);
    VisitsDisciplined(locks, [Release(Configurations)] + rest, held + {Configurations});
    InsideDisciplined(Configurations, Visits(locks), rest, held);
  }

  lemma ChangeDisciplined(read: seq<nat>, detached: seq<nat>, posts: nat, rest: seq<Op>, held: set<Lock>)
    requires held <= {BundleRegistry} && Disciplined(rest, held)
    ensures Disciplined(Change(read, detached, posts) + rest, held)
  {
    var after := Visits(EachConfigAdmin(detached) + ManyFutures(posts));
    VisitsDisciplined(EachConfigAdmin(detached) + ManyFutures(posts), rest, held);
    SectionDisciplined(EachProperties(read), after + rest, held);
    assert Change(read, detached, posts) + rest == Inside(Configurations, Visits(EachProperties(read))) + (after + rest);
  }

  /** A lock around a procedure part that starts with nothing held. */
  lemma AloneDisciplined(l: Lock, ops: seq<Op>)
    requires Disciplined(ops + [Release(l)], {l})
    ensures Disciplined(Inside(l, ops), {})
  {
    var none: set<Lock> := {};
    assert none + {l} == {l};
    assert ops + ([Release(l)] + []) == ops + [Release(l)];
    InsideDisciplined(l, ops, [], none);
    assert Inside(l, ops) + [] == Inside(l, ops);
  }

  lemma LastRelease(l: Lock)
    ensures Disciplined([Release(l)], {l})
  {
    assert [Release(l)][1..] == [];
    assert {l} - {l} == {};
  }

  lemma UpdateDisciplined(id: nat, posts: nat)
    ensures Disciplined(Body(UpdateObject(id, posts)), {})
  {
    var l := ConfigAdmin(id);
    LastRelease(l);
    VisitsDisciplined(ManyFutures(posts), [Release(l)], {l});
    AloneDisciplined(l, Visits(ManyFutures(posts)));
    VisitsDisciplined([Properties(id)], Inside(l, Visits(ManyFutures(posts))), {});
  }

  lemma RemoveDisciplined(id: nat, read: seq<nat>, posts: nat)
    ensures Disciplined(Body(RemoveObject(id, read, posts)), {})
  {
    var l := ConfigAdmin(id);
    var section, after := Inside(Configurations, Visits(EachProperties(read))), Visits(ManyFutures(posts));
    LastRelease(l);
    VisitsDisciplined(ManyFutures(posts), [Release(l)], {l});
    SectionDisciplined(EachProperties(read), after + [Release(l)], {l});
    assert section + after + [Release(l)] == section + (after + [Release(l)]);
    AloneDisciplined(l, section + after);
    VisitsDisciplined([Properties(id)], Inside(l, section + after), {});
  }

  lemma StartDisciplined(read: seq<nat>, detached: seq<nat>, posts: nat)
    ensures Disciplined(Body(StartBundle(read, detached, posts)), {})
  {
    var change, look := Change(read, detached, posts), Visits([BundleRegistry]);
    VisitsDisciplined([BundleRegistry], [], {});
    assert look + [] == look;
    ChangeDisciplined(read, detached, posts, look, {});
    VisitsDisciplined([BundleRegistry], change + look, {});
    assert look + change + look == look + (change + look);
  }

  lemma StopDisciplined(read: seq<nat>, detached: seq<nat>, posts: nat)
    ensures Disciplined(Body(StopBundle(read, detached, posts)), {})
  {
    LastRelease(BundleRegistry);
    ChangeDisciplined(read, detached, posts, [Release(BundleRegistry)], {BundleRegistry});
    AloneDisciplined(BundleRegistry, Change(read, detached, posts));
  }

  /** Every procedure of the engine keeps the discipline. */
  lemma NothingLeft()
    ensures Disciplined([], {})
  {
  }

  lemma BodiesDisciplined(p: Procedure)
    ensures Disciplined(Body(p), {})
  {
    hide Disciplined, Visits, Inside;
    var none: seq<Op> := [];
    NothingLeft();
    match p {
      case ReadObject(id) =>
        VisitsDisciplined([Properties(id)], none, {});
        assert Body(p) + none == Body(p);
      case UpdateObject(id, posts) => UpdateDisciplined(id, posts);
      case RemoveObject(id, read, posts) => RemoveDisciplined(id, read, posts);
      case Lookup(read) =>
        SectionDisciplined(EachProperties(read), none, {});
        assert Body(p) + none == Body(p);
      case ChangeConfigurations(read, detached, posts) =>
        ChangeDisciplined(read, detached, posts, none, {});
        assert Body(p) + none == Body(p);
      case StartBundle(read, detached, posts) => StartDisciplined(read, detached, posts);
      case StopBundle(read, detached, posts) => StopDisciplined(read, detached, posts);
      case TrackService(read, posts) =>
        SectionDisciplined(EachProperties(read) + ManyFutures(posts), none, {});
        assert Body(p) + none == Body(p);
      case NotificationTask(read, wrappers) =>
        var after := Visits(EachWrapper(wrappers) + [Futures]);
        VisitsDisciplined(EachWrapper(wrappers) + [Futures], none, {});
        assert after + none == after;
        SectionDisciplined(EachProperties(read), after, {});
      case OtherTask =>
        VisitsDisciplined([Futures], none, {});
        assert Body(p) + none == Body(p);
    }
  }

  // ---- threads -------------------------------------------------------------------------------

  datatype Thread = Thread(todo: seq<Op>, held: set<Lock>)

  type Threads = map<nat, Thread>

  predicate Free(threads: Threads, l: Lock) {
    forall t :: t in threads ==> l !in threads[t].held
  }

  /** The thread has something to do and is not blocked. */
  predicate CanAdvance(threads: Threads, t: nat) {
    && t in threads && threads[t].todo != []
    && (threads[t].todo[0].Acquire? ==> Free(threads, threads[t].todo[0].lock))
  }

  datatype Step = Call(thread: nat, procedure: Procedure) | Advance(thread: nat)

  /** A thread that has nothing to do starts on a sequence of operations. */
  function Begin(threads: Threads, t: nat, ops: seq<Op>): Threads {
    if t in threads && threads[t].todo != [] then threads else threads[t := Thread(ops, {})]
  }

  /** Its next operation, unless it is blocked. */
  function GoOn(threads: Threads, t: nat): Threads {
    if !CanAdvance(threads, t) then threads
    else
      var th := threads[t];
      match th.todo[0]
      case Acquire(l) => threads[t := Thread(th.todo[1..], th.held + {l})]
      case Release(l) => threads[t := Thread(th.todo[1..], th.held - {l})]
  }

  function Do(threads: Threads, step: Step): Threads {
    match step
    case Call(t, p) => Begin(threads, t, Body(p))
    case Advance(t) => GoOn(threads, t)
  }

  function DoAll(steps: seq<Step>): Threads {
    if steps == [] then map[] else Do(DoAll(steps[..|steps| - 1]), steps[|steps| - 1])
  }

  predicate AllDisciplined(threads: Threads) {
    forall t :: t in threads ==> Disciplined(threads[t].todo, threads[t].held)
  }

  /** No lock is held by two threads. */
  predicate Exclusive(threads: Threads) {
    forall t, u, l :: t in threads && u in threads && l in threads[t].held && l in threads[u].held ==> t == u
  }

  lemma {:induction false} ReachableDisciplined(steps: seq<Step>)
    ensures AllDisciplined(DoAll(steps)) && Exclusive(DoAll(steps))
  {
    if steps != [] {
      var n := |steps| - 1;
      ReachableDisciplined(steps[..n]);
      if steps[n].Call? { BodiesDisciplined(steps[n].procedure); }
    }
  }

  predicate WaitsFor(threads: Threads, t: nat, u: nat) {
    && t in threads && u in threads
    && threads[t].todo != [] && threads[t].todo[0].Acquire? && threads[t].todo[0].lock in threads[u].held
  }

  /** Every thread of the group waits for a lock that one of the group holds. */
  ghost predicate CircularWait(threads: Threads, group: set<nat>) {
    group != {} && forall t :: t in group ==> exists u :: u in group && WaitsFor(threads, t, u)
  }

  function Wanted(threads: Threads, t: nat): nat {
    if t in threads && threads[t].todo != [] && threads[t].todo[0].Acquire? then Rank(threads[t].todo[0].lock) else 0
  }

  lemma {:induction false} Topmost(threads: Threads, group: set<nat>) returns (t: nat)
    requires group != {}
    ensures t in group && forall u :: u in group ==> Wanted(threads, u) <= Wanted(threads, t)
    decreases group
  {
    t :| t in group;
    if group != {t} {
      var u := Topmost(threads, group - {t});
      if Wanted(threads, t) <= Wanted(threads, u) { t := u; }
    }
  }

  /** What the discipline says about each thread's next operation. */
  predicate HeadsAbove(threads: Threads) {
    forall t :: t in threads ==> HeadAbove(threads[t])
  }

  predicate HeadAbove(th: Thread) {
    && (th.todo == [] ==> th.held == {})
    && (th.todo != [] && th.todo[0].Acquire? ==> forall h :: h in th.held ==> Rank(h) < Rank(th.todo[0].lock))
  }

  lemma DisciplineGivesHeads(threads: Threads)
    requires AllDisciplined(threads)
    ensures HeadsAbove(threads)
  {
    forall t | t in threads ensures HeadAbove(threads[t]) {
      assert Disciplined(threads[t].todo, threads[t].held);
    }
  }

  lemma HolderWantsMore(threads: Threads, t: nat, u: nat, v: nat)
    requires HeadsAbove(threads) && WaitsFor(threads, t, u) && WaitsFor(threads, u, v)
    ensures Wanted(threads, t) < Wanted(threads, u)
  {
    assert HeadAbove(threads[u]);
  }

  ghost function Blocker(threads: Threads, group: set<nat>, t: nat): (u: nat)
    requires CircularWait(threads, group) && t in group
    ensures u in group && WaitsFor(threads, t, u)
  {
    var u :| u in group && WaitsFor(threads, t, u);
    u
  }

  /** In a circle everybody waits for somebody who wants something higher. */
  lemma CirclesClimb(threads: Threads, group: set<nat>, t: nat)
    requires HeadsAbove(threads) && CircularWait(threads, group) && t in group
    ensures exists u :: u in group && Wanted(threads, t) < Wanted(threads, u)
  {
    var u := Blocker(threads, group, t);
    var v := Blocker(threads, group, u);
    HolderWantsMore(threads, t, u, v);
  }

  lemma DisciplineExcludesCircles(threads: Threads, group: set<nat>)
    requires AllDisciplined(threads)
    ensures !CircularWait(threads, group)
  {
    DisciplineGivesHeads(threads);
    if CircularWait(threads, group) {
      var t := Topmost(threads, group);
      CirclesClimb(threads, group, t);
    }
  }

  /** Whatever procedures threads call and however their steps interleave, no group of threads waits
      in a circle. */
  lemma NoDeadlock(steps: seq<Step>, group: set<nat>)
    ensures !CircularWait(DoAll(steps), group)
  {
    ReachableDisciplined(steps);
    DisciplineExcludesCircles(DoAll(steps), group);
  }

  /** A blocked thread waits for a thread that still has something to do. */
  lemma BlockedWaits(threads: Threads, t: nat)
    requires HeadsAbove(threads) && t in threads && threads[t].todo != [] && !CanAdvance(threads, t)
    ensures exists u :: u in threads && threads[u].todo != [] && WaitsFor(threads, t, u)
  {
    var u :| u in threads && threads[t].todo[0].lock in threads[u].held;
    assert HeadAbove(threads[u]);
    assert WaitsFor(threads, t, u);
  }

  /** And as long as some thread has something to do, some thread can go on. */
  lemma SomebodyCanGoOn(steps: seq<Step>, busy: nat)
    requires busy in DoAll(steps) && DoAll(steps)[busy].todo != []
    ensures exists t :: CanAdvance(DoAll(steps), t)
  {
    ReachableDisciplined(steps);
    DisciplineGivesHeads(DoAll(steps));
    SomebodyAdvances(DoAll(steps), busy);
  }

  lemma SomebodyAdvances(threads: Threads, busy: nat)
    requires AllDisciplined(threads) && HeadsAbove(threads) && busy in threads && threads[busy].todo != []
    ensures exists t :: CanAdvance(threads, t)
  {
    hide AllDisciplined, HeadsAbove, WaitsFor, CanAdvance;
    var group := set t | t in threads && threads[t].todo != [];
    assert busy in group;
    DisciplineExcludesCircles(threads, group);
    var t :| t in group && !(exists u :: u in group && WaitsFor(threads, t, u));
    if !CanAdvance(threads, t) {
      BlockedWaits(threads, t);
    }
  }

  // ---- why objects are invalidated only after the repository is unlocked ----------------------

  /** AddConfigurations as it would be if it invalidated an object inside its section. */
  function EagerBody(id: nat): seq<Op> {
    Inside(Configurations, Visits([ConfigAdmin(id)]))
  }

  lemma EagerBodyStarts(id: nat)
    ensures EagerBody(id) == [Acquire(Configurations), Acquire(ConfigAdmin(id)), Release(ConfigAdmin(id)), Release(Configurations)]
    ensures !Disciplined(EagerBody(id), {})
  {
    assert Visits([ConfigAdmin(id)]) == [Acquire(ConfigAdmin(id)), Release(ConfigAdmin(id))];
    var eager, none: set<Lock> := EagerBody(id), {};
    assert eager[1] == Acquire(ConfigAdmin(id));
    assert Configurations in none + {Configurations};
    assert !Disciplined(eager[1..], none + {Configurations});
  }

  lemma RemoveBodyStarts(id: nat, read: seq<nat>, posts: nat)
    ensures var remove := Body(RemoveObject(id, read, posts));
            && |remove| > 3
            && remove[..4] == [Acquire(Properties(id)), Release(Properties(id)), Acquire(ConfigAdmin(id)), Acquire(Configurations)]
  {
    assert Visits([Properties(id)]) == [Acquire(Properties(id)), Release(Properties(id))];
  }

  /** Next to a Remove of that object it can end up in a circle: each thread goes on up to the lock that
      the other holds. */
  lemma EagerInvalidationDeadlocks(id: nat, read: seq<nat>, posts: nat)
    ensures var begun := Begin(Begin(map[], 0, Body(RemoveObject(id, read, posts))), 1, EagerBody(id));
            CircularWait(GoOn(GoOn(GoOn(GoOn(begun, 0), 0), 0), 1), {0, 1})
  {
    var remove, eager := Body(RemoveObject(id, read, posts)), EagerBody(id);
    RemoveBodyStarts(id, read, posts);
    EagerBodyStarts(id);
    assert forall i :: 0 <= i < 4 ==> remove[i] == remove[..4][i];
    hide Body, EagerBody;
    var begun := Begin(Begin(map[], 0, remove), 1, eager);
    FirstThread(remove, eager, id);
    var threads := GoOn(GoOn(GoOn(begun, 0), 0), 0);
    var end := GoOn(threads, 1);
    assert CanAdvance(threads, 1);
    assert end[0] == Thread(remove[3..], {ConfigAdmin(id)}) && end[1] == Thread(eager[1..], {Configurations});
    assert WaitsFor(end, 0, 1) && WaitsFor(end, 1, 0);
  }

  lemma FirstThread(remove: seq<Op>, eager: seq<Op>, id: nat)
    requires |remove| > 3 && eager != []
    requires remove[0] == Acquire(Properties(id)) && remove[1] == Release(Properties(id)) && remove[2] == Acquire(ConfigAdmin(id))
    ensures var begun := Begin(Begin(map[], 0, remove), 1, eager);
            GoOn(GoOn(GoOn(begun, 0), 0), 0) == map[0 := Thread(remove[3..], {ConfigAdmin(id)}), 1 := Thread(eager, {})]
  {
    var none: set<Lock> := {};
    assert none + {Properties(id)} == {Properties(id)} && {Properties(id)} - {Properties(id)} == none;
    assert none + {ConfigAdmin(id)} == {ConfigAdmin(id)};
    var begun := map[0 := Thread(remove, {}), 1 := Thread(eager, {})];
    assert begun == Begin(Begin(map[], 0, remove), 1, eager);
    var s1 := map[0 := Thread(remove[1..], {Properties(id)}), 1 := Thread(eager, {})];
    assert CanAdvance(begun, 0) && GoOn(begun, 0) == s1;
    var s2 := map[0 := Thread(remove[2..], {}), 1 := Thread(eager, {})];
    assert remove[1..][0] == remove[1] && remove[1..][1..] == remove[2..];
    assert CanAdvance(s1, 0) && GoOn(s1, 0) == s2;
    assert remove[2..][0] == remove[2] && remove[2..][1..] == remove[3..];
    assert CanAdvance(s2, 0) && GoOn(s2, 0) == map[0 := Thread(remove[3..], {ConfigAdmin(id)}), 1 := Thread(eager, {})];
  }
}
