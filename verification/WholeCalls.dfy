/** Calls that nobody interrupts: the engine's steps of one call, run to its end, and what they leave. */
module WholeCalls {
  import opened Repository
  import opened Engine

  function Continues(t: nat, n: nat): seq<Act> {
    seq(n, i => Continue(t))
  }

  /** The call that the act starts, gone on with until it is over, leaves this state. */
  ghost predicate Completes(s: State, a: Act, t: nat, s': State)
    requires Wired(s.repo)
  {
    t !in s'.calls && exists n: nat :: Run(s, [a] + Continues(t, n)) == s'
  }

  /** Detaches the objects at these addresses, in order. */
  function DetachAll(r: Repo, ids: seq<nat>): (r': Repo)
    requires Wired(r)
    ensures Wired(r')
  {
    if ids == [] then r else Detach(DetachAll(r, ids[..|ids| - 1]), ids[|ids| - 1])
  }

  lemma {:induction false} DetachedExactly(r: Repo, ids: seq<nat>)
    requires Wired(r)
    ensures var r' := DetachAll(r, ids);
            && r' == r.(objects := r'.objects) && |r'.objects| == |r.objects|
            && forall i :: 0 <= i < |r.objects| ==> r'.objects[i] == if i in ids then r.objects[i].(attached := false) else r.objects[i]
  {
    if ids != [] {
      var n := |ids| - 1;
      DetachedExactly(r, ids[..n]);
      assert ids == ids[..n] + [ids[n]];
    }
  }

  function PostAll(s: State, tasks: seq<Task>): State {
    if tasks == [] then s else Post(PostAll(s, tasks[..|tasks| - 1]), tasks[|tasks| - 1])
  }

  /** Posting some tasks: they join the queue in order, with the next numbers, and all are incomplete. */
  lemma {:induction false} PostedInOrder(s: State, tasks: seq<Task>)
    ensures var s' := PostAll(s, tasks);
            && s' == s.(queue := s'.queue, futuresID := s.futuresID + |tasks|, incomplete := s'.incomplete)
            && s'.queue == s.queue + seq(|tasks|, i requires 0 <= i < |tasks| => Posted(s.futuresID + 1 + i, tasks[i]))
            && forall i :: i in s'.incomplete <==> i in s.incomplete || s.futuresID < i <= s.futuresID + |tasks|
  {
    if tasks != [] {
      PostedInOrder(s, tasks[..|tasks| - 1]);
    }
  }

  // ---- one call alone ------------------------------------------------------------------------

  lemma RunFirst(s: State, a: Act, rest: seq<Act>)
    requires Wired(s.repo)
    ensures Run(s, [a] + rest) == Run(Next(s, a), rest)
  {
    assert [a][..0] == [];
    assert Run(s, [a]) == Next(s, a);
    RunConcat(s, [a], rest);
  }

  lemma ContinueFirst(s: State, t: nat, n: nat)
    requires Wired(s.repo) && n > 0
    ensures Run(s, Continues(t, n)) == Run(Next(s, Continue(t)), Continues(t, n - 1))
  {
    assert Continues(t, n) == [Continue(t)] + Continues(t, n - 1);
    RunFirst(s, Continue(t), Continues(t, n - 1));
  }

  lemma {:induction false} DetachFirst(r: Repo, ids: seq<nat>)
    requires Wired(r) && ids != []
    ensures Wired(Detach(r, ids[0])) && DetachAll(r, ids) == DetachAll(Detach(r, ids[0]), ids[1..])
  {
    var n := |ids| - 1;
    if n == 0 {
      assert ids[..0] == [] && ids[1..] == [];
    } else {
      DetachFirst(r, ids[..n]);
      assert ids[..n][1..] == ids[1..][..n - 1];
    }
  }

  lemma {:induction false} PostFirst(s: State, tasks: seq<Task>)
    requires tasks != []
    ensures PostAll(s, tasks) == PostAll(Post(s, tasks[0]), tasks[1..])
  {
    var n := |tasks| - 1;
    if n == 0 {
      assert tasks[..0] == [] && tasks[1..] == [];
    } else {
      PostFirst(s, tasks[..n]);
      assert tasks[..n][1..] == tasks[1..][..n - 1];
    }
  }

  /** The steps that are left of a call: the invalidations, then the posts. */
  lemma {:induction false} FinishAlone(s: State, t: nat, detach: seq<nat>, posts: seq<Task>) returns (n: nat)
    requires Wired(s.repo) && t in s.calls && s.calls[t] == Finishing(detach, posts)
    ensures Run(s, Continues(t, n)) == PostAll(s.(repo := DetachAll(s.repo, detach), calls := s.calls - {t}), posts)
    decreases |detach| + |posts|
  {
    hide DetachAll, PostAll, Run, Detach, Post;
    var s1 := Next(s, Continue(t));
    if detach != [] {
      n := FinishAlone(s1, t, detach[1..], posts);
      DetachFirst(s.repo, detach);
      assert s1.calls - {t} == s.calls - {t};
    } else if posts != [] {
      n := FinishAlone(s1, t, [], posts[1..]);
      PostFirst(s.(repo := DetachAll(s.repo, detach), calls := s.calls - {t}), posts);
      NothingToDo(s1);
      NothingToDo(s);
      PostsApart(s, t, posts);
    } else {
      n := 0;
      NothingToDo(s1);
      NothingToDo(s.(calls := s.calls - {t}));
    }
    n := n + 1;
    ContinueFirst(s, t, n);
  }

  lemma NothingToDo(s: State)
    requires Wired(s.repo)
    ensures forall t :: Run(s, Continues(t, 0)) == s
    ensures DetachAll(s.repo, []) == s.repo && PostAll(s, []) == s
  {
  }

  lemma PostsApart(s: State, t: nat, posts: seq<Task>)
    requires posts != []
    ensures var s1 := Post(s, posts[0]).(calls := s.calls[t := Finishing([], posts[1..])]);
            s1.(calls := s1.calls - {t}) == Post(s.(calls := s.calls - {t}), posts[0])
  {
    assert s.calls[t := Finishing([], posts[1..])] - {t} == s.calls - {t};
  }

  lemma CallEnds(s: State, a: Act, t: nat, n: nat)
    requires Wired(s.repo) && t !in Run(Next(s, a), Continues(t, n)).calls
    ensures Completes(s, a, t, Run(Next(s, a), Continues(t, n)))
  {
    RunFirst(s, a, Continues(t, n));
  }

  /** AddConfigurations: the section, then the objects that were replaced are cut off, then one announcement
      for every notice, in order. */
  lemma AdditionAlone(s: State, t: nat, metadata: seq<Metadata>)
    requires Wired(s.repo) && t !in s.calls
    ensures var all := AddAll(s.repo, metadata);
            Completes(s, AddConfigurations(t, metadata), t,
                      PostAll(s.(repo := DetachAll(all.repo, all.detached)), Announcements(all.notices)))
  {
    var all := AddAll(s.repo, metadata);
    BatchAlone(s, AddConfigurations(t, metadata), t, all.repo, all.detached, Announcements(all.notices));
  }

  lemma RemovalAlone(s: State, t: nat, receipts: seq<Receipt>)
    requires Wired(s.repo) && t !in s.calls
    ensures var all := RemoveAll(s.repo, receipts);
            Completes(s, RemoveConfigurations(t, receipts), t,
                      PostAll(s.(repo := DetachAll(all.repo, all.detached)), Announcements(all.notices)))
  {
    var all := RemoveAll(s.repo, receipts);
    BatchAlone(s, RemoveConfigurations(t, receipts), t, all.repo, all.detached, Announcements(all.notices));
  }

  lemma BatchAlone(s: State, a: Act, t: nat, r: Repo, detach: seq<nat>, posts: seq<Task>)
    requires Wired(s.repo) && Wired(r) && t !in s.calls
    requires Next(s, a) == s.(repo := r, calls := s.calls[t := Finishing(detach, posts)])
    ensures Completes(s, a, t, PostAll(s.(repo := DetachAll(r, detach)), posts))
  {
    hide Next, DetachAll, Run;
    var s1 := Next(s, a);
    var n := FinishAlone(s1, t, detach, posts);
    assert s1.calls - {t} == s.calls;
    assert s1.(repo := DetachAll(r, detach), calls := s1.calls - {t}) == s.(repo := DetachAll(r, detach));
    PostedInOrder(s.(repo := DetachAll(r, detach)), posts);
    CallEnds(s, a, t, n);
  }

  /** Update: one write, and one announcement of the new count if the back pointer is set. */
  lemma UpdateAlone(s: State, t: nat, id: nat, properties: Properties)
    requires Wired(s.repo) && t !in s.calls && id < |s.repo.objects| && !s.repo.objects[id].removed
    ensures var was := s.repo.objects[id];
            var c := was.(properties := properties, changeCount := was.changeCount + 1, writes := was.writes + 1);
            var s1 := s.(repo := s.repo.(objects := s.repo.objects[id := c]));
            Completes(s, Update(t, id, properties), t, if c.attached then Post(s1, Announce(c.pid, c.changeCount)) else s1)
  {
    WrittenAlone(s, Update(t, id, properties), t, id, Write(s.repo.objects[id], properties));
  }

  /** UpdateIfDifferent does the same, unless the object shows the properties already. */
  lemma UpdateIfDifferentAlone(s: State, t: nat, id: nat, properties: Properties)
    requires Wired(s.repo) && t !in s.calls && id < |s.repo.objects| && !s.repo.objects[id].removed
    ensures var was := s.repo.objects[id];
            var c := was.(properties := properties, changeCount := was.changeCount + 1, writes := was.writes + 1);
            var s1 := s.(repo := s.repo.(objects := s.repo.objects[id := c]));
            Completes(s, UpdateIfDifferent(t, id, properties), t,
                      if was.properties == properties then s
                      else if c.attached then Post(s1, Announce(c.pid, c.changeCount)) else s1)
  {
    if s.repo.objects[id].properties == properties {
      NothingAlone(s, UpdateIfDifferent(t, id, properties), t);
    } else {
      WrittenAlone(s, UpdateIfDifferent(t, id, properties), t, id, Write(s.repo.objects[id], properties));
    }
  }

  /** A call that throws or finds nothing to do. */
  lemma NothingAlone(s: State, a: Act, t: nat)
    requires Wired(s.repo) && t !in s.calls && Next(s, a) == s
    ensures Completes(s, a, t, s)
  {
    hide Next;
    NothingToDo(s);
    CallEnds(s, a, t, 0);
  }

  /** Two sections and some posts. */
  lemma ThenPosts(s: State, a: Act, t: nat, base: State, posts: seq<Task>)
    requires Wired(s.repo) && Wired(base.repo) && t !in s.calls && base.calls == s.calls
    requires Next(Next(s, a), Continue(t)) == base.(calls := s.calls[t := Finishing([], posts)])
    ensures Completes(s, a, t, PostAll(base, posts))
  {
    hide Next, Run, PostAll, Wired;
    var s1, s2 := Next(s, a), base.(calls := s.calls[t := Finishing([], posts)]);
    var n := FinishAlone(s2, t, [], posts);
    NothingToDo(s2);
    assert s2.calls - {t} == s.calls;
    assert s2.(repo := DetachAll(s2.repo, []), calls := s.calls) == base;
    PostedInOrder(base, posts);
    ContinueFirst(s1, t, n + 1);
    CallEnds(s, a, t, n + 1);
  }

  lemma ThenOver(s: State, a: Act, t: nat)
    requires Wired(s.repo) && t !in Next(Next(s, a), Continue(t)).calls
    ensures Completes(s, a, t, Next(Next(s, a), Continue(t)))
  {
    hide Next, Run;
    var s1 := Next(s, a);
    NothingToDo(Next(s1, Continue(t)));
    ContinueFirst(s1, t, 1);
    CallEnds(s, a, t, 1);
  }

  lemma WrittenAlone(s: State, a: Act, t: nat, id: nat, c: Config)
    requires Wired(s.repo) && t !in s.calls && id < |s.repo.objects| && c.pid == s.repo.objects[id].pid
    requires Next(s, a) == Enter(s, t, id, c, Updating(id))
    ensures var s1 := s.(repo := SetObject(s.repo, id, c));
            Completes(s, a, t, if c.attached then Post(s1, Announce(c.pid, c.changeCount)) else s1)
  {
    var base, post := s.(repo := SetObject(s.repo, id, c)), Announce(c.pid, c.changeCount);
    var s1 := Next(s, a);
    assert Wired(base.repo) && s1.calls - {t} == s.calls;
    if c.attached {
      assert s1.calls[t := Finishing([], [post])] == s.calls[t := Finishing([], [post])];
      ThenPosts(s, a, t, base, [post]);
      OnePost(base, post);
    } else {
      ThenOver(s, a, t);
    }
    hide PostAll, Completes;
  }

  lemma OnePost(s: State, task: Task)
    ensures PostAll(s, [task]) == Post(s, task)
  {
    assert [task][..0] == [];
  }

  /** Remove: the object ends removed and cut off; if it is still the one mapped, the PID leaves map and
      index, and if it had been updated an announcement and a log entry are posted, in this order. */
  lemma RemoveAlone(s: State, t: nat, id: nat)
    requires Wired(s.repo) && t !in s.calls && id < |s.repo.objects| && !s.repo.objects[id].removed
    ensures var r, c := s.repo, s.repo.objects[id];
            var objects := r.objects[id := c.(removed := true, attached := false)];
            var mapped := c.attached && c.pid in r.configurations && r.configurations[c.pid] == id;
            var s1 := s.(repo := if mapped then Repo(objects, r.configurations - {c.pid}, RemoveInstance(r.factoryInstances, c.pid))
                                 else r.(objects := objects));
            Completes(s, Remove(t, id), t,
                      if mapped && c.changeCount > 0 then Post(Post(s1, Announce(c.pid, c.changeCount)), LogRemoval(c.pid)) else s1)
  {
    var c := s.repo.objects[id];
    var mapped := c.attached && c.pid in s.repo.configurations && s.repo.configurations[c.pid] == id;
    var posts := if mapped && c.changeCount > 0 then [Announce(c.pid, c.changeCount), LogRemoval(c.pid)] else [];
    LeavingAlone(s, t, id, posts);
    LeftExactly(s.repo, id);
    hide Left, Post, PostAll, Completes, RemoveInstance, Wired;
    PostsWritten(s.(repo := Left(s.repo, id)), c, posts);
  }

  lemma LeftExactly(r: Repo, id: nat)
    requires id < |r.objects|
    ensures var c := r.objects[id];
            var objects := r.objects[id := c.(removed := true, attached := false)];
            Left(r, id) == if c.attached && c.pid in r.configurations && r.configurations[c.pid] == id
                           then Repo(objects, r.configurations - {c.pid}, RemoveInstance(r.factoryInstances, c.pid))
                           else r.(objects := objects)
  {
    hide RemoveInstance;
  }

  lemma PostsWritten(s: State, c: Config, posts: seq<Task>)
    ensures PostAll(s, []) == s
    ensures PostAll(s, [Announce(c.pid, c.changeCount), LogRemoval(c.pid)]) == Post(Post(s, Announce(c.pid, c.changeCount)), LogRemoval(c.pid))
  {
    var two := [Announce(c.pid, c.changeCount), LogRemoval(c.pid)];
    assert two[..1] == [Announce(c.pid, c.changeCount)];
    OnePost(s, two[0]);
  }

  /** The object ends removed and cut off, and the PID leaves the map if it still leads here. */
  function Left(r: Repo, id: nat): Repo
    requires id < |r.objects|
  {
    var c := r.objects[id];
    var marked := SetObject(r, id, c.(removed := true));
    if c.attached && c.pid in r.configurations && r.configurations[c.pid] == id then Detach(Erase(marked, c.pid), id)
    else Detach(marked, id)
  }

  lemma LeavingSteps(s: State, t: nat, id: nat, posts: seq<Task>)
    requires Wired(s.repo) && t !in s.calls && id < |s.repo.objects| && !s.repo.objects[id].removed
    requires var c := s.repo.objects[id];
             posts == if c.attached && c.pid in s.repo.configurations && s.repo.configurations[c.pid] == id && c.changeCount > 0
                      then [Announce(c.pid, c.changeCount), LogRemoval(c.pid)] else []
    ensures Wired(Left(s.repo, id))
    ensures Next(Next(s, Remove(t, id)), Continue(t))
         == s.(repo := Left(s.repo, id), calls := if s.repo.objects[id].attached then s.calls[t := Finishing([], posts)] else s.calls)
  {
    hide RemoveInstance;
    var s1 := Next(s, Remove(t, id));
    assert s1.calls - {t} == s.calls;
    assert s1.calls[t := Finishing([], posts)] == s.calls[t := Finishing([], posts)];
    if !s.repo.objects[id].attached {
      var marked := s1.repo;
      assert marked.objects[id].(attached := false) == marked.objects[id];
      assert marked.objects[id := marked.objects[id]] == marked.objects;
      assert Left(s.repo, id) == Detach(marked, id) == marked;
      assert Next(s1, Continue(t)) == s1.(calls := s1.calls - {t});
    }
  }

  lemma LeavingAlone(s: State, t: nat, id: nat, posts: seq<Task>)
    requires Wired(s.repo) && t !in s.calls && id < |s.repo.objects| && !s.repo.objects[id].removed
    requires var c := s.repo.objects[id];
             posts == if c.attached && c.pid in s.repo.configurations && s.repo.configurations[c.pid] == id && c.changeCount > 0
                      then [Announce(c.pid, c.changeCount), LogRemoval(c.pid)] else []
    ensures Completes(s, Remove(t, id), t, PostAll(s.(repo := Left(s.repo, id)), posts))
  {
    LeavingSteps(s, t, id, posts);
    hide Next, Left, PostAll, Completes;
    if s.repo.objects[id].attached {
      ThenPosts(s, Remove(t, id), t, s.(repo := Left(s.repo, id)), posts);
    } else {
      ThenOver(s, Remove(t, id), t);
      NothingToDo(s.(repo := Left(s.repo, id)));
    }
  }

  // ---- one call among others ------------------------------------------------------------------

  /** Whatever other threads do meanwhile, a call under way waits where it is. */
  lemma {:induction false} CallWaits(s: State, others: seq<Act>, t: nat)
    requires Wired(s.repo) && t in s.calls && Continue(t) !in others
    ensures t in Run(s, others).calls && Run(s, others).calls[t] == s.calls[t]
  {
    if others != [] {
      var n := |others| - 1;
      CallWaits(s, others[..n], t);
      OneStepWaits(Run(s, others[..n]), others[n], t);
    }
  }

  lemma OneStepWaits(s: State, a: Act, t: nat)
    requires Wired(s.repo) && t in s.calls && a != Continue(t)
    ensures t in Next(s, a).calls && Next(s, a).calls[t] == s.calls[t]
  {
    hide AddAll, RemoveAll, Erase, Detach, Instances, ReadFor, Perform;
  }

  /** An Update that goes on late, after anything that others did: it announces the count of that moment, also
      for an object removed meanwhile, unless its back pointer has been cut; then it announces nothing. */
  lemma LateUpdateAnnounces(s: State, others: seq<Act>, t: nat, id: nat) returns (n: nat)
    requires Wired(s.repo) && t in s.calls && s.calls[t] == Updating(id) && Continue(t) !in others
    requires id < |Run(s, others).repo.objects|
    ensures var s1 := Run(s, others);
            var c, over := s1.repo.objects[id], s1.(calls := s1.calls - {t});
            Run(s1, Continues(t, n)) == if c.attached then Post(over, Announce(c.pid, c.changeCount)) else over
  {
    CallWaits(s, others, t);
    n := UpdateGoesOn(Run(s, others), t, id);
  }

  lemma UpdateGoesOn(s: State, t: nat, id: nat) returns (n: nat)
    requires Wired(s.repo) && t in s.calls && s.calls[t] == Updating(id) && id < |s.repo.objects|
    ensures var c, over := s.repo.objects[id], s.(calls := s.calls - {t});
            Run(s, Continues(t, n)) == if c.attached then Post(over, Announce(c.pid, c.changeCount)) else over
  {
    var c, s1 := s.repo.objects[id], Next(s, Continue(t));
    var post := Announce(c.pid, c.changeCount);
    n := 0;
    if c.attached {
      assert s1 == s.(calls := s.calls[t := Finishing([], [post])]);
      hide Next, Run, PostAll, Wired, Post;
      n := FinishAlone(s1, t, [], [post]);
      NothingToDo(s1);
      assert s1.calls - {t} == s.calls - {t};
      OnePost(s.(calls := s.calls - {t}), post);
    } else {
      assert s1 == s.(calls := s.calls - {t});
      hide Next, Run, Wired, Post;
      NothingToDo(s1);
    }
    n := n + 1;
    ContinueFirst(s, t, n);
  }
}
