/** A back pointer outlives its object's place in the map only for a while: whichever call took the object
    out of the map, some call under way is about to cut the pointer. */
module Pointers {
  import opened Pids
  import opened Repository
  import opened Engine
  import opened Evolution
  import opened Protocol

  ghost predicate Dangling(r: Repo, id: nat) {
    Unmapped(r, id) && r.objects[id].attached
  }

  /** The call has the pointer of this object still to cut. */
  predicate Cuts(call: Call, id: nat) {
    call == Removing(id) || (call.Finishing? && id in call.detach)
  }

  ghost predicate CutPending(s: State, id: nat) {
    exists t :: t in s.calls && Cuts(s.calls[t], id)
  }

  ghost predicate PointersSound(s: State) {
    forall id: nat :: Dangling(s.repo, id) ==> CutPending(s, id)
  }

  // ---- the batches ---------------------------------------------------------------------------

  /** What dangles afterwards dangled before or is listed. */
  ghost predicate Leaves(r: Repo, r': Repo, detached: seq<nat>) {
    forall id: nat :: Dangling(r', id) ==> Dangling(r, id) || id in detached
  }

  lemma AddOneLeaves(r: Repo, m: Metadata)
    requires Wired(r)
    ensures Leaves(r, AddOne(r, m).repo, AddOne(r, m).detached)
  {
    hide AddInstance;
  }

  lemma RemoveOneLeaves(r: Repo, q: Receipt)
    requires Wired(r)
    ensures Leaves(r, RemoveOne(r, q).repo, RemoveOne(r, q).detached)
  {
    hide RemoveInstance;
  }

  lemma {:induction false} AddAllLeaves(r: Repo, metadata: seq<Metadata>)
    requires Wired(r)
    ensures Leaves(r, AddAll(r, metadata).repo, AddAll(r, metadata).detached)
  {
    if metadata != [] {
      var n := |metadata| - 1;
      AddAllLeaves(r, metadata[..n]);
      AddOneLeaves(AddAll(r, metadata[..n]).repo, metadata[n]);
      hide AddOne, Dangling;
    }
  }

  lemma {:induction false} RemoveAllLeaves(r: Repo, receipts: seq<Receipt>)
    requires Wired(r)
    ensures Leaves(r, RemoveAll(r, receipts).repo, RemoveAll(r, receipts).detached)
  {
    if receipts != [] {
      var n := |receipts| - 1;
      RemoveAllLeaves(r, receipts[..n]);
      RemoveOneLeaves(RemoveAll(r, receipts[..n]).repo, receipts[n]);
      hide RemoveOne, Dangling;
    }
  }

  // ---- every step ----------------------------------------------------------------------------

  /** A call starts or moves on; what the others cut stays. */
  lemma CallKeepsPointers(s: State, s': State, t: nat, cut: seq<nat>)
    requires PointersSound(s) && Leaves(s.repo, s'.repo, cut) && s'.calls - {t} == s.calls - {t}
    requires forall id :: id in cut ==> t in s'.calls && Cuts(s'.calls[t], id)
    requires forall id: nat :: t in s.calls && Cuts(s.calls[t], id) && Dangling(s'.repo, id) ==> t in s'.calls && Cuts(s'.calls[t], id)
    ensures PointersSound(s')
  {
    forall id: nat | Dangling(s'.repo, id) ensures CutPending(s', id) {
      if id !in cut {
        assert CutPending(s, id);
        var u :| u in s.calls && Cuts(s.calls[u], id);
        if u != t {
          assert u in s.calls - {t};
          assert u in s'.calls && Cuts(s'.calls[u], id);
        }
      }
    }
  }

  lemma ResumeKeepsPointers(s: State, t: nat)
    requires Wired(s.repo) && PointersSound(s) && t in s.calls && CallSound(s.repo, s.calls[t])
    ensures PointersSound(Resume(s, t))
  {
    var s' := Resume(s, t);
    assert s'.calls - {t} == s.calls - {t};
    ResumeLeaves(s, t);
    hide Resume, Dangling, CallSound;
    CallKeepsPointers(s, s', t, []);
  }

  lemma ResumeLeaves(s: State, t: nat)
    requires Wired(s.repo) && t in s.calls && CallSound(s.repo, s.calls[t])
    ensures Leaves(s.repo, Resume(s, t).repo, [])
    ensures forall id: nat :: Cuts(s.calls[t], id) && Dangling(Resume(s, t).repo, id)
              ==> t in Resume(s, t).calls && Cuts(Resume(s, t).calls[t], id)
  {
    hide RemoveInstance;
  }

  lemma EnterKeepsPointers(s: State, t: nat, id: nat, c: Config, call: Call)
    requires Wired(s.repo) && PointersSound(s) && t !in s.calls
    requires id < |s.repo.objects| && c.pid == s.repo.objects[id].pid && c.attached == s.repo.objects[id].attached
    ensures PointersSound(Enter(s, t, id, c, call))
  {
    var s' := Enter(s, t, id, c, call);
    assert s'.calls - {t} == s.calls - {t};
    assert Leaves(s.repo, s'.repo, []);
    CallKeepsPointers(s, s', t, []);
  }

  lemma BatchKeepsPointers(s: State, t: nat, r: Repo, detached: seq<nat>, posts: seq<Task>)
    requires PointersSound(s) && t !in s.calls && Leaves(s.repo, r, detached)
    ensures PointersSound(s.(repo := r, calls := s.calls[t := Finishing(detached, posts)]))
  {
    hide Dangling;
    var s' := s.(repo := r, calls := s.calls[t := Finishing(detached, posts)]);
    assert s'.calls - {t} == s.calls - {t};
    CallKeepsPointers(s, s', t, detached);
  }

  lemma CreationKeepsPointers(s: State, c: Config)
    requires Wired(s.repo) && PointersSound(s) && c.pid !in s.repo.configurations
    ensures PointersSound(s.(repo := Register(s.repo, c)))
  {
    var s' := s.(repo := Register(s.repo, c));
    hide AddInstance;
    forall id: nat | Dangling(s'.repo, id) ensures CutPending(s', id) {
      assert Dangling(s.repo, id);
      var t :| t in s.calls && Cuts(s.calls[t], id);
      assert Cuts(s'.calls[t], id);
    }
  }

  lemma NextKeepsPointers(s: State, a: Act)
    requires Orderly(s) && PointersSound(s)
    ensures PointersSound(Next(s, a))
  {
    hide AddAll, RemoveAll, Resume, Register, Instances, ReadFor, Perform, PointersSound, Announcements, MapSound;
    match a {
      case GetConfiguration(pid) =>
        if pid !in s.repo.configurations {
          CreationKeepsPointers(s, NewConfig(pid, FactoryPid(pid), map[], 0, FromClient));
        }
      case CreateFactoryConfiguration(f, name) =>
        if f + "~" + name !in s.repo.configurations {
          CreationKeepsPointers(s, NewConfig(f + "~" + name, f, map[], 0, FromClient));
        }
      case Update(t, id, properties) =>
        if Callable(s, t, id) {
          EnterKeepsPointers(s, t, id, Write(s.repo.objects[id], properties), Updating(id));
        }
      case UpdateIfDifferent(t, id, properties) =>
        if Callable(s, t, id) {
          EnterKeepsPointers(s, t, id, Write(s.repo.objects[id], properties), Updating(id));
        }
      case Remove(t, id) =>
        if Callable(s, t, id) {
          EnterKeepsPointers(s, t, id, s.repo.objects[id].(removed := true), Removing(id));
        }
      case AddConfigurations(t, metadata) =>
        if t !in s.calls {
          var all := AddAll(s.repo, metadata);
          AddAllLeaves(s.repo, metadata);
          BatchKeepsPointers(s, t, all.repo, all.detached, Announcements(all.notices));
        }
      case RemoveConfigurations(t, receipts) =>
        if t !in s.calls {
          var all := RemoveAll(s.repo, receipts);
          RemoveAllLeaves(s.repo, receipts);
          BatchKeepsPointers(s, t, all.repo, all.detached, Announcements(all.notices));
        }
      case Continue(t) =>
        if t in s.calls {
          assert CallSound(s.repo, s.calls[t]);
          ResumeKeepsPointers(s, t);
        }
      case _ =>
        SamePointers(s, Next(s, a));
    }
  }

  lemma SamePointers(s: State, s': State)
    requires PointersSound(s) && s'.repo == s.repo && s'.calls == s.calls
    ensures PointersSound(s')
  {
    forall id: nat | Dangling(s'.repo, id) ensures CutPending(s', id) {
      assert CutPending(s, id);
    }
  }

  /** In every reachable state, and for every object out of the map: either its pointer is cut, or some
      call under way is about to cut it.  So none dangles when all calls have returned. */
  lemma {:induction false} ReachablePointers(acts: seq<Act>)
    ensures PointersSound(Run(INIT, acts))
    ensures Run(INIT, acts).calls == map[] ==> forall id: nat :: !Dangling(Run(INIT, acts).repo, id)
  {
    if acts != [] {
      var n := |acts| - 1;
      ReachableProtocol(acts[..n]);
      ReachablePointers(acts[..n]);
      NextKeepsPointers(Run(INIT, acts[..n]), acts[n]);
    }
  }
}
