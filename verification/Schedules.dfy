/** How calls and tasks run out matters only to a service that an Update stalled on an earlier object may
    still reach: exactly which last words are possible, and when agreement does not depend on the schedule. */
module Schedules {
  import opened Repository
  import opened Engine
  import opened Protocol
  import opened Pointers
  import opened Agreement
  import opened Progress
  import opened LastWords

  ghost predicate EndsWith(s: State, more: seq<Act>, k: nat, pid: string, word: Word)
    requires Wired(s.repo)
  {
    var s' := Run(s, more);
    AllFinishWork(more) && Quiescent(s') && k in s'.services && Remembers(s'.services[k], pid).word == word
  }

  // ---- cutting pointers first ----------------------------------------------------------------

  predicate HasCut(call: Call) {
    call.Removing? || (call.Finishing? && call.detach != [])
  }

  /** Such a step promises nothing about a live PID. */
  lemma CutPromisesNothing(s: State, t: nat, pid: string, n: nat)
    requires Orderly(s) && Alive(s, pid) && t in s.calls && HasCut(s.calls[t])
    requires PromisedCount(Resume(s, t), pid, n)
    ensures PromisedCount(s, pid, n)
  {
    var s' := Resume(s, t);
    assert CallSound(s.repo, s.calls[t]);
    var u :| u in s'.calls && Promises(s'.calls[u], pid, n);
    assert Promises(s.calls[u], pid, n);
  }

  lemma CutAddsNothing(s: State, t: nat, k: nat, pid: string, n: nat)
    requires Following(s, k, pid) && t in s.calls && HasCut(s.calls[t]) && SameLife(s, Resume(s, t), k, pid)
    requires Certain(Resume(s, t), pid, n)
    ensures Certain(s, pid, n)
  {
    if PromisedCount(Resume(s, t), pid, n) {
      CutPromisesNothing(s, t, pid, n);
    } else {
      MoveUpdates(s, t, pid);
    }
    hide Resume, KeysSound, PromisedCount;
  }

  lemma CutKeepsLeast(s: State, t: nat, k: nat, pid: string)
    requires Following(s, k, pid) && t in s.calls && HasCut(s.calls[t])
    ensures SameLife(s, Resume(s, t), k, pid) && LeastOutcome(Resume(s, t), k, pid) == LeastOutcome(s, k, pid)
  {
    var s' := Resume(s, t);
    FinishingKeepsLife(s, Continue(t), k, pid);
    ResumeKeepsObject(s, t, pid);
    assert s'.queue == s.queue;
    MoveNarrows(s, t, k, pid);
    var last := AfterQueue(s, k, pid).last;
    assert Wired(s.repo);
    hide Resume, Orderly, KeysSound, AfterQueue, Next;
    if n: nat :| Certain(s, pid, n) && last < n {
      CertainMoves(s, t, pid, n);
    }
    if n: nat :| Certain(s', pid, n) && last < n {
      CutAddsNothing(s, t, k, pid, n);
    }
  }

  /** The same life with no pointer left to cut, and nothing decided that is not certain. */
  ghost predicate Cleared(s: State, s': State, k: nat, pid: string)
    requires Following(s, k, pid)
  {
    && SameLife(s, s', k, pid) && PointersSound(s') && LeastOutcome(s', k, pid) == LeastOutcome(s, k, pid)
    && forall t :: t in s'.calls ==> !HasCut(s'.calls[t])
  }

  lemma {:induction false} CutFirst(s: State, k: nat, pid: string) returns (acts: seq<Act>)
    requires Following(s, k, pid) && PointersSound(s)
    ensures AllFinishWork(acts) && Cleared(s, Run(s, acts), k, pid)
    decreases Work(s)
  {
    if t :| t in s.calls && HasCut(s.calls[t]) {
      var s1 := Next(s, Continue(t));
      CutStep(s, t, k, pid);
      var rest := CutFirst(s1, k, pid);
      acts := [Continue(t)] + rest;
      FirstThen(s, Continue(t), rest);
      SameLifeOn(s, s1, Run(s, acts), k, pid);
    } else {
      acts := [];
      SameLifeAtOnce(s, k, pid);
    }
    hide Following, SameLife, LeastOutcome, HasCut, Next, PointersSound;
  }

  lemma CutStep(s: State, t: nat, k: nat, pid: string)
    requires Following(s, k, pid) && PointersSound(s) && t in s.calls && HasCut(s.calls[t])
    ensures var s1 := Next(s, Continue(t));
            && SameLife(s, s1, k, pid) && Following(s1, k, pid) && PointersSound(s1) && Work(s1) < Work(s)
            && LeastOutcome(s1, k, pid) == LeastOutcome(s, k, pid)
  {
    CutKeepsLeast(s, t, k, pid);
    ResumeDecreases(s, t);
    NextKeepsPointers(s, Continue(t));
    hide Orderly, KeysSound, PointersSound, LeastOutcome, Work, Resume;
  }

  lemma OneAct(s: State, a: Act)
    requires Wired(s.repo)
    ensures Run(s, [a]) == Next(s, a)
  {
    assert [a][..0] == [];
  }

  lemma FirstThen(s: State, a: Act, rest: seq<Act>)
    requires Wired(s.repo)
    ensures Run(s, [a] + rest) == Run(Next(s, a), rest)
  {
    OneAct(s, a);
    RunConcat(s, [a], rest);
  }

  /** With no pointer left to cut, nothing is open. */
  lemma NothingOpen(s: State, k: nat, pid: string)
    requires Following(s, k, pid) && PointersSound(s) && forall t :: t in s.calls ==> !HasCut(s.calls[t])
    ensures Outcome(s, k, pid) == LeastOutcome(s, k, pid)
  {
    forall t | UpdateUnderWay(s, t, pid) ensures s.calls[t].id == s.repo.configurations[pid] {
      assert !CutPending(s, s.calls[t].id);
      assert !Dangling(s.repo, s.calls[t].id);
    }
    var last := AfterQueue(s, k, pid).last;
    hide Orderly, KeysSound, AfterQueue, PromisedCount, PointersSound;
    if n: nat :| Pending(s, pid, n) && last < n {
      assert Certain(s, pid, n);
    }
    if CertainToHear(s, pid, last) {
      LeastFirst(s, pid, last);
    }
  }

  // ---- which last words are possible ---------------------------------------------------------

  lemma LeastIsReached(s: State, k: nat, pid: string) returns (more: seq<Act>)
    requires Following(s, k, pid) && PointersSound(s)
    ensures EndsWith(s, more, k, pid, LeastOutcome(s, k, pid))
  {
    var first := CutFirst(s, k, pid);
    var s1 := Run(s, first);
    NothingOpen(s1, k, pid);
    var rest := RunsOut(s1);
    AtRestOneOfTwo(s1, k, pid, rest);
    more := first + rest;
    RunConcat(s, first, rest);
    hide Orderly, KeysSound, PointersSound, Outcome, LeastOutcome, HasCut, Remembers, Run;
  }

  lemma MostIsReached(s: State, k: nat, pid: string) returns (more: seq<Act>)
    requires Following(s, k, pid) && PointersSound(s)
    ensures EndsWith(s, more, k, pid, Outcome(s, k, pid))
  {
    if Outcome(s, k, pid) == LeastOutcome(s, k, pid) {
      more := LeastIsReached(s, k, pid);
    } else {
      var last := AfterQueue(s, k, pid).last;
      if CertainToHear(s, pid, last) {
        LeastFirst(s, pid, last);
      }
      assert MoreToHear(s, pid, last) && !CertainToHear(s, pid, last);
      var n: nat :| Pending(s, pid, n) && last < n;
      assert !Certain(s, pid, n);
      var t :| UpdateUnderWay(s, t, pid) && s.repo.objects[s.calls[t].id].changeCount == n;
      more := AnnouncedFirst(s, t, k, pid);
    }
  }

  /** The stalled Update goes on before its object is invalidated. */
  lemma AnnouncedFirst(s: State, t: nat, k: nat, pid: string) returns (more: seq<Act>)
    requires Following(s, k, pid) && UpdateUnderWay(s, t, pid) && Object(s, pid).changeCount > 0
    requires AfterQueue(s, k, pid).last < s.repo.objects[s.calls[t].id].changeCount
    ensures EndsWith(s, more, k, pid, Outcome(s, k, pid))
  {
    var s1 := Next(s, Continue(t));
    FinishingKeepsLife(s, Continue(t), k, pid);
    AnnouncedStep(s, t, k, pid);
    hide Outcome, LeastOutcome, Run, Next, Resume, Remembers, Orderly, KeysSound;
    var rest := RunsOut(s1);
    AtRestOneOfTwo(s1, k, pid, rest);
    more := [Continue(t)] + rest;
    FirstThen(s, Continue(t), rest);
  }

  lemma AnnouncedStep(s: State, t: nat, k: nat, pid: string)
    requires Following(s, k, pid) && UpdateUnderWay(s, t, pid) && Object(s, pid).changeCount > 0
    requires AfterQueue(s, k, pid).last < s.repo.objects[s.calls[t].id].changeCount
    requires SameLife(s, Resume(s, t), k, pid)
    ensures var s1 := Resume(s, t); Outcome(s1, k, pid) == LeastOutcome(s1, k, pid) == Outcome(s, k, pid)
  {
    var n, last, s1 := s.repo.objects[s.calls[t].id].changeCount, AfterQueue(s, k, pid).last, Resume(s, t);
    ResumeKeepsObject(s, t, pid);
    assert s1.queue == s.queue;
    hide Resume, Orderly, KeysSound, AfterQueue, UpdateUnderWay;
    MoveNarrows(s, t, k, pid);
    UpdatePromises(s, t, pid);
    assert Pending(s, pid, n) && Certain(s1, pid, n);
    LeastFirst(s1, pid, last);
  }

  /** For every state in which the PID leads to a live object: the schedules of finishing steps can leave
      the service with exactly two last words, which differ only if an Update is stalled on an earlier object
      whose pointer is about to be cut. */
  lemma WordsAtRestExactly(s: State, k: nat, pid: string, word: Word)
    requires Following(s, k, pid) && PointersSound(s)
    ensures (exists more :: EndsWith(s, more, k, pid, word))
            <==> word == Outcome(s, k, pid) || word == LeastOutcome(s, k, pid)
  {
    if more :| EndsWith(s, more, k, pid, word) {
      AtRestOneOfTwo(s, k, pid, more);
    }
    if word == Outcome(s, k, pid) {
      var more := MostIsReached(s, k, pid);
    } else if word == LeastOutcome(s, k, pid) {
      var more := LeastIsReached(s, k, pid);
    }
    hide Outcome, LeastOutcome, PointersSound, Remembers, Orderly, KeysSound, Run;
  }

  // ---- agreement -----------------------------------------------------------------------------

  /** If the schedule ends, it ends in agreement. */
  ghost predicate EndsAgreeing(s: State, more: seq<Act>, k: nat, pid: string)
    requires Wired(s.repo)
  {
    var s' := Run(s, more);
    AllFinishWork(more) && Quiescent(s') ==> k in s'.services && InAgreement(s', k, pid)
  }

  /** Every schedule ends in agreement if and only if the least that will be heard tells what is stored. */
  lemma AgreesAnywayExactly(s: State, k: nat, pid: string)
    requires Following(s, k, pid) && PointersSound(s)
    ensures (forall more :: EndsAgreeing(s, more, k, pid))
            <==> Tells(LeastOutcome(s, k, pid), s.services[k].kind, Object(s, pid))
  {
    var kind, c := s.services[k].kind, Object(s, pid);
    if Tells(LeastOutcome(s, k, pid), kind, c) {
      OutcomeTells(s, k, pid);
      forall more ensures EndsAgreeing(s, more, k, pid) {
        if AllFinishWork(more) && Quiescent(Run(s, more)) {
          AtRestOneOfTwo(s, k, pid, more);
          AgreesIfTold(Run(s, more), k, pid);
        }
      }
    } else {
      var more := LeastIsReached(s, k, pid);
      AtRestOneOfTwo(s, k, pid, more);
      AgreesIfTold(Run(s, more), k, pid);
      assert !EndsAgreeing(s, more, k, pid);
    }
    hide Outcome, LeastOutcome, Tells, InAgreement, PointersSound, Remembers, Orderly, KeysSound, Run;
  }

  /** What may be heard besides are the stored properties. */
  lemma OutcomeTells(s: State, k: nat, pid: string)
    requires Following(s, k, pid)
    ensures var kind, c := s.services[k].kind, Object(s, pid);
            Tells(LeastOutcome(s, k, pid), kind, c) ==> Tells(Outcome(s, k, pid), kind, c)
  {
    var last := AfterQueue(s, k, pid).last;
    if CertainToHear(s, pid, last) {
      LeastFirst(s, pid, last);
    }
    hide AfterQueue, MoreToHear, CertainToHear, Orderly, KeysSound;
  }

  /** Some schedule does if and only if the most that may be heard tells it. */
  lemma AgreesSomehowExactly(s: State, k: nat, pid: string)
    requires Following(s, k, pid) && PointersSound(s)
    ensures (exists more :: AllFinishWork(more) && Quiescent(Run(s, more)) && EndsAgreeing(s, more, k, pid))
            <==> Tells(Outcome(s, k, pid), s.services[k].kind, Object(s, pid))
  {
    if more :| AllFinishWork(more) && Quiescent(Run(s, more)) && EndsAgreeing(s, more, k, pid) {
      AtRestOneOfTwo(s, k, pid, more);
      AgreesIfTold(Run(s, more), k, pid);
      OutcomeTells(s, k, pid);
    }
    if Tells(Outcome(s, k, pid), s.services[k].kind, Object(s, pid)) {
      var more := MostIsReached(s, k, pid);
      AtRestOneOfTwo(s, k, pid, more);
      AgreesIfTold(Run(s, more), k, pid);
      assert EndsAgreeing(s, more, k, pid);
    }
    hide Outcome, LeastOutcome, Tells, InAgreement, PointersSound, Remembers, Orderly, KeysSound, Run;
  }
}
