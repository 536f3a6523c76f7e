/** Undoing an addition by its receipts: what it restores, exactly, and whom it spares. */
module Undo {
  import opened Repository
  import opened Engine
  import opened Evolution
  import opened FactoryIndex
  import opened Protocol

  // ---- what removing by receipt takes out of the map -----------------------------------------

  /** Some receipt fits the object that the PID leads to. */
  ghost predicate Hit(r: Repo, receipts: seq<Receipt>, pid: string)
    requires Wired(r)
  {
    pid in r.configurations && exists q :: q in receipts && Fits(r, q, pid)
  }

  predicate Fits(r: Repo, q: Receipt, pid: string)
    requires Wired(r) && pid in r.configurations
  {
    && q.pid == pid && q.configurationId == r.configurations[pid]
    && (r.objects[q.configurationId].removed || r.objects[q.configurationId].changeCount == q.changeCount)
  }

  /** The map loses exactly the PIDs that some receipt fits; everything else stays as it is. */
  lemma {:induction false} RemoveAllExactly(r: Repo, receipts: seq<Receipt>, pid: string)
    requires Wired(r)
    ensures var r' := RemoveAll(r, receipts).repo;
            && |r'.objects| == |r.objects|
            && (pid in r'.configurations <==> pid in r.configurations && !Hit(r, receipts, pid))
            && (pid in r'.configurations ==>
                  && r'.configurations[pid] == r.configurations[pid]
                  && r'.objects[r'.configurations[pid]] == r.objects[r.configurations[pid]])
  {
    if receipts != [] {
      var n := |receipts| - 1;
      RemoveAllExactly(r, receipts[..n], pid);
      assert receipts == receipts[..n] + [receipts[n]];
      var r1 := RemoveAll(r, receipts[..n]).repo;
      assert RemoveAll(r, receipts).repo == RemoveOne(r1, receipts[n]).repo;
      RemoveOneFits(r1, receipts[n], pid);
      hide RemoveAll, RemoveOne;
      if pid in r1.configurations {
        assert Hit(r, receipts, pid) <==> Fits(r, receipts[n], pid);
        assert Fits(r, receipts[n], pid) <==> Fits(r1, receipts[n], pid);
      }
    }
  }

  lemma RemoveOneFits(r: Repo, q: Receipt, pid: string)
    requires Wired(r)
    ensures var r' := RemoveOne(r, q).repo;
            && |r'.objects| == |r.objects|
            && (pid in r'.configurations <==> pid in r.configurations && !Fits(r, q, pid))
            && (pid in r'.configurations ==>
                  && r'.configurations[pid] == r.configurations[pid]
                  && r'.objects[r'.configurations[pid]] == r.objects[r.configurations[pid]])
  {
    hide RemoveInstance;
  }

  // ---- what adding does to one PID -----------------------------------------------------------

  predicate About(metadata: seq<Metadata>, pid: string) {
    exists m :: m in metadata && m.pid == pid
  }

  /** Every entry for the PID repeats the properties given. */
  predicate Repeats(metadata: seq<Metadata>, pid: string, properties: Properties) {
    forall m :: m in metadata && m.pid == pid ==> m.properties == properties
  }

  ghost predicate OneReceiptFits(a: AddedAll, pid: string)
    requires Wired(a.repo)
  {
    && pid in a.repo.configurations
    && !a.repo.objects[a.repo.configurations[pid]].removed
    && exists q :: q in a.receipts && Fits(a.repo, q, pid)
  }

  lemma {:induction false} ReceiptsMatch(r: Repo, metadata: seq<Metadata>)
    requires Wired(r)
    ensures forall i :: 0 <= i < |metadata| ==> AddAll(r, metadata).receipts[i].pid == metadata[i].pid
  {
    if metadata != [] {
      var n := |metadata| - 1;
      hide AddOne, AddAll;
      var before, a := AddAll(r, metadata[..n]), AddAll(r, metadata);
      ReceiptsMatch(r, metadata[..n]);
      AddAllLast(r, metadata);
      AddOneReceipt(before.repo, metadata[n]);
      forall i | 0 <= i < |metadata| ensures a.receipts[i].pid == metadata[i].pid {
        if i < n {
          assert a.receipts[i] == before.receipts[i] && metadata[..n][i] == metadata[i];
        }
      }
    }
  }

  /** A PID that no entry names is left alone. */
  lemma {:induction false} AddElsewhere(r: Repo, metadata: seq<Metadata>, pid: string)
    requires Wired(r) && !About(metadata, pid)
    ensures Elsewhere(r, AddAll(r, metadata).repo, pid)
    ensures forall q :: q in AddAll(r, metadata).receipts ==> q.pid != pid
  {
    if metadata != [] {
      var n := |metadata| - 1;
      assert metadata[n] in metadata;
      assert forall m :: m in metadata[..n] ==> m in metadata;
      var before := AddAll(r, metadata[..n]).repo;
      AddElsewhere(r, metadata[..n], pid);
      AddAllLast(r, metadata);
      AddOneElsewhere(before, metadata[n], pid);
      AddOneReceipt(before, metadata[n]);
    }
  }

  /** A live object whose properties every entry repeats is left alone, and its receipts say 0. */
  lemma {:induction false} AddRepeats(r: Repo, metadata: seq<Metadata>, pid: string)
    requires Wired(r) && pid in r.configurations && !r.objects[r.configurations[pid]].removed
    requires Repeats(metadata, pid, r.objects[r.configurations[pid]].properties)
    ensures Elsewhere(r, AddAll(r, metadata).repo, pid)
    ensures forall q :: q in AddAll(r, metadata).receipts && q.pid == pid ==> q == Receipt(pid, 0, r.configurations[pid])
  {
    if metadata != [] {
      var n := |metadata| - 1;
      assert metadata[n] in metadata;
      assert forall m :: m in metadata[..n] ==> m in metadata;
      var before := AddAll(r, metadata[..n]).repo;
      AddRepeats(r, metadata[..n], pid);
      AddAllLast(r, metadata);
      AddOneElsewhere(before, metadata[n], pid);
      AddOneReceipt(before, metadata[n]);
    }
  }

  lemma OneFits(r: Repo, m: Metadata)
    requires Wired(r) && AddOne(r, m).changed && (m.pid in r.configurations ==> !r.objects[r.configurations[m.pid]].removed)
    ensures var one := AddOne(r, m);
            && m.pid in one.repo.configurations && !one.repo.objects[one.repo.configurations[m.pid]].removed
            && Fits(one.repo, one.receipt, m.pid)
  {
    AddOneReceipt(r, m);
    AddOneHere(r, m);
  }

  /** A change by the last entry leaves a live object that its receipt fits. */
  lemma LastFits(r: Repo, m: Metadata, receipts: seq<Receipt>, a: AddedAll)
    requires Wired(r) && AddOne(r, m).changed && (m.pid in r.configurations ==> !r.objects[r.configurations[m.pid]].removed)
    requires Wired(a.repo) && a.repo == AddOne(r, m).repo && a.receipts == receipts + [AddOne(r, m).receipt]
    ensures OneReceiptFits(a, m.pid)
  {
    OneFits(r, m);
    assert a.receipts[|receipts|] in a.receipts;
  }

  lemma KeepsFitting(before: AddedAll, a: AddedAll, receipt: Receipt, pid: string)
    requires Wired(before.repo) && Wired(a.repo) && Elsewhere(before.repo, a.repo, pid)
    requires OneReceiptFits(before, pid) && a.receipts == before.receipts + [receipt]
    ensures OneReceiptFits(a, pid)
  {
    var q :| q in before.receipts && Fits(before.repo, q, pid);
    assert q in a.receipts && Fits(a.repo, q, pid);
  }

  /** Anything else that an entry names ends up as a live object which one of the receipts fits, unless
      it replaced an object that was being removed. */
  lemma {:induction false} AddChanges(r: Repo, metadata: seq<Metadata>, pid: string)
    requires Wired(r) && About(metadata, pid)
    requires pid in r.configurations ==> !r.objects[r.configurations[pid]].removed
    requires pid in r.configurations ==> !Repeats(metadata, pid, r.objects[r.configurations[pid]].properties)
    ensures OneReceiptFits(AddAll(r, metadata), pid)
  {
    var n := |metadata| - 1;
    hide AddAll, AddOne;
    var before, a := AddAll(r, metadata[..n]), AddAll(r, metadata);
    assert metadata == metadata[..n] + [metadata[n]];
    AddAllLast(r, metadata);
    if About(metadata[..n], pid) && (pid in r.configurations ==> !Repeats(metadata[..n], pid, r.objects[r.configurations[pid]].properties)) {
      AddChanges(r, metadata[..n], pid);
      if metadata[n].pid == pid && AddOne(before.repo, metadata[n]).changed {
        LastFits(before.repo, metadata[n], before.receipts, a);
      } else {
        AddOneElsewhere(before.repo, metadata[n], pid);
        hide Elsewhere, OneReceiptFits;
        KeepsFitting(before, a, AddOne(before.repo, metadata[n]).receipt, pid);
      }
    } else {
      assert metadata[n].pid == pid;
      if pid in r.configurations {
        AddRepeats(r, metadata[..n], pid);
      } else {
        AddElsewhere(r, metadata[..n], pid);
      }
      NewsChanges(before.repo, metadata[n]);
      LastFits(before.repo, metadata[n], before.receipts, a);
    }
  }

  lemma NewsChanges(r: Repo, m: Metadata)
    requires Wired(r)
    requires m.pid in r.configurations ==> r.objects[r.configurations[m.pid]].properties != m.properties
    ensures AddOne(r, m).changed
  {
  }

  /** An object that somebody is removing is replaced for good. */
  lemma {:induction false} AddReplaces(r: Repo, metadata: seq<Metadata>, pid: string)
    requires Wired(r) && About(metadata, pid) && MappedRemoved(r, pid)
    ensures var a := AddAll(r, metadata).repo;
            pid in a.configurations && a.configurations[pid] >= |r.objects| && !MappedRemoved(a, pid)
  {
    var n := |metadata| - 1;
    assert metadata == metadata[..n] + [metadata[n]];
    var before := AddAll(r, metadata[..n]).repo;
    AddAllEvolves(r, metadata[..n]);
    AddAllLast(r, metadata);
    if About(metadata[..n], pid) {
      AddReplaces(r, metadata[..n], pid);
      if metadata[n].pid == pid && AddOne(before, metadata[n]).changed {
        AddOneHere(before, metadata[n]);
      } else {
        AddOneElsewhere(before, metadata[n], pid);
      }
    } else {
      AddElsewhere(r, metadata[..n], pid);
      assert metadata[n].pid == pid;
    }
  }

  // ---- the undo ------------------------------------------------------------------------------

  function Undone(r: Repo, metadata: seq<Metadata>): Repo
    requires Wired(r)
  {
    RemoveAll(AddAll(r, metadata).repo, AddAll(r, metadata).receipts).repo
  }

  /** The entry is new, or it repeats a live configuration that has been updated. */
  predicate Harmless(r: Repo, m: Metadata)
    requires Wired(r)
  {
    m.pid in r.configurations ==>
      var c := r.objects[r.configurations[m.pid]];
      !c.removed && c.changeCount > 0 && c.properties == m.properties
  }

  predicate SameMapping(r: Repo, r': Repo, pid: string) {
    && (pid in r'.configurations <==> pid in r.configurations)
    && (pid in r.configurations ==> r'.configurations[pid] == r.configurations[pid])
  }

  predicate HarmlessFor(r: Repo, metadata: seq<Metadata>, pid: string)
    requires Wired(r)
  {
    forall m :: m in metadata && m.pid == pid ==> Harmless(r, m)
  }

  /** What is left under one PID after adding and undoing. */
  lemma UndoOnePid(r: Repo, metadata: seq<Metadata>, pid: string)
    requires Wired(r)
    ensures SameMapping(r, Undone(r, metadata), pid) <==> HarmlessFor(r, metadata, pid)
    ensures HarmlessFor(r, metadata, pid) ==> Elsewhere(r, Undone(r, metadata), pid)
  {
    hide AddAll, RemoveAll;
    var a := AddAll(r, metadata);
    RemoveAllExactly(a.repo, a.receipts, pid);
    AddAllEvolves(r, metadata);
    if !About(metadata, pid) {
      AddElsewhere(r, metadata, pid);
    } else {
      var m :| m in metadata && m.pid == pid;
      if pid !in r.configurations {
        AddChanges(r, metadata, pid);
      } else if MappedRemoved(r, pid) {
        AddReplaces(r, metadata, pid);
        assert !Harmless(r, m);
      } else {
        var c := r.objects[r.configurations[pid]];
        if Repeats(metadata, pid, c.properties) {
          AddRepeats(r, metadata, pid);
          if c.changeCount == 0 {
            SomeReceipt(r, metadata, pid);
            assert !Harmless(r, m);
          }
        } else {
          AddChanges(r, metadata, pid);
          var other :| other in metadata && other.pid == pid && other.properties != c.properties;
          assert !Harmless(r, other);
        }
      }
    }
  }

  lemma SomeReceipt(r: Repo, metadata: seq<Metadata>, pid: string)
    requires Wired(r) && About(metadata, pid)
    ensures exists q :: q in AddAll(r, metadata).receipts && q.pid == pid
  {
    ReceiptsMatch(r, metadata);
    var i :| 0 <= i < |metadata| && metadata[i].pid == pid;
    assert AddAll(r, metadata).receipts[i] in AddAll(r, metadata).receipts;
  }

  /** Adding and then undoing restores the map and the index exactly when every entry is new or
      repeats a live, updated configuration; what was mapped is then untouched.  Entries may repeat a
      PID, with the same properties or with others. */
  lemma UndoExactly(r: Repo, metadata: seq<Metadata>)
    requires Wired(r) && Indexed(r)
    ensures var r' := Undone(r, metadata);
            (r'.configurations == r.configurations && r'.factoryInstances == r.factoryInstances)
            <==> forall m :: m in metadata ==> Harmless(r, m)
    ensures (forall m :: m in metadata ==> Harmless(r, m)) ==>
            forall p :: p in r.configurations ==> Elsewhere(r, Undone(r, metadata), p)
  {
    var r' := Undone(r, metadata);
    AddAllIndexed(r, metadata);
    RemoveAllIndexed(AddAll(r, metadata).repo, AddAll(r, metadata).receipts);
    forall p ensures SameMapping(r, r', p) <==> HarmlessFor(r, metadata, p) {
      UndoOnePid(r, metadata, p);
    }
    forall p ensures HarmlessFor(r, metadata, p) ==> Elsewhere(r, r', p) {
      UndoOnePid(r, metadata, p);
    }
    HarmlessEverywhere(r, metadata);
    assert (forall p :: SameMapping(r, r', p)) <==> r'.configurations == r.configurations by {
      if forall p :: SameMapping(r, r', p) {
        assert forall p :: p in r'.configurations <==> p in r.configurations by {
          forall p ensures p in r'.configurations <==> p in r.configurations { assert SameMapping(r, r', p); }
        }
        forall p | p in r.configurations ensures r'.configurations[p] == r.configurations[p] { assert SameMapping(r, r', p); }
      }
    }
  }

  lemma HarmlessEverywhere(r: Repo, metadata: seq<Metadata>)
    requires Wired(r)
    ensures (forall m :: m in metadata ==> Harmless(r, m)) <==> forall p :: HarmlessFor(r, metadata, p)
  {
    if forall p :: HarmlessFor(r, metadata, p) {
      forall m | m in metadata ensures Harmless(r, m) {
        assert HarmlessFor(r, metadata, m.pid);
      }
    }
  }

  /** In particular a batch on absent PIDs is undone completely. */
  lemma UndoAbsent(r: Repo, metadata: seq<Metadata>)
    requires Wired(r) && Indexed(r)
    requires forall m :: m in metadata ==> m.pid !in r.configurations
    ensures Undone(r, metadata).configurations == r.configurations
    ensures Undone(r, metadata).factoryInstances == r.factoryInstances
  {
    UndoExactly(r, metadata);
  }

  /** A replacement is undone only if it was given no properties: otherwise its receipt says 0 while
      the object counts 1, and the configuration outlives the bundle that brought it. */
  lemma ReplacementOutlivesUndo(r: Repo, m: Metadata)
    requires Wired(r) && MappedRemoved(r, m.pid)
    ensures m.pid in Undone(r, [m]).configurations <==> m.properties != map[]
  {
    var a := AddAll(r, [m]);
    assert [m][..0] == [];
    AddAllLast(r, [m]);
    assert AddAll(r, []) == AddedAll(r, [], [], []);
    assert a.receipts == [AddOne(r, m).receipt];
    RemoveAllExactly(a.repo, a.receipts, m.pid);
    assert |m.properties| > 0 <==> m.properties != map[];
    assert a.receipts[0] in a.receipts;
  }

  // ---- whom the undo spares ------------------------------------------------------------------

  lemma {:induction false} ReceiptsNotAhead(r: Repo, metadata: seq<Metadata>)
    requires Wired(r)
    ensures var a := AddAll(r, metadata);
            forall q :: q in a.receipts ==>
              q.configurationId < |a.repo.objects| && q.changeCount <= a.repo.objects[q.configurationId].changeCount
              && a.repo.objects[q.configurationId].pid == q.pid
  {
    if metadata != [] {
      var n := |metadata| - 1;
      ReceiptsNotAhead(r, metadata[..n]);
      var before, a := AddAll(r, metadata[..n]), AddAll(r, metadata);
      AddOneEvolves(before.repo, metadata[n]);
      AddAllLast(r, metadata);
      AddOneReceipt(before.repo, metadata[n]);
      hide AddAll, AddOne;
      forall q | q in a.receipts
        ensures q.configurationId < |a.repo.objects| && q.changeCount <= a.repo.objects[q.configurationId].changeCount
                && a.repo.objects[q.configurationId].pid == q.pid {
        if q in before.receipts {
          assert Ages(before.repo.objects[q.configurationId], a.repo.objects[q.configurationId]);
        }
      }
    }
  }

  /** Only an object whose count a receipt states is marked as removed. */
  lemma {:induction false} MarksOnlyReceipted(r: Repo, receipts: seq<Receipt>, id: nat)
    requires Wired(r) && id < |r.objects| && !r.objects[id].removed
    ensures var r' := RemoveAll(r, receipts).repo;
            && id < |r'.objects| && r'.objects[id].changeCount == r.objects[id].changeCount
            && (r'.objects[id].removed ==>
                  exists q :: q in receipts && q.configurationId == id && q.changeCount == r.objects[id].changeCount)
  {
    if receipts != [] {
      var n := |receipts| - 1;
      MarksOnlyReceipted(r, receipts[..n], id);
      assert receipts == receipts[..n] + [receipts[n]];
      RemoveAllEvolves(r, receipts[..n]);
      var r1, r' := RemoveAll(r, receipts[..n]).repo, RemoveAll(r, receipts).repo;
      if r1.objects[id].removed {
        var q :| q in receipts[..n] && q.configurationId == id && q.changeCount == r.objects[id].changeCount;
        assert q in receipts;
      } else if r'.objects[id].removed {
        assert receipts[n] in receipts;
      }
    }
  }

  lemma SparesTheWritten(issued: AddedAll, later: Repo, r: Repo, metadata: seq<Metadata>, receipts: seq<Receipt>, id: nat)
    requires Wired(r) && Wired(later) && issued == AddAll(r, metadata) && Evolves(issued.repo, later)
    requires forall q :: q in receipts ==> q in issued.receipts
    requires id < |later.objects| && !later.objects[id].removed && RemoveAll(later, receipts).repo.objects[id].removed
    ensures exists q :: q in receipts && q.configurationId == id && q.pid == later.objects[id].pid
    ensures id < |issued.repo.objects| && later.objects[id].writes == issued.repo.objects[id].writes
    ensures later.objects[id].properties == issued.repo.objects[id].properties
  {
    MarksOnlyReceipted(later, receipts, id);
    var q :| q in receipts && q.configurationId == id && q.changeCount == later.objects[id].changeCount;
    ReceiptsNotAhead(r, metadata);
    assert Ages(issued.repo.objects[id], later.objects[id]);
  }

  /** Receipts are issued, then anything happens, then they are used: an object they mark as removed
      was one of theirs and has not been written to since. */
  lemma UndoSparesTheWritten(s: State, t: nat, metadata: seq<Metadata>, acts: seq<Act>, receipts: seq<Receipt>, id: nat)
    requires Wired(s.repo) && t !in s.calls
    requires forall q :: q in receipts ==> q in AddAll(s.repo, metadata).receipts
    requires var later := Run(Next(s, AddConfigurations(t, metadata)), acts).repo;
             id < |later.objects| && !later.objects[id].removed && RemoveAll(later, receipts).repo.objects[id].removed
    ensures var issued := Next(s, AddConfigurations(t, metadata)).repo;
            var later := Run(Next(s, AddConfigurations(t, metadata)), acts).repo;
            && (exists q :: q in receipts && q.configurationId == id && q.pid == later.objects[id].pid)
            && id < |issued.objects| && later.objects[id].writes == issued.objects[id].writes
            && later.objects[id].properties == issued.objects[id].properties
  {
    var start := Next(s, AddConfigurations(t, metadata));
    RunEvolves(start, acts);
    SparesTheWritten(AddAll(s.repo, metadata), Run(start, acts).repo, s.repo, metadata, receipts, id);
  }
}
