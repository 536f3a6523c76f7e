/** The activator: one extension for each started bundle that brings configurations.  Starting a
    bundle adds them and keeps the receipts; stopping it undoes them by receipt. */
module Bundles {
  import opened Repository
  import opened Evolution
  import opened Undo
  import opened Batches

  datatype Event = Started(bundle: nat) | Stopping(bundle: nat) | Other(bundle: nat)

  /** What every bundle brings, for those with a readable configuration header, and the activator's
      own bundle, whose events are skipped. */
  datatype Setting = Setting(metadata: map<nat, seq<Metadata>>, own: nat)

  datatype Registry = Registry(repo: Repo, extensions: map<nat, seq<Receipt>>)

  const EMPTY := Registry(EMPTY_REPO, map[])

  function Create(g: Registry, setting: Setting, b: nat): (g': Registry)
    requires Wired(g.repo)
    ensures Wired(g'.repo)
  {
    if b !in setting.metadata || b in g.extensions then g
    else
      var a := AddAll(g.repo, setting.metadata[b]);
      Registry(a.repo, g.extensions[b := a.receipts])
  }

  function Discard(g: Registry, setting: Setting, b: nat): (g': Registry)
    requires Wired(g.repo)
    ensures Wired(g'.repo)
  {
    if b !in setting.metadata || b !in g.extensions then g
    else Registry(RemoveAll(g.repo, g.extensions[b]).repo, g.extensions - {b})
  }

  function OnEvent(g: Registry, setting: Setting, e: Event): (g': Registry)
    requires Wired(g.repo)
    ensures Wired(g'.repo)
  {
    if e.bundle == setting.own then g
    else match e
      case Started(b) => Create(g, setting, b)
      case Stopping(b) => Discard(g, setting, b)
      case Other(_) => g
  }

  function After(setting: Setting, events: seq<Event>): (g: Registry)
    ensures Wired(g.repo)
  {
    if events == [] then EMPTY else OnEvent(After(setting, events[..|events| - 1]), setting, events[|events| - 1])
  }

  /** The activator as a program.  The calls it makes on the admin are over before the next event, so
      the admin's repository is kept here as a value. */
  class Activator {
    var repo: Repo
    var bundleRegistry: map<nat, seq<Receipt>>
    const setting: Setting

    function Value(): Registry
      reads this
    {
      Registry(repo, bundleRegistry)
    }

    constructor (setting: Setting)
      ensures this.setting == setting && Value() == EMPTY
    {
      this.setting := setting;
      repo := EMPTY_REPO;
      bundleRegistry := map[];
    }

    method CreateExtension(bundle: nat)
      requires Wired(repo)
      modifies this
      ensures Value() == Create(old(Value()), setting, bundle)
    {
      if bundle !in setting.metadata {
        return;
      }
      var extensionFound := bundle in bundleRegistry;
      if extensionFound {
        return;
      }
      var added := AddAll(repo, setting.metadata[bundle]);
      repo := added.repo;
      bundleRegistry := bundleRegistry[bundle := added.receipts];
    }

    method RemoveExtension(bundle: nat)
      requires Wired(repo)
      modifies this
      ensures Value() == Discard(old(Value()), setting, bundle)
    {
      if bundle !in setting.metadata {
        return;
      }
      if bundle in bundleRegistry {
        var receipts := bundleRegistry[bundle];
        bundleRegistry := bundleRegistry - {bundle};
        repo := RemoveAll(repo, receipts).repo;
      }
    }

    method BundleChanged(event: Event)
      requires Wired(repo)
      modifies this
      ensures Wired(repo) && Value() == OnEvent(old(Value()), setting, event)
    {
      if event.bundle == setting.own {
        return;
      }
      if event.Started? {
        CreateExtension(event.bundle);
      } else if event.Stopping? {
        RemoveExtension(event.bundle);
      }
    }

    /** The events arrive one by one. */
    method Handle(events: seq<Event>)
      requires Value() == EMPTY
      modifies this
      ensures Value() == After(setting, events)
    {
      for i := 0 to |events|
        invariant Wired(repo) && Value() == After(setting, events[..i])
      {
        assert events[..i + 1][..i] == events[..i];
        BundleChanged(events[i]);
      }
      assert events[..|events|] == events;
    }
  }

  // ---- which PIDs are mapped -----------------------------------------------------------------

  predicate Brings(setting: Setting, b: nat, pid: string) {
    b in setting.metadata && About(setting.metadata[b], pid)
  }

  ghost predicate Disjoint(setting: Setting) {
    forall b, c, pid :: b != setting.own && c != setting.own && Brings(setting, b, pid) && Brings(setting, c, pid) ==> b == c
  }

  /** Exactly the PIDs that registered bundles bring are mapped. */
  ghost predicate MapsTheRegistered(g: Registry, setting: Setting) {
    forall pid :: pid in g.repo.configurations <==> exists b :: b in g.extensions && Brings(setting, b, pid)
  }

  /** One of the bundle's receipts fits the live object under the PID. */
  ghost predicate Owns(g: Registry, b: nat, pid: string)
    requires Wired(g.repo) && b in g.extensions
  {
    OneReceiptFits(AddedAll(g.repo, g.extensions[b], [], []), pid)
  }

  ghost predicate Sound(g: Registry, setting: Setting)
    requires Wired(g.repo)
  {
    && MapsTheRegistered(g, setting)
    && (forall b :: b in g.extensions ==> b in setting.metadata && b != setting.own)
    && (forall b, pid :: b in g.extensions && Brings(setting, b, pid) ==> Owns(g, b, pid))
    && (forall b, q :: b in g.extensions && q in g.extensions[b] ==> Brings(setting, b, q.pid))
  }

  lemma OwnershipMoves(g: Registry, g': Registry, b: nat, pid: string)
    requires Wired(g.repo) && Wired(g'.repo) && b in g.extensions && b in g'.extensions
    requires g'.extensions[b] == g.extensions[b] && Elsewhere(g.repo, g'.repo, pid) && Owns(g, b, pid)
    ensures Owns(g', b, pid)
  {
    var q :| q in g.extensions[b] && Fits(g.repo, q, pid);
    assert Fits(g'.repo, q, pid);
  }

  lemma CreateSound(g: Registry, setting: Setting, b: nat)
    requires Disjoint(setting) && Wired(g.repo) && Sound(g, setting) && b != setting.own
    ensures Sound(Create(g, setting, b), setting)
  {
    var g' := Create(g, setting, b);
    if g' != g {
      var metadata := setting.metadata[b];
      var a := AddAll(g.repo, metadata);
      forall pid ensures Brings(setting, b, pid) ==> pid !in g.repo.configurations && Owns(g', b, pid) {
        if Brings(setting, b, pid) {
          assert pid !in g.repo.configurations;
          AddChanges(g.repo, metadata, pid);
          assert OneReceiptFits(a, pid);
          var q :| q in a.receipts && Fits(a.repo, q, pid);
          assert q in g'.extensions[b];
        }
      }
      forall pid ensures !Brings(setting, b, pid) ==> Elsewhere(g.repo, g'.repo, pid) {
        if !Brings(setting, b, pid) { AddElsewhere(g.repo, metadata, pid); }
      }
      forall c, pid | c in g'.extensions && Brings(setting, c, pid) ensures Owns(g', c, pid) {
        if c != b { OwnershipMoves(g, g', c, pid); }
      }
      forall q | q in a.receipts ensures Brings(setting, b, q.pid) {
        ReceiptsMatch(g.repo, metadata);
        var i :| 0 <= i < |a.receipts| && a.receipts[i] == q;
        assert metadata[i] in metadata;
      }
      RegisteredGrows(g, g', setting, b);
    }
  }

  lemma RegisteredGrows(g: Registry, g': Registry, setting: Setting, b: nat)
    requires Wired(g.repo) && Wired(g'.repo) && MapsTheRegistered(g, setting)
    requires b !in g.extensions && g'.extensions.Keys == g.extensions.Keys + {b}
    requires forall pid :: Brings(setting, b, pid) ==> pid in g'.repo.configurations
    requires forall pid :: !Brings(setting, b, pid) ==> Elsewhere(g.repo, g'.repo, pid)
    ensures MapsTheRegistered(g', setting)
  {
    forall pid ensures pid in g'.repo.configurations <==> exists c :: c in g'.extensions && Brings(setting, c, pid) {
      if Brings(setting, b, pid) {
        assert b in g'.extensions;
      } else {
        assert Elsewhere(g.repo, g'.repo, pid);
        if c :| c in g.extensions && Brings(setting, c, pid) { assert c in g'.extensions; }
        if c :| c in g'.extensions && Brings(setting, c, pid) { assert c in g.extensions; }
      }
    }
  }

  lemma DiscardOnePid(g: Registry, setting: Setting, b: nat, pid: string)
    requires Wired(g.repo) && Sound(g, setting) && b in g.extensions
    ensures var g' := Discard(g, setting, b);
            if Brings(setting, b, pid) then pid !in g'.repo.configurations else Elsewhere(g.repo, g'.repo, pid)
  {
    RemoveAllExactly(g.repo, g.extensions[b], pid);
    if Brings(setting, b, pid) {
      assert Owns(g, b, pid);
    } else {
      assert !Hit(g.repo, g.extensions[b], pid);
    }
  }

  lemma DiscardSound(g: Registry, setting: Setting, b: nat)
    requires Disjoint(setting) && Wired(g.repo) && Sound(g, setting) && b != setting.own
    ensures Sound(Discard(g, setting, b), setting)
  {
    var g' := Discard(g, setting, b);
    if g' != g {
      forall pid ensures if Brings(setting, b, pid) then pid !in g'.repo.configurations else Elsewhere(g.repo, g'.repo, pid) {
        DiscardOnePid(g, setting, b, pid);
      }
      forall c, pid | c in g'.extensions && Brings(setting, c, pid) ensures Owns(g', c, pid) {
        OwnershipMoves(g, g', c, pid);
      }
      forall pid ensures pid in g'.repo.configurations <==> exists c :: c in g'.extensions && Brings(setting, c, pid) {
        if c :| c in g.extensions && c != b && Brings(setting, c, pid) { assert c in g'.extensions; }
      }
    }
  }

  lemma {:induction false} EventsSound(setting: Setting, events: seq<Event>)
    requires Disjoint(setting)
    ensures Sound(After(setting, events), setting)
  {
    if events != [] {
      var n := |events| - 1;
      EventsSound(setting, events[..n]);
      var g := After(setting, events[..n]);
      if events[n].bundle != setting.own {
        match events[n]
        case Started(b) => CreateSound(g, setting, b);
        case Stopping(b) => DiscardSound(g, setting, b);
        case Other(_) =>
      }
    }
  }

  /** A bundle is registered exactly when it brings configurations and the last of its start and stop
      events was a start. */
  predicate Running(setting: Setting, events: seq<Event>, b: nat) {
    if events == [] then false
    else
      var e := events[|events| - 1];
      if e == Started(b) then b in setting.metadata && b != setting.own
      else if e == Stopping(b) then false
      else Running(setting, events[..|events| - 1], b)
  }

  lemma {:induction false} RegisteredIffRunning(setting: Setting, events: seq<Event>, b: nat)
    ensures b in After(setting, events).extensions <==> Running(setting, events, b)
  {
    if events != [] {
      RegisteredIffRunning(setting, events[..|events| - 1], b);
      NotForeign(setting, events[..|events| - 1], b);
    }
  }

  lemma {:induction false} NotForeign(setting: Setting, events: seq<Event>, b: nat)
    ensures Running(setting, events, b) ==> b in setting.metadata && b != setting.own
  {
    if events != [] { NotForeign(setting, events[..|events| - 1], b); }
  }

  /** Which of two bundles that share a PID takes it from the other: if the second repeats the first
      one's properties, stopping the first takes the configuration away from the second; otherwise
      stopping the second takes it away from the first. */
  lemma OneTakesAll(setting: Setting, b: nat, c: nat, pid: string) returns (loser: nat)
    requires b != c && Brings(setting, b, pid) && Brings(setting, c, pid)
    ensures loser == b || loser == c
    ensures pid !in Discard(Create(Create(EMPTY, setting, b), setting, c), setting, loser).repo.configurations
  {
    var g1 := Create(EMPTY, setting, b);
    var g2 := Create(g1, setting, c);
    AddChanges(EMPTY_REPO, setting.metadata[b], pid);
    assert OneReceiptFits(AddAll(EMPTY_REPO, setting.metadata[b]), pid);
    if Repeats(setting.metadata[c], pid, g1.repo.objects[g1.repo.configurations[pid]].properties) {
      loser := b;
      AddRepeats(g1.repo, setting.metadata[c], pid);
      OwnershipMoves(g1, g2, b, pid);
    } else {
      loser := c;
      AddChanges(g1.repo, setting.metadata[c], pid);
      assert OneReceiptFits(AddAll(g1.repo, setting.metadata[c]), pid);
    }
    assert Owns(g2, loser, pid);
    RemoveAllExactly(g2.repo, g2.extensions[loser], pid);
  }

  lemma ThreeEvents(setting: Setting, d: Event, e: Event, f: Event)
    ensures After(setting, [d, e, f]) == OnEvent(OnEvent(OnEvent(EMPTY, setting, d), setting, e), setting, f)
  {
    assert After(setting, []) == EMPTY;
    assert [d][..0] == [];
    assert After(setting, [d]) == OnEvent(EMPTY, setting, d);
    assert [d, e][..1] == [d];
    assert After(setting, [d, e]) == OnEvent(After(setting, [d]), setting, e);
    assert [d, e, f][..2] == [d, e];
    assert After(setting, [d, e, f]) == OnEvent(After(setting, [d, e]), setting, f);
  }

  lemma SharedPidIsLost(setting: Setting, b: nat, c: nat, pid: string) returns (events: seq<Event>)
    requires b != c && b != setting.own && c != setting.own && Brings(setting, b, pid) && Brings(setting, c, pid)
    ensures !MapsTheRegistered(After(setting, events), setting)
  {
    var loser := OneTakesAll(setting, b, c, pid);
    events := [Started(b), Started(c), Stopping(loser)];
    ThreeEvents(setting, Started(b), Started(c), Stopping(loser));
    var other := if loser == b then c else b;
    assert other in After(setting, events).extensions && Brings(setting, other, pid);
  }

  /** Over every sequence of events the mapped PIDs are those of the registered bundles, exactly when
      no two bundles bring the same PID. */
  lemma BundlesExactly(setting: Setting)
    ensures (forall events :: MapsTheRegistered(After(setting, events), setting)) <==> Disjoint(setting)
  {
    if Disjoint(setting) {
      forall events ensures MapsTheRegistered(After(setting, events), setting) {
        EventsSound(setting, events);
      }
    } else {
      var b, c, pid :| b != setting.own && c != setting.own && Brings(setting, b, pid) && Brings(setting, c, pid) && b != c;
      var events := SharedPidIsLost(setting, b, c, pid);
    }
  }

  // ---- what a running bundle's configurations look like ----------------------------------------

  /** Event k is the last start of the bundle, and no stop follows it. */
  predicate StartsLast(events: seq<Event>, b: nat, k: nat) {
    k < |events| && events[k] == Started(b) && forall l :: k < l < |events| ==> events[l] != Stopping(b)
  }

  lemma {:induction false} RunningExactly(setting: Setting, events: seq<Event>, b: nat)
    ensures Running(setting, events, b) <==>
            b in setting.metadata && b != setting.own && exists k: nat :: StartsLast(events, b, k)
  {
    if events != [] {
      var n := |events| - 1;
      RunningExactly(setting, events[..n], b);
      if events[n] == Started(b) {
        assert StartsLast(events, b, n);
      } else if events[n] != Stopping(b) {
        if k: nat :| StartsLast(events[..n], b, k) { assert StartsLast(events, b, k); }
        if k: nat :| StartsLast(events, b, k) {
          assert forall l :: 0 <= l < n ==> events[..n][l] == events[l];
          assert StartsLast(events[..n], b, k);
        }
      }
    }
  }

  /** Every registered bundle's PIDs show the properties of its last entries for them. */
  ghost predicate ShowsTheLast(g: Registry, setting: Setting)
    requires Wired(g.repo)
  {
    forall b, i: nat :: b in g.extensions && b in setting.metadata && LastFor(setting.metadata[b], i) ==>
      Shows(g.repo, setting.metadata[b][i].pid, setting.metadata[b][i].properties)
  }

  lemma EntryIsBrought(setting: Setting, b: nat, i: nat)
    requires b in setting.metadata && i < |setting.metadata[b]|
    ensures Brings(setting, b, setting.metadata[b][i].pid)
  {
    assert setting.metadata[b][i] in setting.metadata[b];
  }

  lemma CreateShowsEntry(g: Registry, setting: Setting, b: nat, c: nat, i: nat)
    requires Disjoint(setting) && Wired(g.repo) && Sound(g, setting) && ShowsTheLast(g, setting) && b != setting.own
    requires Create(g, setting, b) != g && c in Create(g, setting, b).extensions
    requires c in setting.metadata && LastFor(setting.metadata[c], i)
    ensures Shows(Create(g, setting, b).repo, setting.metadata[c][i].pid, setting.metadata[c][i].properties)
  {
    hide AddAll, About;
    if c == b {
      AdditionStoresTheLast(g.repo, setting.metadata[b], i);
    } else {
      EntryOfRegistered(g, setting, b, c, i);
      AddElsewhere(g.repo, setting.metadata[b], setting.metadata[c][i].pid);
      hide Sound;
      assert Shows(g.repo, setting.metadata[c][i].pid, setting.metadata[c][i].properties);
    }
  }

  lemma EntryOfRegistered(g: Registry, setting: Setting, b: nat, c: nat, i: nat)
    requires Disjoint(setting) && Wired(g.repo) && Sound(g, setting) && b != setting.own && b != c
    requires c in g.extensions && c in setting.metadata && LastFor(setting.metadata[c], i) && b in setting.metadata
    ensures !About(setting.metadata[b], setting.metadata[c][i].pid)
  {
    EntryIsBrought(setting, c, i);
    assert !Brings(setting, b, setting.metadata[c][i].pid);
  }

  lemma CreateShows(g: Registry, setting: Setting, b: nat)
    requires Disjoint(setting) && Wired(g.repo) && Sound(g, setting) && ShowsTheLast(g, setting) && b != setting.own
    ensures ShowsTheLast(Create(g, setting, b), setting)
  {
    var g' := Create(g, setting, b);
    if g' != g {
      hide AddAll, Shows, Sound, Disjoint, Create;
      forall c, i: nat | c in g'.extensions && c in setting.metadata && LastFor(setting.metadata[c], i)
        ensures Shows(g'.repo, setting.metadata[c][i].pid, setting.metadata[c][i].properties)
      {
        CreateShowsEntry(g, setting, b, c, i);
      }
    }
  }

  lemma DiscardShows(g: Registry, setting: Setting, b: nat)
    requires Disjoint(setting) && Wired(g.repo) && Sound(g, setting) && ShowsTheLast(g, setting) && b != setting.own
    ensures ShowsTheLast(Discard(g, setting, b), setting)
  {
    var g' := Discard(g, setting, b);
    if g' != g {
      forall c, i: nat | c in g'.extensions && c in setting.metadata && LastFor(setting.metadata[c], i)
        ensures Shows(g'.repo, setting.metadata[c][i].pid, setting.metadata[c][i].properties)
      {
        EntryIsBrought(setting, c, i);
        DiscardOnePid(g, setting, b, setting.metadata[c][i].pid);
      }
    }
  }

  lemma {:induction false} EventsShow(setting: Setting, events: seq<Event>)
    requires Disjoint(setting)
    ensures ShowsTheLast(After(setting, events), setting)
  {
    if events != [] {
      var n := |events| - 1;
      EventsShow(setting, events[..n]);
      EventsSound(setting, events[..n]);
      var g := After(setting, events[..n]);
      hide After, Create, Discard, Sound, ShowsTheLast, Disjoint;
      if events[n].bundle != setting.own {
        match events[n]
        case Started(b) => CreateShows(g, setting, b);
        case Stopping(b) => DiscardShows(g, setting, b);
        case Other(_) =>
      }
    }
  }

  /** If no two bundles share a PID, then after any events a PID that a bundle brings is mapped exactly while
      the bundle runs, and leads to a live object with the properties of the bundle's last entry for it. */
  lemma MappedWhileRunning(setting: Setting, events: seq<Event>, b: nat, i: nat)
    requires forall c, d, j, k :: c in setting.metadata && d in setting.metadata && c != d && c != setting.own && d != setting.own
               && 0 <= j < |setting.metadata[c]| && 0 <= k < |setting.metadata[d]|
               ==> setting.metadata[c][j].pid != setting.metadata[d][k].pid
    requires b in setting.metadata && b != setting.own && i < |setting.metadata[b]|
    ensures var r, m := After(setting, events).repo, setting.metadata[b][i];
            && (m.pid in r.configurations <==>
                  exists k :: 0 <= k < |events| && events[k] == Started(b) && forall l :: k < l < |events| ==> events[l] != Stopping(b))
            && (m.pid in r.configurations && (forall j :: i < j < |setting.metadata[b]| ==> setting.metadata[b][j].pid != m.pid) ==>
                  !r.objects[r.configurations[m.pid]].removed && r.objects[r.configurations[m.pid]].properties == m.properties)
  {
    var pid := setting.metadata[b][i].pid;
    NoneShared(setting);
    EventsSound(setting, events);
    EventsShow(setting, events);
    EntryIsBrought(setting, b, i);
    RegisteredIffRunning(setting, events, b);
    RunningExactly(setting, events, b);
    var g := After(setting, events);
    assert pid in g.repo.configurations <==> b in g.extensions by {
      if c :| c in g.extensions && Brings(setting, c, pid) { assert c == b; }
    }
    if k: nat :| StartsLast(events, b, k) { assert events[k] == Started(b); }
    if k :| 0 <= k < |events| && events[k] == Started(b) && forall l :: k < l < |events| ==> events[l] != Stopping(b) {
      assert StartsLast(events, b, k);
    }
    if b in g.extensions && forall j :: i < j < |setting.metadata[b]| ==> setting.metadata[b][j].pid != pid {
      assert LastFor(setting.metadata[b], i);
    }
  }

  lemma NoneShared(setting: Setting)
    requires forall c, d, j, k :: c in setting.metadata && d in setting.metadata && c != d && c != setting.own && d != setting.own
               && 0 <= j < |setting.metadata[c]| && 0 <= k < |setting.metadata[d]|
               ==> setting.metadata[c][j].pid != setting.metadata[d][k].pid
    ensures Disjoint(setting)
  {
    forall c, d, pid | c != setting.own && d != setting.own && Brings(setting, c, pid) && Brings(setting, d, pid) ensures c == d {
      var j :| 0 <= j < |setting.metadata[c]| && setting.metadata[c][j].pid == pid;
      var k :| 0 <= k < |setting.metadata[d]| && setting.metadata[d][k].pid == pid;
    }
  }

  /** And a PID that no bundle but the activator's own brings is never mapped. */
  lemma {:induction false} NothingElseMapped(setting: Setting, events: seq<Event>, pid: string)
    requires forall b, i :: b in setting.metadata && b != setting.own && 0 <= i < |setting.metadata[b]| ==> setting.metadata[b][i].pid != pid
    ensures pid !in After(setting, events).repo.configurations
  {
    if events != [] {
      var n := |events| - 1;
      NothingElseMapped(setting, events[..n], pid);
      var g, b := After(setting, events[..n]), events[n].bundle;
      hide AddAll, RemoveAll;
      if b in setting.metadata && b != setting.own {
        assert !About(setting.metadata[b], pid);
        AddElsewhere(g.repo, setting.metadata[b], pid);
        if b in g.extensions { RemovalMapsNothing(g.repo, g.extensions[b], pid); }
      }
    }
  }
}
