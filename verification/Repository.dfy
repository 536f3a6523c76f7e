/** The configuration repository as a value: every configuration object ever made, the map from
    PID to object, and the index of factory instances.  One function for each critical section
    that changes it. */
module Repository {
  import opened Pids

  type Properties = map<string, string>

  /** How an object came to be (history, not stored by the program). */
  datatype Origin = FromClient | FromMetadata | FromReplacement(hadProperties: bool)

  /** One configuration object.  `attached` says that the back pointer to the admin is still set.
      `origin` and `writes` (effective writes so far) are history. */
  datatype Config = Config(
    pid: string,
    factoryPid: string,
    properties: Properties,
    changeCount: nat,
    removed: bool,
    attached: bool,
    origin: Origin,
    writes: nat)

  /** An object's position in `objects` is its address. */
  datatype Repo = Repo(
    objects: seq<Config>,
    configurations: map<string, nat>,
    factoryInstances: map<string, set<string>>)

  datatype Metadata = Metadata(pid: string, properties: Properties)

  /** What a caller keeps in order to undo an addition. */
  datatype Receipt = Receipt(pid: string, changeCount: nat, configurationId: nat)

  const EMPTY_REPO := Repo([], map[], map[])

  // ---- the configuration object --------------------------------------------------------------

  function NewConfig(pid: string, factoryPid: string, properties: Properties, count: nat, origin: Origin): Config {
    Config(pid, factoryPid, properties, if |properties| > 0 && count == 0 then 1 else count, false, true, origin, 0)
  }

  function Write(c: Config, properties: Properties): Config {
    c.(properties := properties, changeCount := c.changeCount + 1, writes := c.writes + 1)
  }

  function WriteIfDifferent(c: Config, properties: Properties): Config {
    if c.properties == properties then c else Write(c, properties)
  }

  /** The change count an object of this origin is born with. */
  function BirthCount(origin: Origin): nat {
    match origin
    case FromClient => 0
    case FromMetadata => 1
    case FromReplacement(hadProperties) => if hadProperties then 1 else 0
  }

  // ---- the factory index ---------------------------------------------------------------------

  function AddInstance(index: map<string, set<string>>, pid: string, factoryPid: string): map<string, set<string>> {
    if factoryPid == "" then index
    else index[factoryPid := (if factoryPid in index then index[factoryPid] else {}) + {pid}]
  }

  function RemoveInstance(index: map<string, set<string>>, pid: string): map<string, set<string>> {
    var f := FactoryPid(pid);
    if f == "" || f !in index then index
    else if index[f] - {pid} == {} then index - {f}
    else index[f := index[f] - {pid}]
  }

  // ---- critical sections on the repository ---------------------------------------------------

  /** A new object under a PID that has none. */
  function Register(r: Repo, c: Config): Repo {
    Repo(r.objects + [c],
         r.configurations[c.pid := |r.objects|],
         AddInstance(r.factoryInstances, c.pid, c.factoryPid))
  }

  function GetConfiguration(r: Repo, pid: string): Repo {
    if pid in r.configurations then r
    else Register(r, NewConfig(pid, FactoryPid(pid), map[], 0, FromClient))
  }

  /** The name is one that the retry loop accepted: the PID it gives is free. */
  function CreateFactoryConfiguration(r: Repo, factoryPid: string, name: string): Repo {
    Register(r, NewConfig(factoryPid + "~" + name, factoryPid, map[], 0, FromClient))
  }

  function Erase(r: Repo, pid: string): Repo {
    r.(configurations := r.configurations - {pid}, factoryInstances := RemoveInstance(r.factoryInstances, pid))
  }

  function SetObject(r: Repo, id: nat, c: Config): Repo
    requires id < |r.objects|
  {
    r.(objects := r.objects[id := c])
  }

  /** Every mapped PID leads to an object made for that PID. */
  ghost predicate Wired(r: Repo) {
    forall p :: p in r.configurations ==>
      r.configurations[p] < |r.objects| && r.objects[r.configurations[p]].pid == p
  }

  datatype Added = Added(repo: Repo, receipt: Receipt, detached: seq<nat>, changed: bool)

  /** One turn of the loop of AddConfigurations. */
  function AddOne(r: Repo, m: Metadata): (a: Added)
    requires Wired(r)
    ensures Wired(a.repo)
  {
    if m.pid !in r.configurations then
      var c := NewConfig(m.pid, FactoryPid(m.pid), m.properties, 1, FromMetadata);
      Added(Register(r, c), Receipt(m.pid, c.changeCount, |r.objects|), [], true)
    else
      var id := r.configurations[m.pid];
      var c := r.objects[id];
      if !c.removed then
        if c.properties == m.properties then
          Added(r, Receipt(m.pid, 0, id), [], false)
        else
          Added(SetObject(r, id, Write(c, m.properties)), Receipt(m.pid, c.changeCount + 1, id), [], true)
      else
        var substitute := NewConfig(m.pid, FactoryPid(m.pid), m.properties, 0, FromReplacement(|m.properties| > 0));
        Added(Repo(r.objects + [substitute], r.configurations[m.pid := |r.objects|], r.factoryInstances),
              Receipt(m.pid, 0, |r.objects|), [id], true)
  }

  datatype Dropped = Dropped(repo: Repo, detached: seq<nat>, erased: bool, notify: bool)

  /** One turn of the loop of RemoveConfigurations. */
  function RemoveOne(r: Repo, t: Receipt): (d: Dropped)
    requires Wired(r)
    ensures Wired(d.repo) && |d.repo.objects| == |r.objects|
  {
    if t.pid !in r.configurations || r.configurations[t.pid] != t.configurationId then
      Dropped(r, [], false, false)
    else
      var id := t.configurationId;
      var c := r.objects[id];
      if c.removed then
        Dropped(Erase(r, t.pid), [id], true, c.changeCount > 0)
      else if c.changeCount == t.changeCount then
        Dropped(Erase(SetObject(r, id, c.(removed := true)), t.pid), [id], true, c.changeCount > 0)
      else
        Dropped(r, [], false, false)
  }

  /** A notification to post: PID and announced change count. */
  datatype Notice = Notice(pid: string, changeCount: nat)

  datatype AddedAll = AddedAll(repo: Repo, receipts: seq<Receipt>, detached: seq<nat>, notices: seq<Notice>)

  /** The whole critical section of AddConfigurations. */
  function AddAll(r: Repo, metadata: seq<Metadata>): (a: AddedAll)
    requires Wired(r)
    ensures Wired(a.repo)
    ensures |a.receipts| == |metadata|
  {
    if metadata == [] then AddedAll(r, [], [], [])
    else
      var before := AddAll(r, metadata[..|metadata| - 1]);
      var one := AddOne(before.repo, metadata[|metadata| - 1]);
      AddedAll(one.repo,
               before.receipts + [one.receipt],
               before.detached + one.detached,
               before.notices + if one.changed then [Notice(one.receipt.pid, one.receipt.changeCount)] else [])
  }

  datatype DroppedAll = DroppedAll(repo: Repo, detached: seq<nat>, notices: seq<Notice>)

  /** The whole critical section of RemoveConfigurations. */
  function RemoveAll(r: Repo, receipts: seq<Receipt>): (d: DroppedAll)
    requires Wired(r)
    ensures Wired(d.repo) && |d.repo.objects| == |r.objects|
  {
    if receipts == [] then DroppedAll(r, [], [])
    else
      var before := RemoveAll(r, receipts[..|receipts| - 1]);
      var last := receipts[|receipts| - 1];
      var one := RemoveOne(before.repo, last);
      DroppedAll(one.repo,
                 before.detached + one.detached,
                 before.notices + if one.notify then [Notice(last.pid, last.changeCount)] else [])
  }

  /** What an unfiltered listing returns. */
  function Listed(r: Repo): set<nat>
    requires Wired(r)
  {
    set p | p in r.configurations && r.objects[r.configurations[p]].changeCount > 0 :: r.configurations[p]
  }
}
