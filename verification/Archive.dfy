/** The bookkeeping of a bundle archive: which file and directory entries are written, and in which
    order. */
module Archive {

  /** The names recorded so far, and the entries written to the archive, in order. */
  datatype Zip = Zip(names: set<string>, dirs: set<string>, entries: seq<string>)

  const EMPTY_ZIP := Zip({}, {}, [])

  datatype Outcome = Done(zip: Zip) | Failed

  /** An entry of an archive being merged; what the check of a manifest says about it. */
  datatype Entry = Entry(name: string, manifestOk: bool)

  predicate EndsInSlash(s: string) {
    s != "" && s[|s| - 1] == '/'
  }

  // ---- one entry -----------------------------------------------------------------------------

  function AddDirectory(z: Zip, dir: string): Zip {
    if dir in z.dirs then z else z.(dirs := z.dirs + {dir}, entries := z.entries + [dir])
  }

  /** A directory for every slash of the entry from a position on, from left to right. */
  function AddParents(z: Zip, entry: string, from: nat): Zip
    decreases |entry| - from
  {
    if from >= |entry| then z
    else AddParents(if entry[from] == '/' then AddDirectory(z, entry[..from + 1]) else z, entry, from + 1)
  }

  function AddFile(z: Zip, name: string): Outcome {
    if name in z.names then Failed else Done(z.(names := z.names + {name}, entries := z.entries + [name]))
  }

  const MANIFEST := "manifest.json"

  function AddManifest(z: Zip, bundle: string): Outcome {
    match AddFile(z, bundle + "/" + MANIFEST)
    case Failed => Failed
    case Done(z') => Done(AddDirectory(z', bundle + "/"))
  }

  /** What follows the last separator, or all of the name when there is none. */
  function BaseName(name: string, separator: char): string {
    name[LastBefore(name, separator, |name|) + 1..]
  }

  /** The last position below n that holds the character, or -1. */
  function LastBefore(s: string, c: char, n: nat): (pos: int)
    requires n <= |s|
    ensures -1 <= pos < n && (pos >= 0 ==> s[pos] == c)
    ensures forall i :: pos < i < n ==> s[i] != c
  {
    if n == 0 then -1 else if s[n - 1] == c then n - 1 else LastBefore(s, c, n - 1)
  }

  lemma WithoutSeparator(name: string, separator: char)
    requires LastBefore(name, separator, |name|) == -1
    ensures BaseName(name, separator) == name
  {
    hide LastBefore;
    assert name[0..] == name;
  }

  function ResourceEntry(bundle: string, resource: string, isManifest: bool, separator: char): string {
    bundle + "/" + if isManifest then BaseName(resource, separator) else resource
  }

  function AddResource(z: Zip, entry: string): Outcome {
    match AddFile(z, entry)
    case Failed => Failed
    case Done(z') => Done(AddParents(z', entry, 0))
  }

  predicate OneSlash(s: string) {
    forall i, j :: 0 <= i < |s| && 0 <= j < |s| && s[i] == '/' && s[j] == '/' ==> i == j
  }

  predicate OccursAt(s: string, t: string, i: nat) {
    i + |t| <= |s| && s[i..i + |t|] == t
  }

  /** The names whose content is checked on a merge. */
  predicate NamesManifest(s: string) {
    OneSlash(s) && exists i :: 0 <= i < |s| && OccursAt(s, "/" + MANIFEST, i)
  }

  function MergeOne(z: Zip, e: Entry): Outcome {
    if e.name == "" then Done(z)
    else if EndsInSlash(e.name) then Done(AddDirectory(z, e.name))
    else if NamesManifest(e.name) && !e.manifestOk then Failed
    else AddFile(z, e.name)
  }

  function Merge(z: Zip, es: seq<Entry>): Outcome
    decreases |es|
  {
    if es == [] then Done(z)
    else match MergeOne(z, es[0])
      case Failed => Failed
      case Done(z') => Merge(z', es[1..])
  }

  /** How far a merge gets: a refused manifest leaves its name recorded, but no entry. */
  function MergedSoFar(z: Zip, es: seq<Entry>): Zip
    decreases |es|
  {
    if es == [] then z
    else match MergeOne(z, es[0])
      case Failed => if es[0].name in z.names then z else z.(names := z.names + {es[0].name})
      case Done(z') => MergedSoFar(z', es[1..])
  }

  /** What a refused merge has written is what the entries before the refused one amount to. */
  lemma {:induction false} RefusedMerge(z: Zip, es: seq<Entry>) returns (i: nat)
    requires Merge(z, es).Failed?
    ensures i < |es| && Merge(z, es[..i]).Done? && MergeOne(Merge(z, es[..i]).zip, es[i]).Failed?
    ensures MergedSoFar(z, es).entries == Merge(z, es[..i]).zip.entries
    ensures MergedSoFar(z, es).dirs == Merge(z, es[..i]).zip.dirs
    ensures MergedSoFar(z, es).names == Merge(z, es[..i]).zip.names + {es[i].name}
    decreases |es|
  {
    if MergeOne(z, es[0]).Failed? {
      i := 0;
      assert es[..0] == [];
      var names := z.names;
      assert es[0].name in names ==> names + {es[0].name} == names;
    } else {
      var j := RefusedMerge(MergeOne(z, es[0]).zip, es[1..]);
      i := j + 1;
      assert es[..i][0] == es[0] && es[..i][1..] == es[1..][..j];
    }
  }

  // ---- the program ---------------------------------------------------------------------------

  class ZipArchive {
    const bundleName: string
    var archivedNames: set<string>
    var archivedDirs: set<string>
    var entries: seq<string>

    function Value(): Zip
      reads this
    {
      Zip(archivedNames, archivedDirs, entries)
    }

    constructor (bundleName: string)
      ensures this.bundleName == bundleName && Value() == EMPTY_ZIP
    {
      this.bundleName := bundleName;
      archivedNames, archivedDirs, entries := {}, {}, [];
    }

    method CheckAndAddToArchivedNames(archiveEntry: string) returns (ok: bool)
      modifies this`archivedNames
      ensures ok <==> archiveEntry !in old(archivedNames)
      ensures archivedNames == old(archivedNames) + {archiveEntry}
    {
      ok := archiveEntry !in archivedNames;
      archivedNames := archivedNames + {archiveEntry};
    }

    method AddDir(dirName: string)
      requires EndsInSlash(dirName)
      modifies this`archivedDirs, this`entries
      ensures Value() == AddDirectory(old(Value()), dirName)
    {
      if dirName !in archivedDirs {
        archivedDirs := archivedDirs + {dirName};
        entries := entries + [dirName];
      }
    }

    method AddManifestFile() returns (ok: bool)
      modifies this
      ensures ok <==> AddManifest(old(Value()), bundleName).Done?
      ensures if ok then Done(Value()) == AddManifest(old(Value()), bundleName) else Value() == old(Value())
    {
      var archiveEntry := bundleName + "/manifest.json";
      assert archiveEntry == bundleName + "/" + MANIFEST;
      ok := CheckAndAddToArchivedNames(archiveEntry);
      if !ok {
        assert archivedNames == old(archivedNames);
        return;
      }
      entries := entries + [archiveEntry];
      AddDir(bundleName + "/");
    }

    /** The position of the last separator, or -1. */
    method FindLast(s: string, c: char) returns (pos: int)
      ensures pos == LastBefore(s, c, |s|)
    {
      pos := |s| - 1;
      while pos >= 0 && s[pos] != c
        invariant -1 <= pos < |s| && LastBefore(s, c, |s|) == LastBefore(s, c, pos + 1)
      {
        pos := pos - 1;
      }
    }

    /** The position of the first slash from a position on, or the length. */
    method FindSlash(s: string, from: nat) returns (pos: nat)
      requires from <= |s|
      ensures from <= pos <= |s| && (pos < |s| ==> s[pos] == '/')
      ensures forall i :: from <= i < pos ==> s[i] != '/'
    {
      pos := from;
      while pos < |s| && s[pos] != '/'
        invariant from <= pos <= |s|
        invariant forall i :: from <= i < pos ==> s[i] != '/'
      {
        pos := pos + 1;
      }
    }

    method AddResourceFile(resFileName: string, isManifest: bool, manifestOk: bool, separator: char)
      returns (ok: bool)
      modifies this
      ensures var checked := isManifest || resFileName == MANIFEST;
              var r := AddResource(old(Value()), ResourceEntry(bundleName, resFileName, isManifest, separator));
              && (ok <==> (checked ==> manifestOk) && r.Done?)
              && (if ok then Done(Value()) == r else Value() == old(Value()))
    {
      if (isManifest || resFileName == MANIFEST) && !manifestOk {
        return false;
      }
      var archiveEntry := EntryName(resFileName, isManifest, separator);
      ok := AddFileEntry(archiveEntry);
    }

    method AddFileEntry(archiveEntry: string) returns (ok: bool)
      modifies this
      ensures ok <==> AddResource(old(Value()), archiveEntry).Done?
      ensures if ok then Done(Value()) == AddResource(old(Value()), archiveEntry) else Value() == old(Value())
    {
      hide AddParents;
      ok := CheckAndAddToArchivedNames(archiveEntry);
      if ok {
        entries := entries + [archiveEntry];
        AddAllParents(archiveEntry);
      } else {
        assert archivedNames == old(archivedNames);
      }
    }

    method EntryName(resFileName: string, isManifest: bool, separator: char) returns (archiveEntry: string)
      ensures archiveEntry == ResourceEntry(bundleName, resFileName, isManifest, separator)
    {
      hide BaseName;
      var archiveName := resFileName;
      if isManifest {
        archiveName := FileName(resFileName, separator);
      }
      archiveEntry := bundleName + "/" + archiveName;
    }

    /** The part behind the last separator, if there is one. */
    method FileName(path: string, separator: char) returns (name: string)
      ensures name == BaseName(path, separator)
    {
      hide LastBefore;
      var pos := FindLast(path, separator);
      if pos < 0 {
        WithoutSeparator(path, separator);
        return path;
      }
      name := path[pos + 1..];
    }

    method AddAllParents(archiveEntry: string)
      modifies this`archivedDirs, this`entries
      ensures Value() == AddParents(old(Value()), archiveEntry, 0)
    {
      var pos := FindSlash(archiveEntry, 0);
      SkipToSlash(Value(), archiveEntry, 0, pos);
      while pos < |archiveEntry|
        invariant pos <= |archiveEntry| && (pos < |archiveEntry| ==> archiveEntry[pos] == '/')
        invariant archivedNames == old(archivedNames)
        invariant AddParents(old(Value()), archiveEntry, 0) == AddParents(Value(), archiveEntry, pos)
        decreases |archiveEntry| - pos
      {
        AddDir(archiveEntry[..pos + 1]);
        var next := FindSlash(archiveEntry, pos + 1);
        SkipToSlash(Value(), archiveEntry, pos + 1, next);
        pos := next;
      }
    }

    method AddResourcesFromArchive(es: seq<Entry>) returns (ok: bool)
      modifies this
      ensures ok <==> Merge(old(Value()), es).Done?
      ensures ok ==> Done(Value()) == Merge(old(Value()), es)
      ensures Value() == MergedSoFar(old(Value()), es)
    {
      var i := 0;
      while i < |es|
        invariant i <= |es|
        invariant Merge(old(Value()), es) == Merge(Value(), es[i..])
        invariant MergedSoFar(old(Value()), es) == MergedSoFar(Value(), es[i..])
      {
        var e := es[i];
        assert es[i..][0] == e && es[i..][1..] == es[i + 1..];
        if e.name != "" {
          if e.name[|e.name| - 1] != '/' {
            ok := CheckAndAddToArchivedNames(e.name);
            if !ok || (NamesManifest(e.name) && !e.manifestOk) {
              return false;
            }
            entries := entries + [e.name];
          } else {
            AddDir(e.name);
          }
        }
        i := i + 1;
      }
      return true;
    }
  }

  lemma {:induction false} SkipToSlash(z: Zip, entry: string, from: nat, to: nat)
    requires from <= to <= |entry| && forall i :: from <= i < to ==> entry[i] != '/'
    ensures AddParents(z, entry, from) == AddParents(z, entry, to)
    decreases |entry| - from
  {
    if from < to {
      SkipToSlash(z, entry, from + 1, to);
    }
  }

  // ---- what an archive must satisfy ----------------------------------------------------------

  function Parents(entry: string): set<string> {
    ParentsFrom(entry, 0)
  }

  function ParentsFrom(entry: string, from: nat): set<string> {
    set i | from <= i < |entry| && entry[i] == '/' :: entry[..i + 1]
  }

  lemma ParentsUnfold(entry: string, from: nat)
    requires from < |entry|
    ensures ParentsFrom(entry, from) ==
            (if entry[from] == '/' then {entry[..from + 1]} else {}) + ParentsFrom(entry, from + 1)
  {
  }

  /** Every recorded name and every recorded directory has been written, each once. */
  predicate Recorded(z: Zip) {
    multiset(z.entries) == multiset(z.names) + multiset(z.dirs)
  }

  predicate DirsAreDirs(z: Zip) {
    forall d :: d in z.dirs ==> EndsInSlash(d)
  }

  /** Every slash of a file's name ends the name of a directory entry. */
  ghost predicate Closed(z: Zip) {
    forall n :: n in z.names ==> Parents(n) <= z.dirs
  }

  ghost predicate Good(z: Zip) {
    Recorded(z) && DirsAreDirs(z) && Closed(z)
  }

  /** No two entries of the archive have the same name. */
  predicate NoneTwice(z: Zip) {
    forall i, j :: 0 <= i < j < |z.entries| ==> z.entries[i] != z.entries[j]
  }

  lemma RecordedSnoc(z: Zip, name: string)
    requires Recorded(z)
    ensures name !in z.names ==> Recorded(z.(names := z.names + {name}, entries := z.entries + [name]))
    ensures name !in z.dirs ==> Recorded(z.(dirs := z.dirs + {name}, entries := z.entries + [name]))
  {
    assert multiset(z.entries + [name]) == multiset(z.entries) + multiset{name};
    if name !in z.names {
      assert multiset(z.names + {name}) == multiset(z.names) + multiset{name};
    }
    if name !in z.dirs {
      assert multiset(z.dirs + {name}) == multiset(z.dirs) + multiset{name};
    }
  }

  lemma {:induction false} ParentsRecorded(z: Zip, entry: string, from: nat)
    requires Recorded(z)
    ensures Recorded(AddParents(z, entry, from))
    decreases |entry| - from
  {
    if from < |entry| {
      RecordedSnoc(z, entry[..from + 1]);
      hide Recorded;
      ParentsRecorded(if entry[from] == '/' then AddDirectory(z, entry[..from + 1]) else z, entry, from + 1);
    }
  }

  /** Directories exactly for the slashes from a position on. */
  lemma {:induction false} ParentsAdded(z: Zip, entry: string, from: nat)
    ensures var z' := AddParents(z, entry, from);
            z'.names == z.names && z'.dirs == z.dirs + ParentsFrom(entry, from)
    decreases |entry| - from
  {
    hide ParentsFrom;
    if from < |entry| {
      ParentsUnfold(entry, from);
      var z1 := if entry[from] == '/' then AddDirectory(z, entry[..from + 1]) else z;
      ParentsAdded(z1, entry, from + 1);
    } else {
      assert ParentsFrom(entry, from) == {} by {
        NoParentsLeft(entry, from);
      }
    }
  }

  lemma NoParentsLeft(entry: string, from: nat)
    requires from >= |entry|
    ensures ParentsFrom(entry, from) == {}
  {
  }

  lemma ParentsEndInSlash(entry: string)
    ensures forall d :: d in Parents(entry) ==> EndsInSlash(d)
  {
  }

  /** Adding a resource keeps the archive good and records exactly the file and its directories. */
  lemma ResourceAdded(z: Zip, entry: string)
    requires Good(z) && AddResource(z, entry).Done?
    ensures var z' := AddResource(z, entry).zip;
            Good(z') && z'.names == z.names + {entry} && z'.dirs == z.dirs + Parents(entry)
  {
    ResourceRecords(z, entry);
    hide Recorded, Parents;
  }

  lemma ResourceRecords(z: Zip, entry: string)
    requires Recorded(z) && DirsAreDirs(z) && AddResource(z, entry).Done?
    ensures var z' := AddResource(z, entry).zip;
            && Recorded(z') && DirsAreDirs(z')
            && z'.names == z.names + {entry} && z'.dirs == z.dirs + Parents(entry)
  {
    var z1 := AddFile(z, entry).zip;
    RecordedSnoc(z, entry);
    ParentsRecorded(z1, entry, 0);
    ParentsAdded(z1, entry, 0);
    ParentsEndInSlash(entry);
    hide Recorded, ParentsFrom, EndsInSlash;
  }

  /** Adding the manifest keeps it good exactly if the directories that the bundle's name itself goes
      through are there; a name without a slash goes through none. */
  lemma ManifestAddedExactly(z: Zip, bundle: string)
    requires Good(z) && AddManifest(z, bundle).Done?
    ensures var z' := AddManifest(z, bundle).zip;
            && z'.names == z.names + {bundle + "/" + MANIFEST} && z'.dirs == z.dirs + {bundle + "/"}
            && (Good(z') <==> Parents(bundle) <= z'.dirs)
  {
    var entry := bundle + "/" + MANIFEST;
    var z1, z' := AddFile(z, entry).zip, AddManifest(z, bundle).zip;
    RecordedSnoc(z, entry);
    RecordedSnoc(z1, bundle + "/");
    ManifestParents(bundle);
    if Parents(bundle) <= z'.dirs {
      forall n | n in z'.names ensures Parents(n) <= z'.dirs {
        if n != entry {
          assert Parents(n) <= z.dirs;
        }
      }
    } else {
      assert !(Parents(entry) <= z'.dirs);
    }
  }

  lemma ManifestParents(bundle: string)
    ensures Parents(bundle + "/" + MANIFEST) == Parents(bundle) + {bundle + "/"}
  {
    var entry, n := bundle + "/" + MANIFEST, |bundle|;
    assert forall i :: 0 <= i < |MANIFEST| ==> MANIFEST[i] != '/';
    forall i | n < i < |entry| ensures entry[i] != '/' {
      assert entry[i] == MANIFEST[i - n - 1];
    }
    forall i | 0 <= i < |entry| && entry[i] == '/'
      ensures if i < n then bundle[i] == '/' && entry[..i + 1] == bundle[..i + 1]
              else i == n && entry[..i + 1] == bundle + "/"
    {
      if i < n {
        assert entry[i] == bundle[i];
      }
    }
    assert entry[n] == '/' && entry[..n + 1] == bundle + "/";
    forall d | d in Parents(bundle) ensures d in Parents(entry) {
      var i :| 0 <= i < n && bundle[i] == '/' && d == bundle[..i + 1];
      assert entry[i] == '/' && entry[..i + 1] == d;
    }
  }

  // ---- merging -------------------------------------------------------------------------------

  function FileNames(es: seq<Entry>): set<string> {
    set e | e in es && e.name != "" && !EndsInSlash(e.name) :: e.name
  }

  function DirNames(es: seq<Entry>): set<string> {
    set e | e in es && EndsInSlash(e.name) :: e.name
  }

  /** The archive merged in is closed the same way. */
  ghost predicate ClosedEntries(es: seq<Entry>) {
    forall n :: n in FileNames(es) ==> Parents(n) <= DirNames(es)
  }

  lemma {:induction false} Merged(z: Zip, es: seq<Entry>)
    requires Recorded(z) && DirsAreDirs(z) && Merge(z, es).Done?
    ensures var z' := Merge(z, es).zip;
            && Recorded(z') && DirsAreDirs(z')
            && z'.names == z.names + FileNames(es) && z'.dirs == z.dirs + DirNames(es)
            && z.names !! FileNames(es)
    decreases |es|
  {
    hide Recorded, FileNames, DirNames, DirsAreDirs, MergeOne;
    if es == [] {
      assert FileNames(es) == {} && DirNames(es) == {} by {
        NoNames(es);
      }
    } else {
      MergedOne(z, es[0]);
      NamesUnfold(es);
      Merged(MergeOne(z, es[0]).zip, es[1..]);
    }
  }

  lemma NoNames(es: seq<Entry>)
    requires es == []
    ensures FileNames(es) == {} && DirNames(es) == {}
  {
  }

  lemma MergedOne(z: Zip, e: Entry)
    requires Recorded(z) && DirsAreDirs(z) && MergeOne(z, e).Done?
    ensures var z' := MergeOne(z, e).zip;
            && Recorded(z') && DirsAreDirs(z')
            && z'.names == z.names + FileNames([e]) && z'.dirs == z.dirs + DirNames([e])
            && z.names !! FileNames([e])
  {
    RecordedSnoc(z, e.name);
    assert FileNames([e]) == if e.name != "" && !EndsInSlash(e.name) then {e.name} else {} by {
      assert e in [e];
    }
    assert DirNames([e]) == if EndsInSlash(e.name) then {e.name} else {} by {
      assert e in [e];
    }
  }

  lemma NamesUnfold(es: seq<Entry>)
    requires es != []
    ensures FileNames(es) == FileNames([es[0]]) + FileNames(es[1..])
    ensures DirNames(es) == DirNames([es[0]]) + DirNames(es[1..])
  {
    assert es == [es[0]] + es[1..];
  }

  lemma MergedIsGood(z: Zip, es: seq<Entry>)
    requires Good(z) && ClosedEntries(es) && Merge(z, es).Done?
    ensures Good(Merge(z, es).zip)
  {
    Merged(z, es);
  }

  // ---- whole runs ----------------------------------------------------------------------------

  datatype Op =
    | Manifest
    | Resource(name: string, isManifest: bool, manifestOk: bool)
    | Archive(entries: seq<Entry>)

  function Apply(z: Zip, bundle: string, separator: char, op: Op): Outcome {
    match op
    case Manifest => AddManifest(z, bundle)
    case Resource(name, isManifest, manifestOk) =>
      if (isManifest || name == MANIFEST) && !manifestOk then Failed
      else AddResource(z, ResourceEntry(bundle, name, isManifest, separator))
    case Archive(es) => Merge(z, es)
  }

  function Run(z: Zip, bundle: string, separator: char, ops: seq<Op>): Outcome
    decreases |ops|
  {
    if ops == [] then Done(z)
    else match Apply(z, bundle, separator, ops[0])
      case Failed => Failed
      case Done(z') => Run(z', bundle, separator, ops[1..])
  }

  ghost predicate Mergeable(op: Op) {
    op.Archive? ==> ClosedEntries(op.entries)
  }

  /** The names that the resources of a run are given inside the bundle. */
  predicate PlainName(op: Op, separator: char) {
    op.Resource? ==>
      var name := if op.isManifest then BaseName(op.name, separator) else op.name;
      name != "" && !EndsInSlash(name)
  }

  lemma NoSlashNoParents(bundle: string)
    requires '/' !in bundle
    ensures Parents(bundle) == {}
  {
    forall i | 0 <= i < |bundle| ensures bundle[i] != '/' {
      assert bundle[i] in bundle;
    }
  }

  lemma StepIsGood(z: Zip, bundle: string, separator: char, op: Op)
    requires Good(z) && '/' !in bundle && Mergeable(op) && Apply(z, bundle, separator, op).Done?
    ensures var z' := Apply(z, bundle, separator, op).zip;
            Good(z') && ((exists n :: n in z'.names && EndsInSlash(n)) <==>
                           (exists n :: n in z.names && EndsInSlash(n)) || !PlainName(op, separator))
  {
    var z' := Apply(z, bundle, separator, op).zip;
    match op
    case Manifest =>
      NoSlashNoParents(bundle);
      ManifestAddedExactly(z, bundle);
      assert !EndsInSlash(bundle + "/" + MANIFEST);
    case Resource(name, isManifest, _) =>
      var entry := ResourceEntry(bundle, name, isManifest, separator);
      ResourceAdded(z, entry);
      assert EndsInSlash(entry) <==> !PlainName(op, separator);
    case Archive(es) =>
      Merged(z, es);
      MergedIsGood(z, es);
  }

  lemma {:induction false} RunIsGood(z: Zip, bundle: string, separator: char, ops: seq<Op>)
    requires Good(z) && '/' !in bundle && (forall op :: op in ops ==> Mergeable(op))
    requires Run(z, bundle, separator, ops).Done?
    ensures var z' := Run(z, bundle, separator, ops).zip;
            Good(z') && ((exists n :: n in z'.names && EndsInSlash(n)) <==>
                           (exists n :: n in z.names && EndsInSlash(n))
                           || (exists op :: op in ops && !PlainName(op, separator)))
    decreases |ops|
  {
    if ops != [] {
      StepIsGood(z, bundle, separator, ops[0]);
      RunIsGood(Apply(z, bundle, separator, ops[0]).zip, bundle, separator, ops[1..]);
      assert ops == [ops[0]] + ops[1..];
    }
  }

  // ---- for every bundle name and every archive merged in --------------------------------------

  function FilesOf(bundle: string, separator: char, op: Op): set<string> {
    match op
    case Manifest => {bundle + "/" + MANIFEST}
    case Resource(name, isManifest, _) => {ResourceEntry(bundle, name, isManifest, separator)}
    case Archive(es) => FileNames(es)
  }

  function DirsOf(bundle: string, separator: char, op: Op): set<string> {
    match op
    case Manifest => {bundle + "/"}
    case Resource(name, isManifest, _) => Parents(ResourceEntry(bundle, name, isManifest, separator))
    case Archive(es) => DirNames(es)
  }

  function Files(bundle: string, separator: char, ops: seq<Op>): set<string> {
    set op, n | op in ops && n in FilesOf(bundle, separator, op) :: n
  }

  function Dirs(bundle: string, separator: char, ops: seq<Op>): set<string> {
    set op, d | op in ops && d in DirsOf(bundle, separator, op) :: d
  }

  lemma StepRecords(z: Zip, bundle: string, separator: char, op: Op)
    requires Recorded(z) && DirsAreDirs(z) && Apply(z, bundle, separator, op).Done?
    ensures var z' := Apply(z, bundle, separator, op).zip;
            && Recorded(z') && DirsAreDirs(z')
            && z'.names == z.names + FilesOf(bundle, separator, op) && z'.dirs == z.dirs + DirsOf(bundle, separator, op)
  {
    hide Parents, FileNames, DirNames;
    match op
    case Manifest =>
      RecordedSnoc(z, bundle + "/" + MANIFEST);
      RecordedSnoc(AddFile(z, bundle + "/" + MANIFEST).zip, bundle + "/");
      hide Recorded;
    case Resource(name, isManifest, _) =>
      ResourceRecords(z, ResourceEntry(bundle, name, isManifest, separator));
      hide Recorded;
    case Archive(es) => Merged(z, es);
  }

  lemma {:induction false} RunRecords(z: Zip, bundle: string, separator: char, ops: seq<Op>)
    requires Recorded(z) && DirsAreDirs(z) && Run(z, bundle, separator, ops).Done?
    ensures var z' := Run(z, bundle, separator, ops).zip;
            && Recorded(z') && DirsAreDirs(z')
            && z'.names == z.names + Files(bundle, separator, ops) && z'.dirs == z.dirs + Dirs(bundle, separator, ops)
    decreases |ops|
  {
    hide Recorded, DirsAreDirs, FilesOf, DirsOf, Apply;
    if ops != [] {
      StepRecords(z, bundle, separator, ops[0]);
      RunRecords(Apply(z, bundle, separator, ops[0]).zip, bundle, separator, ops[1..]);
      assert ops == [ops[0]] + ops[1..];
      assert Files(bundle, separator, ops) == FilesOf(bundle, separator, ops[0]) + Files(bundle, separator, ops[1..]);
      assert Dirs(bundle, separator, ops) == DirsOf(bundle, separator, ops[0]) + Dirs(bundle, separator, ops[1..]);
    }
  }

  lemma TwiceIfShared(z: Zip)
    requires Recorded(z)
    ensures NoneTwice(z) <==> z.names !! z.dirs
  {
    OnceEach(z.entries);
    if n :| n in z.names && n in z.dirs {
      assert multiset(z.names)[n] == 1 && multiset(z.dirs)[n] == 1;
      assert multiset(z.entries)[n] == 2;
    } else {
      forall e ensures multiset(z.entries)[e] <= 1 {
        assert !(e in z.names && e in z.dirs);
      }
    }
  }

  /** Over every successful run that starts with an empty archive: the archive holds exactly the files
      and the directories that its operations name, each file and each directory once; it is whole
      exactly if the directories of all these files are among them, and no entry is written twice exactly
      if no file has the name of a directory. */
  lemma ArchivesExactly(bundle: string, separator: char, ops: seq<Op>)
    requires Run(EMPTY_ZIP, bundle, separator, ops).Done?
    ensures var z := Run(EMPTY_ZIP, bundle, separator, ops).zip;
            var files, dirs := Files(bundle, separator, ops), Dirs(bundle, separator, ops);
            && multiset(z.entries) == multiset(files) + multiset(dirs)
            && (Closed(z) <==> forall n :: n in files ==> Parents(n) <= dirs)
            && (NoneTwice(z) <==> files !! dirs)
  {
    hide Files, Dirs, Parents, Run;
    RunRecords(EMPTY_ZIP, bundle, separator, ops);
    TwiceIfShared(Run(EMPTY_ZIP, bundle, separator, ops).zip);
  }

  // ---- and when that is the case -------------------------------------------------------------

  /** In a good archive some name is used twice exactly if some file's name ends in a slash. */
  lemma TwiceExactly(z: Zip)
    requires Good(z)
    ensures NoneTwice(z) <==> !exists n :: n in z.names && EndsInSlash(n)
  {
    TwiceIfShared(z);
    if n :| n in z.names && EndsInSlash(n) {
      assert n[..|n| - 1 + 1] == n;
      assert n in Parents(n);
    }
  }

  lemma {:induction false} OnceEach(s: seq<string>)
    ensures (forall i, j :: 0 <= i < j < |s| ==> s[i] != s[j]) <==> (forall e :: multiset(s)[e] <= 1)
  {
    if s != [] {
      var n := |s| - 1;
      var front, last := s[..n], s[n];
      OnceEach(front);
      assert s == front + [last];
      assert multiset(s) == multiset(front) + multiset{last};
      if forall i, j :: 0 <= i < j < |s| ==> s[i] != s[j] {
        assert forall i :: 0 <= i < n ==> front[i] == s[i] != last;
        assert last !in front && multiset(front)[last] == 0;
      }
      if forall e :: multiset(s)[e] <= 1 {
        assert multiset(s)[last] == multiset(front)[last] + 1;
        assert forall e :: multiset(front)[e] <= multiset(s)[e];
        assert last !in front;
        forall i, j | 0 <= i < j < |s| ensures s[i] != s[j] {
          assert s[i] == front[i];
        }
      }
    }
  }

  /** Over every successful run that starts with an empty archive, for a bundle name without a slash:
      the directories of every file are entries of the archive, and no entry is written twice exactly
      if every resource has a name inside the bundle that is not empty and does not end in a slash. */
  lemma ArchivesAreWhole(bundle: string, separator: char, ops: seq<Op>)
    requires '/' !in bundle && (forall op :: op in ops ==> Mergeable(op))
    requires Run(EMPTY_ZIP, bundle, separator, ops).Done?
    ensures var z := Run(EMPTY_ZIP, bundle, separator, ops).zip;
            && Closed(z) && Recorded(z)
            && (NoneTwice(z) <==> forall op :: op in ops ==> PlainName(op, separator))
  {
    RunIsGood(EMPTY_ZIP, bundle, separator, ops);
    TwiceExactly(Run(EMPTY_ZIP, bundle, separator, ops).zip);
  }
}
