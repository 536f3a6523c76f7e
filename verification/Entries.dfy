/** Under which names things end up in a bundle archive, and which names of merged archives are taken for
    manifests. */
module Entries {
  import opened Archive

  // ---- one resource --------------------------------------------------------------------------

  /** The part of a path behind its last separator, or all of it. */
  predicate BehindLast(path: string, separator: char, rest: string) {
    && |rest| <= |path| && path[|path| - |rest|..] == rest && separator !in rest
    && (|rest| < |path| ==> path[|path| - |rest| - 1] == separator)
  }

  lemma BaseNameIsBehindLast(path: string, separator: char)
    ensures BehindLast(path, separator, BaseName(path, separator))
  {
    var pos := LastBefore(path, separator, |path|);
    NoneBehind(path, separator, pos + 1);
    CutBehind(path, separator, pos + 1);
    hide LastBefore, BehindLast;
  }

  lemma CutBehind(path: string, separator: char, from: nat)
    requires from <= |path| && separator !in path[from..] && (from > 0 ==> path[from - 1] == separator)
    ensures BehindLast(path, separator, path[from..])
  {
    assert |path| - |path[from..]| == from;
  }

  lemma NoneBehind(path: string, separator: char, from: nat)
    requires from <= |path| && forall i :: from <= i < |path| ==> path[i] != separator
    ensures separator !in path[from..]
  {
  }

  lemma NotShorter(path: string, separator: char, a: string, b: string)
    requires BehindLast(path, separator, a) && BehindLast(path, separator, b)
    ensures |b| <= |a|
  {
    assert forall i :: 0 <= i < |b| ==> b[i] == path[|path| - |b| + i];
  }

  lemma OnlyOneBehindLast(path: string, separator: char, a: string, b: string)
    requires BehindLast(path, separator, a) && BehindLast(path, separator, b)
    ensures a == b
  {
    NotShorter(path, separator, a, b);
    NotShorter(path, separator, b, a);
  }

  /** A resource is recorded as `bundle/name`, a manifest under its file name alone, and written before its
      directories; refused are a name recorded before and a manifest that does not parse. */
  lemma ResourceIsNamed(z: Zip, bundle: string, separator: char, name: string, isManifest: bool, manifestOk: bool, rest: string)
    requires if isManifest then BehindLast(name, separator, rest) else rest == name
    ensures var entry := bundle + "/" + rest;
            var outcome := Apply(z, bundle, separator, Resource(name, isManifest, manifestOk));
            && (outcome.Failed? <==> ((isManifest || name == "manifest.json") && !manifestOk) || entry in z.names)
            && (outcome.Done? ==>
                  && outcome.zip.names == z.names + {entry} && z.entries + [entry] <= outcome.zip.entries
                  && forall d :: d in outcome.zip.dirs <==> d in z.dirs || (d <= entry && d != "" && d[|d| - 1] == '/'))
  {
    var entry := bundle + "/" + rest;
    if isManifest {
      BaseNameIsBehindLast(name, separator);
      OnlyOneBehindLast(name, separator, rest, BaseName(name, separator));
    }
    assert bundle + "/" + rest == ResourceEntry(bundle, name, isManifest, separator);
    hide BaseName;
    ParentsAdded(z.(names := z.names + {entry}, entries := z.entries + [entry]), entry, 0);
    ParentsComeLater(z.(names := z.names + {entry}, entries := z.entries + [entry]), entry, 0);
    forall d ensures d in Parents(entry) <==> d <= entry && d != "" && d[|d| - 1] == '/' {
      ParentsArePrefixes(entry, d);
    }
    hide AddParents, Parents;
  }

  lemma {:induction false} ParentsComeLater(z: Zip, entry: string, from: nat)
    ensures z.entries <= AddParents(z, entry, from).entries
    decreases |entry| - from
  {
    if from < |entry| {
      ParentsComeLater(if entry[from] == '/' then AddDirectory(z, entry[..from + 1]) else z, entry, from + 1);
    }
  }

  lemma ParentsArePrefixes(entry: string, d: string)
    ensures d in Parents(entry) <==> d <= entry && d != "" && d[|d| - 1] == '/'
  {
    if d <= entry && d != "" && d[|d| - 1] == '/' {
      var i := |d| - 1;
      assert entry[i] == '/' && entry[..i + 1] == d;
    }
  }

  /** The aggregated manifest is `bundle/manifest.json`, and its directory `bundle/`. */
  lemma ManifestIsNamed(z: Zip, bundle: string, separator: char)
    ensures var outcome := Apply(z, bundle, separator, Manifest);
            && (outcome.Failed? <==> bundle + "/manifest.json" in z.names)
            && (outcome.Done? ==> outcome.zip.names == z.names + {bundle + "/manifest.json"}
                                  && outcome.zip.dirs == z.dirs + {bundle + "/"})
  {
    assert "/" + "manifest.json" == "/manifest.json";
    assert bundle + "/" + MANIFEST == bundle + "/manifest.json";
  }

  /** Over every successful run without merged archives: every file is inside the bundle's directory. */
  lemma NamesStandInTheBundle(bundle: string, separator: char, ops: seq<Op>, n: string)
    requires Run(EMPTY_ZIP, bundle, separator, ops).Done? && n in Run(EMPTY_ZIP, bundle, separator, ops).zip.names
    requires forall op :: op in ops ==> !op.Archive?
    ensures bundle + "/" <= n
  {
    RunRecords(EMPTY_ZIP, bundle, separator, ops);
    hide Run;
    var op :| op in ops && n in FilesOf(bundle, separator, op);
    if op.Resource? {
      assert n == bundle + "/" + if op.isManifest then BaseName(op.name, separator) else op.name;
    }
  }

  // ---- merged archives -----------------------------------------------------------------------

  /** Taken for a manifest is a name whose only slash stands in front of `manifest.json`. */
  lemma NamesManifestExactly(s: string)
    ensures NamesManifest(s) <==> exists d, e :: '/' !in d && '/' !in e && s == d + "/manifest.json" + e
  {
    if NamesManifest(s) {
      var i :| 0 <= i < |s| && OccursAt(s, "/" + MANIFEST, i);
      assert OccursAt(s, "/manifest.json", i);
      var d, e := SplitAtManifest(s, i);
    }
    if d, e :| '/' !in d && '/' !in e && s == d + "/manifest.json" + e {
      SplitNamesManifest(d, e);
    }
  }

  lemma SplitAtManifest(s: string, i: nat) returns (d: string, e: string)
    requires OneSlash(s) && OccursAt(s, "/manifest.json", i)
    ensures '/' !in d && '/' !in e && s == d + "/manifest.json" + e
  {
    d, e := s[..i], s[i + 14..];
    assert s[i] == s[i..i + 14][0];
    assert forall j :: 0 <= j < |d| ==> d[j] == s[j];
    assert forall j :: 0 <= j < |e| ==> e[j] == s[i + 14 + j];
  }

  lemma SplitNamesManifest(d: string, e: string)
    requires '/' !in d && '/' !in e
    ensures NamesManifest(d + "/manifest.json" + e)
  {
    var s, n := d + "/manifest.json" + e, |d|;
    assert s[n..n + 14] == "/manifest.json";
    assert OccursAt(s, "/" + MANIFEST, n);
    forall i | 0 <= i < |s|
      ensures s[i] == if i < n then d[i] else if i < n + 14 then "/manifest.json"[i - n] else e[i - n - 14] {
    }
    assert forall i :: 0 <= i < |s| && s[i] == '/' ==> i == n;
  }

  /** A file merged in is refused if its name is recorded, or if it is such a manifest and does not parse. */
  lemma MergedFileIsChecked(z: Zip, name: string, manifestOk: bool)
    requires name != "" && name[|name| - 1] != '/'
    ensures var outcome := Merge(z, [Entry(name, manifestOk)]);
            && (outcome.Failed? <==>
                  || name in z.names
                  || (!manifestOk && exists d, e :: '/' !in d && '/' !in e && name == d + "/manifest.json" + e))
            && (outcome.Done? ==> outcome.zip == z.(names := z.names + {name}, entries := z.entries + [name]))
  {
    NamesManifestExactly(name);
    hide NamesManifest;
    assert [Entry(name, manifestOk)][1..] == [];
  }

  /** Entries are merged one after the other, in the order of the archive. */
  lemma {:induction false} MergedInOrder(z: Zip, a: seq<Entry>, b: seq<Entry>)
    ensures Merge(z, a + b) == if Merge(z, a).Failed? then Failed else Merge(Merge(z, a).zip, b)
    decreases |a|
  {
    hide MergeOne;
    if a == [] {
      assert a + b == b;
    } else {
      assert (a + b)[0] == a[0] && (a + b)[1..] == a[1..] + b;
      if MergeOne(z, a[0]).Done? {
        MergedInOrder(MergeOne(z, a[0]).zip, a[1..], b);
      }
    }
  }

  /** A directory merged in is written once, and an entry without a name is passed over. */
  lemma MergedDirectoryIsWrittenOnce(z: Zip, name: string, manifestOk: bool)
    requires name == "" || name[|name| - 1] == '/'
    ensures var outcome := Merge(z, [Entry(name, manifestOk)]);
            outcome == Done(if name == "" || name in z.dirs then z else z.(dirs := z.dirs + {name}, entries := z.entries + [name]))
  {
    assert [Entry(name, manifestOk)][1..] == [];
  }
}
