/** Merging the manifests of a bundle into one: when it succeeds, and when the result does not depend on
    the order in which the hash map hands the manifests out. */
module Manifests {

  /** A JSON value: null, or anything else by an identity. */
  datatype Json = Null | Other(id: nat)

  /** The members of a JSON object. */
  type Object = map<string, Json>

  datatype Merged = Root(members: Object) | Duplicate(key: string)

  /** The keys of the object that the root holds already, with a value that is not null. */
  function Clashes(root: Object, m: Object): set<string> {
    set k | k in m && k in root && root[k] != Null
  }

  /** Copies the members of one manifest into the root, up to the first clash. */
  method Include(root: Object, manifest: Object) returns (r: Merged)
    ensures r.Root? <==> Clashes(root, manifest) == {}
    ensures r.Root? ==> r.members == root + manifest
    ensures r.Duplicate? ==> r.key in Clashes(root, manifest)
  {
    var members := root;
    var todo := manifest.Keys;
    while todo != {}
      invariant todo <= manifest.Keys
      invariant members.Keys == root.Keys + (manifest.Keys - todo)
      invariant forall k :: k in members ==>
                  members[k] == if k in manifest && k !in todo then manifest[k] else root[k]
      invariant forall k :: k in manifest && k !in todo ==> k !in Clashes(root, manifest)
      decreases |todo|
    {
      var k :| k in todo;
      if k !in members || members[k] == Null {
        members := members[k := manifest[k]];
      } else {
        assert k in Clashes(root, manifest);
        return Duplicate(k);
      }
      todo := todo - {k};
    }
    assert members == root + manifest;
    return Root(members);
  }

  /** The root after a number of manifests, each added to what is there. */
  function Sum(ms: seq<Object>): Object {
    if ms == [] then map[] else Sum(ms[..|ms| - 1]) + ms[|ms| - 1]
  }

  ghost predicate Succeeds(ms: seq<Object>) {
    forall j :: 0 <= j < |ms| ==> Clashes(Sum(ms[..j]), ms[j]) == {}
  }

  method AggregateManifests(manifests: seq<Object>) returns (r: Merged)
    ensures r.Root? <==> Succeeds(manifests)
    ensures r.Root? ==> r.members == Sum(manifests)
    ensures r.Duplicate? ==> exists i, j :: 0 <= i < j < |manifests| && r.key in manifests[i] && manifests[i][r.key] != Null && r.key in manifests[j]
  {
    hide Clashes, Sum;
    r := Root(map[]);
    NothingYet(manifests);
    for i := 0 to |manifests|
      invariant r.Root? && r.members == Sum(manifests[..i])
      invariant forall j :: 0 <= j < i ==> Clashes(Sum(manifests[..j]), manifests[j]) == {}
    {
      SumNext(manifests, i);
      r := Include(r.members, manifests[i]);
      if r.Duplicate? {
        assert Clashes(Sum(manifests[..i]), manifests[i]) != {};
        ClashComesBack(manifests, i, r.key);
        return;
      }
    }
    assert manifests[..|manifests|] == manifests;
  }

  lemma NothingYet(ms: seq<Object>)
    ensures Sum(ms[..0]) == map[]
  {
  }

  lemma SumNext(ms: seq<Object>, i: nat)
    requires i < |ms|
    ensures Sum(ms[..i + 1]) == Sum(ms[..i]) + ms[i]
  {
    assert ms[..i + 1][..i] == ms[..i];
  }

  // ---- when the merge succeeds ---------------------------------------------------------------

  /** Manifest i has the key, and no manifest between i and j does. */
  predicate LastWith(ms: seq<Object>, j: nat, k: string, i: nat)
    requires j <= |ms|
  {
    i < j && k in ms[i] && forall l :: i < l < j ==> k !in ms[l]
  }

  lemma {:induction false} SumLooksUp(ms: seq<Object>, j: nat, k: string) returns (i: nat)
    requires j <= |ms|
    ensures k in Sum(ms[..j]) ==> LastWith(ms, j, k, i) && Sum(ms[..j])[k] == ms[i][k]
    ensures k !in Sum(ms[..j]) ==> forall l :: 0 <= l < j ==> k !in ms[l]
  {
    i := 0;
    if j > 0 {
      assert ms[..j][..j - 1] == ms[..j - 1];
      if k in ms[j - 1] {
        i := j - 1;
      } else {
        i := SumLooksUp(ms, j - 1, k);
      }
    }
  }

  /** A key that comes back later was null so far. */
  predicate NullBefore(ms: seq<Object>) {
    forall i, j, k :: 0 <= i < j < |ms| && k in ms[i] && k in ms[j] ==> ms[i][k] == Null
  }

  /** The merge, in the order given, succeeds exactly if no key with a value comes back later. */
  lemma SucceedsExactly(ms: seq<Object>)
    ensures Succeeds(ms) <==> NullBefore(ms)
  {
    if Succeeds(ms) {
      forall i, j, k | 0 <= i < j < |ms| && k in ms[i] && k in ms[j] ensures ms[i][k] == Null {
        NullUpTo(ms, i, j, k);
      }
    }
    if NullBefore(ms) {
      forall j | 0 <= j < |ms| ensures Clashes(Sum(ms[..j]), ms[j]) == {} {
        forall k | k in ms[j] ensures k !in Clashes(Sum(ms[..j]), ms[j]) {
          var i := SumLooksUp(ms, j, k);
        }
      }
    }
  }

  lemma {:induction false} NullUpTo(ms: seq<Object>, i: nat, j: nat, k: string)
    requires Succeeds(ms) && i < j < |ms| && k in ms[i] && k in ms[j]
    ensures ms[i][k] == Null
    decreases j - i
  {
    var l := SumLooksUp(ms, j, k);
    assert k !in Clashes(Sum(ms[..j]), ms[j]);
    if l > i {
      NullUpTo(ms, i, l, k);
    }
  }

  /** In the terms of the manifests: the merge succeeds exactly if a key that comes back was null before, and
      the root then has the keys of all manifests, each with the value of the last manifest that has it. */
  lemma MergedExactly(ms: seq<Object>)
    ensures Succeeds(ms) <==> forall i, j, k :: 0 <= i < j < |ms| && k in ms[i] && k in ms[j] ==> ms[i][k] == Null
    ensures forall k :: k in Sum(ms) <==> exists i :: 0 <= i < |ms| && k in ms[i]
    ensures forall i, k :: 0 <= i < |ms| && k in ms[i] && (forall l :: i < l < |ms| ==> k !in ms[l]) ==> k in Sum(ms) && Sum(ms)[k] == ms[i][k]
  {
    SucceedsExactly(ms);
    assert ms[..|ms|] == ms;
    forall k ensures k in Sum(ms) <==> exists i :: 0 <= i < |ms| && k in ms[i] {
      var i := SumLooksUp(ms, |ms|, k);
    }
    forall i, k | 0 <= i < |ms| && k in ms[i] && (forall l :: i < l < |ms| ==> k !in ms[l])
      ensures k in Sum(ms) && Sum(ms)[k] == ms[i][k]
    {
      var j := SumLooksUp(ms, |ms|, k);
      assert j <= i && i <= j;
    }
  }

  lemma ClashComesBack(ms: seq<Object>, j: nat, k: string)
    requires j < |ms| && k in Clashes(Sum(ms[..j]), ms[j])
    ensures k in ms[j] && exists i :: 0 <= i < j && k in ms[i] && ms[i][k] != Null
  {
    var i := SumLooksUp(ms, j, k);
  }

  predicate NoNulls(ms: seq<Object>) {
    forall i, k :: 0 <= i < |ms| && k in ms[i] ==> ms[i][k] != Null
  }

  predicate DisjointKeys(ms: seq<Object>) {
    forall i, j, k :: 0 <= i < j < |ms| && k in ms[i] ==> k !in ms[j]
  }

  /** Without null members: exactly if no two manifests share a key. */
  lemma SucceedsIffDisjoint(ms: seq<Object>)
    requires NoNulls(ms)
    ensures Succeeds(ms) <==> DisjointKeys(ms)
  {
    SucceedsExactly(ms);
    if NullBefore(ms) {
      forall i, j, k | 0 <= i < j < |ms| && k in ms[i] ensures k !in ms[j] {
        assert ms[i][k] != Null;
      }
    }
  }

  // ---- the order of the hash map -------------------------------------------------------------

  /** The numbers below n, each once, in any order. */
  ghost predicate Order(p: seq<nat>, n: nat) {
    && |p| == n
    && (forall i :: 0 <= i < n ==> p[i] < n)
    && (forall i, j :: 0 <= i < j < n ==> p[i] != p[j])
    && (forall x :: 0 <= x < n ==> x in p)
  }

  function Arranged(ms: seq<Object>, p: seq<nat>): (r: seq<Object>)
    requires Order(p, |ms|)
    ensures |r| == |ms| && forall i :: 0 <= i < |r| ==> r[i] == ms[p[i]]
  {
    seq(|ms|, i requires 0 <= i < |ms| => ms[p[i]])
  }

  /** Keys that come in two manifests are null in both. */
  predicate SharedKeysAreNull(ms: seq<Object>) {
    forall i, j, k :: 0 <= i < |ms| && 0 <= j < |ms| && i != j && k in ms[i] && k in ms[j] ==> ms[i][k] == Null
  }

  lemma SharedInAnyOrder(ms: seq<Object>, p: seq<nat>)
    requires SharedKeysAreNull(ms) && Order(p, |ms|)
    ensures NullBefore(Arranged(ms, p)) && SharedKeysAreNull(Arranged(ms, p))
  {
    var ns := Arranged(ms, p);
    forall i, j, k | 0 <= i < |ns| && 0 <= j < |ns| && i != j && k in ns[i] && k in ns[j] ensures ns[i][k] == Null {
      assert p[i] != p[j];
    }
  }

  lemma SumHolds(ms: seq<Object>, i: nat, k: string)
    requires SharedKeysAreNull(ms) && i < |ms| && k in ms[i]
    ensures k in Sum(ms) && Sum(ms)[k] == ms[i][k]
  {
    assert ms[..|ms|] == ms;
    var j := SumLooksUp(ms, |ms|, k);
    if i != j {
      assert ms[i][k] == Null && (k in ms[j] ==> ms[j][k] == Null);
    }
  }

  lemma SumComesFrom(ms: seq<Object>, k: string) returns (i: nat)
    requires k in Sum(ms)
    ensures i < |ms| && k in ms[i]
  {
    assert ms[..|ms|] == ms;
    i := SumLooksUp(ms, |ms|, k);
  }

  lemma PlaceOf(p: seq<nat>, n: nat, x: nat) returns (i: nat)
    requires Order(p, n) && x < n
    ensures i < n && p[i] == x
  {
    assert x in p;
    i :| 0 <= i < |p| && p[i] == x;
  }

  /** The same root in any order. */
  lemma SameRoot(ms: seq<Object>, p: seq<nat>)
    requires SharedKeysAreNull(ms) && Order(p, |ms|)
    ensures Sum(Arranged(ms, p)) == Sum(ms)
  {
    hide Sum, SharedKeysAreNull, Order;
    var ns := Arranged(ms, p);
    SharedInAnyOrder(ms, p);
    forall k | k in Sum(ms) ensures k in Sum(ns) && Sum(ns)[k] == Sum(ms)[k] {
      var i := SumComesFrom(ms, k);
      var x := PlaceOf(p, |ms|, i);
      SumHolds(ms, i, k);
      SumHolds(ns, x, k);
    }
    forall k | k in Sum(ns) ensures k in Sum(ms) {
      var x := SumComesFrom(ns, k);
      InRange(p, |ms|, x);
      SumHolds(ms, p[x], k);
    }
  }

  lemma InRange(p: seq<nat>, n: nat, x: nat)
    requires Order(p, n) && x < n
    ensures |p| == n && p[x] < n
  {
  }

  function Counting(n: nat): (p: seq<nat>)
    ensures |p| == n && forall i :: 0 <= i < n ==> p[i] == i
  {
    seq(n, i => i)
  }

  lemma CountingIsOrder(n: nat)
    ensures Order(Counting(n), n)
  {
    var p := Counting(n);
    forall x | 0 <= x < n ensures x in p {
      assert p[x] == x;
    }
  }

  lemma SwapIsOrder(n: nat, i: nat, j: nat)
    requires i < j < n
    ensures Order(Counting(n)[i := j][j := i], n)
  {
    var p := Counting(n)[i := j][j := i];
    forall x | 0 <= x < n ensures x in p {
      assert p[if x == i then j else if x == j then i else x] == x;
    }
  }

  /** For any manifests, null members and all: every order succeeds exactly if shared keys are null
      everywhere, and then every order gives the same root. */
  lemma OrderIsIrrelevantExactly(ms: seq<Object>)
    ensures (forall p :: Order(p, |ms|) ==> Succeeds(Arranged(ms, p))) <==> SharedKeysAreNull(ms)
    ensures SharedKeysAreNull(ms) ==> forall p :: Order(p, |ms|) ==> Sum(Arranged(ms, p)) == Sum(ms)
  {
    if SharedKeysAreNull(ms) {
      forall p | Order(p, |ms|) ensures Succeeds(Arranged(ms, p)) && Sum(Arranged(ms, p)) == Sum(ms) {
        SharedInAnyOrder(ms, p);
        SucceedsExactly(Arranged(ms, p));
        SameRoot(ms, p);
      }
    }
    if forall p :: Order(p, |ms|) ==> Succeeds(Arranged(ms, p)) {
      forall i, j, k | 0 <= i < |ms| && 0 <= j < |ms| && i != j && k in ms[i] && k in ms[j]
        ensures ms[i][k] == Null
      {
        SharedIsNull(ms, i, j, k);
      }
    }
  }

  lemma SharedIsNull(ms: seq<Object>, i: nat, j: nat, k: string)
    requires forall p :: Order(p, |ms|) ==> Succeeds(Arranged(ms, p))
    requires i < |ms| && j < |ms| && i != j && k in ms[i] && k in ms[j]
    ensures ms[i][k] == Null
  {
    var n := |ms|;
    if i < j {
      CountingIsOrder(n);
      var ns := Arranged(ms, Counting(n));
      SucceedsExactly(ns);
      assert ns[i] == ms[i] && ns[j] == ms[j];
    } else {
      SwapIsOrder(n, j, i);
      var ns := Arranged(ms, Counting(n)[j := i][i := j]);
      SucceedsExactly(ns);
      assert ns[j] == ms[i] && ns[i] == ms[j];
    }
  }

  /** Without null members the order never matters: either every order succeeds, with the same root, or
      none does. */
  lemma OrderNeverMattersWithoutNulls(ms: seq<Object>, p: seq<nat>)
    requires NoNulls(ms) && Order(p, |ms|)
    ensures Succeeds(Arranged(ms, p)) <==> Succeeds(ms)
    ensures Succeeds(ms) ==> Sum(Arranged(ms, p)) == Sum(ms)
  {
    hide Succeeds, Sum;
    var ns := Arranged(ms, p);
    assert NoNulls(ns);
    hide Order;
    SucceedsIffDisjoint(ms);
    SucceedsIffDisjoint(ns);
    if DisjointKeys(ns) {
      DisjointInAnyOrder(ms, p);
    }
    if DisjointKeys(ms) {
      SharedInAnyOrder(ms, p);
      SucceedsExactly(ns);
      SameRoot(ms, p);
    }
  }

  lemma DisjointInAnyOrder(ms: seq<Object>, p: seq<nat>)
    requires Order(p, |ms|) && DisjointKeys(Arranged(ms, p))
    ensures DisjointKeys(ms)
  {
    hide Order;
    var ns := Arranged(ms, p);
    forall i, j, k | 0 <= i < j < |ms| && k in ms[i] ensures k !in ms[j] {
      var x := PlaceOf(p, |ms|, i);
      var y := PlaceOf(p, |ms|, j);
      assert ns[x] == ms[i] && ns[y] == ms[j];
    }
  }

  /** With a null member it does: the same two manifests merge in one order and clash in the other. */
  lemma NullMakesOrderMatter(k: string, v: nat)
    ensures var a, b := map[k := Null], map[k := Other(v)];
            Succeeds([a, b]) && !Succeeds([b, a])
  {
    var a: Object, b: Object := map[k := Null], map[k := Other(v)];
    SucceedsExactly([a, b]);
    SucceedsExactly([b, a]);
    assert [b, a][0][k] != Null && k in [b, a][1];
  }
}
