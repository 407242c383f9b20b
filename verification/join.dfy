/**
 The resolver joins: each collected reference name is looked up, by exact name
 equality, among all listed objects (Secrets for the Secret names, ConfigMaps
 for the ConfigMap names), and every matching object's non-empty entries
 become `key=value` lines. Unmatched names add nothing; repeated names and
 objects sharing a name add their lines again.
 */
module Join {
  import opened Cluster

  /** The line one entry contributes: none when its value is empty. */
  function EntryLines(e: Entry): seq<string> {
    if e.value == "" then [] else [Format(e.key, e.value)]
  }

  /** The lines of one object's data, in enumeration order. */
  function ObjectLines(data: seq<Entry>): (r: seq<string>)
    ensures |r| <= |data|
  {
    if |data| == 0 then [] else EntryLines(data[0]) + ObjectLines(data[1..])
  }

  /** The lines `o` contributes to the reference name `ref`: none unless its name is `ref`. */
  function MatchLines(ref: string, o: NamedData): seq<string> {
    if o.name == ref then ObjectLines(o.data) else []
  }

  /** The lines one reference name resolves to: every object named `ref`, in listing order. */
  function ResolveName(ref: string, objects: seq<NamedData>): seq<string> {
    if |objects| == 0 then [] else MatchLines(ref, objects[0]) + ResolveName(ref, objects[1..])
  }

  /** The join: the reference names in collection order, each resolved on its own. */
  function Resolve(refs: seq<string>, objects: seq<NamedData>): seq<string> {
    if |refs| == 0 then [] else ResolveName(refs[0], objects) + Resolve(refs[1..], objects)
  }

  /** `s` repeated `k` times. */
  function Copies<T>(s: seq<T>, k: nat): (r: seq<T>)
    ensures |r| == k * |s|
  {
    if k == 0 then [] else s + Copies(s, k - 1)
  }

  /** `data` holds an entry with a non-empty value that formats to `line`. */
  ghost predicate Supplies(data: seq<Entry>, line: string) {
    exists e :: e in data && e.value != "" && line == Format(e.key, e.value)
  }

  /** Some key of `m` with a non-empty value formats, with its value, to `line`. */
  ghost predicate MapSupplies(m: map<string, string>, line: string) {
    exists k :: k in NonEmptyKeys(m) && line == Format(k, m[k])
  }

  /** Number of non-empty keys of `ref`'s objects, summed over every object named `ref`. */
  ghost function NameKeyCount(ref: string, objects: seq<NamedData>): nat
    requires AllDistinctKeys(objects)
  {
    if |objects| == 0 then 0
    else
      assert objects[0] in objects;
      var own := if objects[0].name == ref then |NonEmptyKeys(DataMap(objects[0].data))| else 0;
      own + NameKeyCount(ref, objects[1..])
  }

  /** `NameKeyCount` summed over every reference occurrence. */
  ghost function RefsKeyCount(refs: seq<string>, objects: seq<NamedData>): nat
    requires AllDistinctKeys(objects)
  {
    if |refs| == 0 then 0 else NameKeyCount(refs[0], objects) + RefsKeyCount(refs[1..], objects)
  }

  // ---------------------------------------------------------------------------
  // Concatenation.

  lemma {:induction false} ObjectLinesAppend(a: seq<Entry>, b: seq<Entry>)
    ensures ObjectLines(a + b) == ObjectLines(a) + ObjectLines(b)
    decreases |a|
  {
    if |a| == 0 {
      assert a + b == b;
    } else {
      assert (a + b)[1..] == a[1..] + b;
      ObjectLinesAppend(a[1..], b);
    }
  }

  lemma {:induction false} ResolveNameAppend(ref: string, a: seq<NamedData>, b: seq<NamedData>)
    ensures ResolveName(ref, a + b) == ResolveName(ref, a) + ResolveName(ref, b)
    decreases |a|
  {
    if |a| == 0 {
      assert a + b == b;
    } else {
      assert (a + b)[1..] == a[1..] + b;
      ResolveNameAppend(ref, a[1..], b);
    }
  }

  /** The join of two runs of reference names is the join of the first, then of the second. */
  lemma {:induction false} ResolveAppend(a: seq<string>, b: seq<string>, objects: seq<NamedData>)
    ensures Resolve(a + b, objects) == Resolve(a, objects) + Resolve(b, objects)
    decreases |a|
  {
    if |a| == 0 {
      assert a + b == b;
    } else {
      assert (a + b)[1..] == a[1..] + b;
      ResolveAppend(a[1..], b, objects);
    }
  }

  lemma {:induction false} ObjectLinesSnoc(a: seq<Entry>, e: Entry)
    ensures ObjectLines(a + [e]) == ObjectLines(a) + EntryLines(e)
  {
    ObjectLinesAppend(a, [e]);
    assert [e][1..] == [];
    assert ObjectLines([e]) == EntryLines(e) + ObjectLines([]);
  }

  lemma {:induction false} ResolveNameSnoc(ref: string, a: seq<NamedData>, o: NamedData)
    ensures ResolveName(ref, a + [o]) == ResolveName(ref, a) + MatchLines(ref, o)
  {
    ResolveNameAppend(ref, a, [o]);
    assert [o][1..] == [];
    assert ResolveName(ref, [o]) == MatchLines(ref, o) + ResolveName(ref, []);
  }

  lemma {:induction false} ResolveSnoc(refs: seq<string>, ref: string, objects: seq<NamedData>)
    ensures Resolve(refs + [ref], objects) == Resolve(refs, objects) + ResolveName(ref, objects)
  {
    ResolveAppend(refs, [ref], objects);
    assert [ref][1..] == [];
    assert Resolve([ref], objects) == ResolveName(ref, objects) + Resolve([], objects);
  }

  // ---------------------------------------------------------------------------
  // Which lines appear.

  /** A line comes from an object exactly when one of its entries with a non-empty value formats to it. */
  lemma {:induction false} ObjectLinesMembers(data: seq<Entry>, line: string)
    ensures line in ObjectLines(data) <==> Supplies(data, line)
    decreases |data|
  {
    if |data| > 0 {
      ObjectLinesMembers(data[1..], line);
      assert forall e :: e in data <==> e == data[0] || e in data[1..] by {
        assert data == [data[0]] + data[1..];
      }
    }
  }

  lemma {:induction false} ResolveNameMembers(ref: string, objects: seq<NamedData>, line: string)
    ensures line in ResolveName(ref, objects)
        <==> exists o :: o in objects && o.name == ref && Supplies(o.data, line)
    decreases |objects|
  {
    if |objects| > 0 {
      ResolveNameMembers(ref, objects[1..], line);
      ObjectLinesMembers(objects[0].data, line);
      assert forall o :: o in objects <==> o == objects[0] || o in objects[1..] by {
        assert objects == [objects[0]] + objects[1..];
      }
    }
  }

  /**
   A line is produced by the join exactly when some listed object whose name is
   among the reference names has an entry with a non-empty value formatting to
   it: objects nobody references, and empty values, produce nothing.
   */
  lemma {:induction false} ResolveMembers(refs: seq<string>, objects: seq<NamedData>, line: string)
    ensures line in Resolve(refs, objects)
        <==> exists o :: o in objects && o.name in refs && Supplies(o.data, line)
    decreases |refs|
  {
    if |refs| > 0 {
      ResolveMembers(refs[1..], objects, line);
      ResolveNameMembers(refs[0], objects, line);
      assert forall n :: n in refs <==> n == refs[0] || n in refs[1..] by {
        assert refs == [refs[0]] + refs[1..];
      }
    }
  }

  /** An object whose name differs from the reference name contributes nothing to it. */
  lemma {:induction false} UnmatchedObjectInvisible(ref: string, a: seq<NamedData>, o: NamedData, b: seq<NamedData>)
    requires o.name != ref
    ensures ResolveName(ref, a + [o] + b) == ResolveName(ref, a + b)
  {
    ResolveNameAppend(ref, a + [o], b);
    ResolveNameSnoc(ref, a, o);
    ResolveNameAppend(ref, a, b);
    assert MatchLines(ref, o) == [];
    assert ResolveName(ref, a) + [] == ResolveName(ref, a);
  }

  /** A name no listed object carries resolves to no line at all. */
  lemma {:induction false} UnresolvedNameEmpty(ref: string, objects: seq<NamedData>)
    requires forall o :: o in objects ==> o.name != ref
    ensures ResolveName(ref, objects) == []
    decreases |objects|
  {
    if |objects| > 0 {
      assert objects[0] in objects;
      assert forall o :: o in objects[1..] ==> o in objects;
      UnresolvedNameEmpty(ref, objects[1..]);
    }
  }

  /** An unresolved reference name is dropped silently: the join is as if it were absent. */
  lemma {:induction false} UnresolvedReferenceDropped(a: seq<string>, ref: string, b: seq<string>, objects: seq<NamedData>)
    requires forall o :: o in objects ==> o.name != ref
    ensures Resolve(a + [ref] + b, objects) == Resolve(a + b, objects)
  {
    ResolveAppend(a + [ref], b, objects);
    ResolveAppend(a, [ref], objects);
    ResolveAppend(a, b, objects);
    UnresolvedNameEmpty(ref, objects);
    assert [ref][1..] == [];
  }

  /** A name referenced `k` times contributes its lines `k` times over: nothing is merged. */
  lemma {:induction false} RepeatedReference(ref: string, k: nat, objects: seq<NamedData>)
    ensures Resolve(Copies([ref], k), objects) == Copies(ResolveName(ref, objects), k)
    decreases k
  {
    if k > 0 {
      RepeatedReference(ref, k - 1, objects);
      ResolveAppend([ref], Copies([ref], k - 1), objects);
      assert [ref][1..] == [];
    }
  }

  // ---------------------------------------------------------------------------
  // Agreement with the map the enumeration lists.

  /**
   The lines of an object are the `key=value` lines of its map's keys with a
   non-empty value, whatever order the map was enumerated in.
   */
  lemma {:induction false} ObjectLinesMatchMap(data: seq<Entry>, line: string)
    requires DistinctKeys(data)
    ensures line in ObjectLines(data) <==> MapSupplies(DataMap(data), line)
  {
    var m := DataMap(data);
    ObjectLinesMembers(data, line);
    if Supplies(data, line) {
      var e :| e in data && e.value != "" && line == Format(e.key, e.value);
      var i :| 0 <= i < |data| && data[i] == e;
      assert m[e.key] == e.value;
      assert e.key in NonEmptyKeys(m);
      assert MapSupplies(m, line);
    }
    if MapSupplies(m, line) {
      var k :| k in NonEmptyKeys(m) && line == Format(k, m[k]);
      assert k in m;
      var e :| e in data && e.key == k;
      var i :| 0 <= i < |data| && data[i] == e;
      assert m[e.key] == e.value;
      assert Supplies(data, line);
    }
  }

  /** An object contributes one line per key with a non-empty value. */
  lemma {:induction false} ObjectLinesCount(data: seq<Entry>)
    requires DistinctKeys(data)
    ensures |ObjectLines(data)| == |NonEmptyKeys(DataMap(data))|
    decreases |data|
  {
    if |data| > 0 {
      var e, rest := data[0], data[1..];
      assert DistinctKeys(rest) by {
        forall i, j | 0 <= i < j < |rest|
          ensures rest[i].key != rest[j].key
        {
          assert rest[i] == data[i + 1] && rest[j] == data[j + 1];
        }
      }
      ObjectLinesCount(rest);
      var m0 := DataMap(rest);
      var m := DataMap(data);
      assert e.key !in m0;
      assert m == m0[e.key := e.value];
      NonEmptyKeysUpdate(m0, e.key, e.value);
    }
  }

  /** A permutation of `d1` is some `a + [d1[0]] + b` with `a + b` a permutation of the rest. */
  lemma {:induction false} SplitPermutation(d1: seq<Entry>, d2: seq<Entry>) returns (a: seq<Entry>, b: seq<Entry>)
    requires 0 < |d1| && multiset(d1) == multiset(d2)
    ensures d2 == a + [d1[0]] + b
    ensures multiset(d1[1..]) == multiset(a + b)
  {
    var e := d1[0];
    assert d1 == [e] + d1[1..];
    assert e in multiset(d2);
    var i :| 0 <= i < |d2| && d2[i] == e;
    a, b := d2[..i], d2[i + 1..];
    assert d2 == a + [e] + b;
    var rest, ma, mb, me := multiset(d1[1..]), multiset(a), multiset(b), multiset([e]);
    assert multiset(d1) == me + rest;
    assert multiset(d2) == ma + me + mb;
    assert multiset(a + b) == ma + mb;
    forall x
      ensures rest[x] == (ma + mb)[x]
    {
      assert (me + rest)[x] == (ma + me + mb)[x];
    }
    assert multiset(d1[1..]) == multiset(a + b);
  }

  /**
   Enumerating an object's data in another order yields the same lines, each
   as often: only the order of the file's lines depends on the enumeration.
   */
  lemma {:induction false} ObjectLinesPermutation(d1: seq<Entry>, d2: seq<Entry>)
    requires multiset(d1) == multiset(d2)
    ensures multiset(ObjectLines(d1)) == multiset(ObjectLines(d2))
    decreases |d1|
  {
    if |d1| == 0 {
      assert |multiset(d2)| == 0;
    } else {
      var e := d1[0];
      var a, b := SplitPermutation(d1, d2);
      ObjectLinesPermutation(d1[1..], a + b);
      ObjectLinesAppend(a, b);
      ObjectLinesAppend(a + [e], b);
      ObjectLinesSnoc(a, e);
      var la, lb, le := ObjectLines(a), ObjectLines(b), EntryLines(e);
      assert ObjectLines(d1) == le + ObjectLines(d1[1..]);
      assert ObjectLines(d2) == la + le + lb;
      calc {
        multiset(ObjectLines(d1));
        multiset(le) + multiset(ObjectLines(d1[1..]));
        multiset(le) + multiset(ObjectLines(a + b));
        { assert ObjectLines(a + b) == la + lb; }
        multiset(le) + multiset(la) + multiset(lb);
        multiset(la + le + lb);
      }
    }
  }

  /**
   `visit` lists the same objects as `objects`, in the same order and with the
   same names, each object's data enumerated in some order of its own.
   */
  ghost predicate Reenumerates(visit: seq<NamedData>, objects: seq<NamedData>) {
    && |visit| == |objects|
    && forall i :: 0 <= i < |visit| ==>
         visit[i].name == objects[i].name && multiset(visit[i].data) == multiset(objects[i].data)
  }

  /**
   The join as Go runs it: the scan for the `i`-th reference name ranges over
   each object's map afresh, so it sees the enumerations `visits[i]`.
   */
  function ResolveVisits(refs: seq<string>, visits: seq<seq<NamedData>>): seq<string>
    requires |visits| == |refs|
  {
    if |refs| == 0 then [] else ResolveName(refs[0], visits[0]) + ResolveVisits(refs[1..], visits[1..])
  }

  /** Re-enumerating every object's data changes the lines one name resolves to only in order. */
  lemma {:induction false} ResolveNamePermutation(ref: string, visit: seq<NamedData>, objects: seq<NamedData>)
    requires Reenumerates(visit, objects)
    ensures multiset(ResolveName(ref, visit)) == multiset(ResolveName(ref, objects))
    decreases |objects|
  {
    if |objects| > 0 {
      assert Reenumerates(visit[1..], objects[1..]) by {
        forall i | 0 <= i < |visit| - 1
          ensures visit[1..][i].name == objects[1..][i].name
          ensures multiset(visit[1..][i].data) == multiset(objects[1..][i].data)
        {
          assert visit[1..][i] == visit[i + 1] && objects[1..][i] == objects[i + 1];
        }
      }
      ResolveNamePermutation(ref, visit[1..], objects[1..]);
      if objects[0].name == ref {
        ObjectLinesPermutation(visit[0].data, objects[0].data);
      }
      assert multiset(MatchLines(ref, visit[0])) == multiset(MatchLines(ref, objects[0]));
    }
  }

  /**
   Whichever order each scan enumerates the maps in, the join yields the same
   lines as `Resolve`, each as often: repeated names give equal lines only up
   to order.
   */
  lemma {:induction false} ResolveVisitsPermutation(refs: seq<string>, visits: seq<seq<NamedData>>,
                                                    objects: seq<NamedData>)
    requires |visits| == |refs|
    requires forall i :: 0 <= i < |visits| ==> Reenumerates(visits[i], objects)
    ensures multiset(ResolveVisits(refs, visits)) == multiset(Resolve(refs, objects))
    decreases |refs|
  {
    if |refs| > 0 {
      assert forall i :: 0 <= i < |visits| - 1 ==> visits[1..][i] == visits[i + 1];
      ResolveVisitsPermutation(refs[1..], visits[1..], objects);
      ResolveNamePermutation(refs[0], visits[0], objects);
    }
  }

  // ---------------------------------------------------------------------------
  // How many lines.

  lemma {:induction false} ResolveNameCount(ref: string, objects: seq<NamedData>)
    requires AllDistinctKeys(objects)
    ensures |ResolveName(ref, objects)| == NameKeyCount(ref, objects)
    decreases |objects|
  {
    if |objects| > 0 {
      assert objects[0] in objects;
      ObjectLinesCount(objects[0].data);
      ResolveNameCount(ref, objects[1..]);
    }
  }

  /**
   The join yields, for every reference occurrence and every object of that
   name, one line per key with a non-empty value.
   */
  lemma {:induction false} ResolveCount(refs: seq<string>, objects: seq<NamedData>)
    requires AllDistinctKeys(objects)
    ensures |Resolve(refs, objects)| == RefsKeyCount(refs, objects)
    decreases |refs|
  {
    if |refs| > 0 {
      ResolveNameCount(refs[0], objects);
      ResolveCount(refs[1..], objects);
    }
  }

  // ---------------------------------------------------------------------------
  // The loops of the source.

  /**
   The join loop: for each reference name in order, scans every listed object
   and appends the lines of those whose name equals it. It computes exactly
   `Resolve`, appended after the lines already collected.
   */
  method JoinReferences(names: seq<string>, objects: seq<NamedData>, envString0: seq<string>)
    returns (envString: seq<string>)
    ensures envString == envString0 + Resolve(names, objects)
  {
    envString := envString0;
    var i := 0;
    while i < |names|
      invariant 0 <= i <= |names|
      invariant envString == envString0 + Resolve(names[..i], objects)
    {
      var name := names[i];
      ResolvePrefixStep(names, i, objects, envString0);
      envString := JoinName(name, objects, envString);
      i := i + 1;
    }
    assert names[..i] == names;
  }

  /** The scan of all objects for one reference name; objects with another name are skipped. */
  method JoinName(name: string, objects: seq<NamedData>, envString0: seq<string>)
    returns (envString: seq<string>)
    ensures envString == envString0 + ResolveName(name, objects)
  {
    envString := envString0;
    var j := 0;
    while j < |objects|
      invariant 0 <= j <= |objects|
      invariant envString == envString0 + ResolveName(name, objects[..j])
    {
      var item := objects[j];
      ResolveNamePrefixStep(name, objects, j, envString0);
      if item.name == name {
        envString := AppendObjectLines(item.data, envString);
      }
      j := j + 1;
    }
    assert objects[..j] == objects;
  }

  /** One step of the join loop: the lines of `names[i]` extend those of the names before it. */
  lemma {:induction false} ResolvePrefixStep(names: seq<string>, i: nat, objects: seq<NamedData>, prior: seq<string>)
    requires i < |names|
    ensures prior + Resolve(names[..i + 1], objects)
         == prior + Resolve(names[..i], objects) + ResolveName(names[i], objects)
  {
    assert names[..i + 1] == names[..i] + [names[i]];
    ResolveSnoc(names[..i], names[i], objects);
  }

  /** One step of the scan: the lines of `objects[j]` extend those of the objects before it. */
  lemma {:induction false} ResolveNamePrefixStep(ref: string, objects: seq<NamedData>, j: nat, prior: seq<string>)
    requires j < |objects|
    ensures prior + ResolveName(ref, objects[..j + 1])
         == prior + ResolveName(ref, objects[..j]) + MatchLines(ref, objects[j])
  {
    assert objects[..j + 1] == objects[..j] + [objects[j]];
    ResolveNameSnoc(ref, objects[..j], objects[j]);
  }

  /** One step of the data loop: the line of `data[k]`, if any, extends those of the entries before it. */
  lemma {:induction false} ObjectLinesPrefixStep(data: seq<Entry>, k: nat, prior: seq<string>)
    requires k < |data|
    ensures prior + ObjectLines(data[..k + 1]) == prior + ObjectLines(data[..k]) + EntryLines(data[k])
  {
    assert data[..k + 1] == data[..k] + [data[k]];
    ObjectLinesSnoc(data[..k], data[k]);
  }

  /** The loop over one matching object's data: an entry with an empty value is skipped. */
  method AppendObjectLines(data: seq<Entry>, envString0: seq<string>) returns (envString: seq<string>)
    ensures envString == envString0 + ObjectLines(data)
  {
    envString := envString0;
    var k := 0;
    while k < |data|
      invariant 0 <= k <= |data|
      invariant envString == envString0 + ObjectLines(data[..k])
    {
      var entry := data[k];
      ObjectLinesPrefixStep(data, k, envString0);
      if |entry.value| != 0 {
        envString := envString + [Format(entry.key, entry.value)];
      }
      k := k + 1;
    }
    assert data[..k] == data;
  }
}
