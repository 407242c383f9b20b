/**
 The cluster objects the tool reads, reduced to the attributes it uses:
 deployments with their containers' `env` and `envFrom` lists, and the
 key/value data of ConfigMaps and Secrets.
 */
module Cluster {

  datatype Option<T> = None | Some(value: T)

  /** A direct `env` entry of a container: a literal name and value. */
  datatype EnvVar = EnvVar(name: string, value: string)

  /**
   One `envFrom` entry. The ConfigMap and the Secret reference are two separate
   optional fields, so an entry may carry one, both or neither of them.
   */
  datatype EnvFromSource = EnvFromSource(configMapRef: Option<string>, secretRef: Option<string>)

  datatype Container = Container(envFrom: seq<EnvFromSource>, env: seq<EnvVar>)

  /** A deployment: its name and the containers of its pod template. */
  datatype Deployment = Deployment(name: string, containers: seq<Container>)

  datatype Entry = Entry(key: string, value: string)

  /**
   A ConfigMap or a Secret: its name and its key/value data. The data is one
   enumeration of the object's map. Go may enumerate a map in a new order on
   every `range`; `Join.ResolveVisits` models that, and elsewhere one
   enumeration per object is fixed. Secret values are taken as already
   converted to strings.
   */
  datatype NamedData = NamedData(name: string, data: seq<Entry>)

  /** The `%s=%s` line written for a key and its value. */
  function Format(key: string, value: string): string {
    key + "=" + value
  }

  /** The enumeration of a Go map lists each key once. */
  ghost predicate DistinctKeys(data: seq<Entry>) {
    forall i, j :: 0 <= i < j < |data| ==> data[i].key != data[j].key
  }

  /** Every object's data comes from a Go map. */
  ghost predicate AllDistinctKeys(objects: seq<NamedData>) {
    forall o :: o in objects ==> DistinctKeys(o.data)
  }

  /** The map an enumeration lists: each listed key bound to its listed value. */
  function DataMap(data: seq<Entry>): (m: map<string, string>)
    requires DistinctKeys(data)
    ensures m.Keys == set e | e in data :: e.key
    ensures forall i :: 0 <= i < |data| ==> m[data[i].key] == data[i].value
  {
    if |data| == 0 then map[]
    else
      var rest := DataMap(data[1..]);
      assert forall e :: e in data <==> e == data[0] || e in data[1..];
      assert forall i :: 1 <= i < |data| ==> data[i] == data[1..][i - 1];
      rest[data[0].key := data[0].value]
  }

  /** The keys whose value is non-empty: the only ones that produce a line. */
  ghost function NonEmptyKeys(m: map<string, string>): set<string> {
    set k | k in m && m[k] != ""
  }

  /** Binding a new key adds it to the non-empty keys exactly when its value is non-empty. */
  lemma {:induction false} NonEmptyKeysUpdate(m: map<string, string>, k: string, v: string)
    requires k !in m
    ensures |NonEmptyKeys(m[k := v])| == |NonEmptyKeys(m)| + (if v == "" then 0 else 1)
  {
    var m' := m[k := v];
    if v == "" {
      assert NonEmptyKeys(m') == NonEmptyKeys(m);
    } else {
      assert NonEmptyKeys(m') == NonEmptyKeys(m) + {k};
    }
  }
}
