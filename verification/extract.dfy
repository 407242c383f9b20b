/**
 The deployment filter and the reference extractor: the loop over all
 deployments that keeps those whose name contains the filter text and, for
 each of their containers, collects the referenced ConfigMap and Secret names
 and formats the direct `env` entries.
 */
module Extract {
  import opened Cluster
  import opened Strings

  /**
   The three lists the extraction accumulates, in the order entries are met:
   the direct `env` lines, the referenced ConfigMap names and the referenced
   Secret names. Nothing is deduplicated.
   */
  datatype Refs = Refs(envLines: seq<string>, configMapRefs: seq<string>, secretRefs: seq<string>)

  const NoRefs := Refs([], [], [])

  /** `a` followed by `b`, list by list. */
  function Append(a: Refs, b: Refs): Refs {
    Refs(a.envLines + b.envLines, a.configMapRefs + b.configMapRefs, a.secretRefs + b.secretRefs)
  }

  lemma {:induction false} AppendAssoc(x: Refs, y: Refs, z: Refs)
    ensures Append(x, Append(y, z)) == Append(Append(x, y), z)
  {
    assert x.envLines + (y.envLines + z.envLines) == (x.envLines + y.envLines) + z.envLines;
    assert x.configMapRefs + (y.configMapRefs + z.configMapRefs) == (x.configMapRefs + y.configMapRefs) + z.configMapRefs;
    assert x.secretRefs + (y.secretRefs + z.secretRefs) == (x.secretRefs + y.secretRefs) + z.secretRefs;
  }

  lemma {:induction false} AppendNoRefs(x: Refs)
    ensures Append(NoRefs, x) == x && Append(x, NoRefs) == x
  {
    assert [] + x.envLines == x.envLines + [] == x.envLines;
    assert [] + x.configMapRefs == x.configMapRefs + [] == x.configMapRefs;
    assert [] + x.secretRefs == x.secretRefs + [] == x.secretRefs;
  }

  /** The name an optional reference adds to its list: itself when present, nothing otherwise. */
  function Present(ref: Option<string>): seq<string> {
    if ref.Some? then [ref.value] else []
  }

  /** The ConfigMap names referenced by a list of `envFrom` entries. */
  function ConfigMapNames(es: seq<EnvFromSource>): (r: seq<string>)
    ensures |r| <= |es|
  {
    if |es| == 0 then []
    else
      Present(es[0].configMapRef) + ConfigMapNames(es[1..])
  }

  /** The Secret names referenced by a list of `envFrom` entries. */
  function SecretNames(es: seq<EnvFromSource>): (r: seq<string>)
    ensures |r| <= |es|
  {
    if |es| == 0 then []
    else
      Present(es[0].secretRef) + SecretNames(es[1..])
  }

  /** One `NAME=VALUE` line per direct `env` entry, in order. */
  function EnvLines(env: seq<EnvVar>): seq<string> {
    seq(|env|, i requires 0 <= i < |env| => Format(env[i].name, env[i].value))
  }

  /**
   What one container adds. A container with neither `envFrom` nor `env` entries
   is skipped, which, as the contract says, is the same as processing it.
   */
  function ContainerRefs(c: Container): (r: Refs)
    ensures r == Refs(EnvLines(c.env), ConfigMapNames(c.envFrom), SecretNames(c.envFrom))
  {
    if |c.envFrom| == 0 && |c.env| == 0 then NoRefs
    else Refs(EnvLines(c.env), ConfigMapNames(c.envFrom), SecretNames(c.envFrom))
  }

  /** What the containers of one deployment add, container after container. */
  function ContainersRefs(cs: seq<Container>): Refs {
    if |cs| == 0 then NoRefs
    else Append(ContainerRefs(cs[0]), ContainersRefs(cs[1..]))
  }

  /** The whole extraction: deployments whose name does not contain `filter` add nothing. */
  function ExtractAll(ds: seq<Deployment>, filter: string): Refs {
    if |ds| == 0 then NoRefs
    else Append(DeploymentRefs(ds[0], filter), ExtractAll(ds[1..], filter))
  }

  /** What one listed deployment adds: nothing unless its name contains `filter`. */
  function DeploymentRefs(d: Deployment, filter: string): Refs {
    if Contains(d.name, filter) then ContainersRefs(d.containers) else NoRefs
  }

  /**
   Reference definition of the filter: the deployments whose name contains
   `filter`, each as often as in `ds` and never one whose name does not.
   */
  function Kept(ds: seq<Deployment>, filter: string): (r: seq<Deployment>)
    ensures |r| <= |ds|
  {
    if |ds| == 0 then []
    else (if Contains(ds[0].name, filter) then [ds[0]] else []) + Kept(ds[1..], filter)
  }

  /** The number of direct `env` entries over a list of containers. */
  function ContainersEnvCount(cs: seq<Container>): nat {
    if |cs| == 0 then 0 else |cs[0].env| + ContainersEnvCount(cs[1..])
  }

  /** The number of direct `env` entries over all containers of a list of deployments. */
  function EnvCount(ds: seq<Deployment>): nat {
    if |ds| == 0 then 0 else ContainersEnvCount(ds[0].containers) + EnvCount(ds[1..])
  }

  /** `c` has a direct `env` entry that formats to `line`. */
  ghost predicate ContainerDeclares(c: Container, line: string) {
    exists e :: e in c.env && line == Format(e.name, e.value)
  }

  /** `c` has an `envFrom` entry referencing ConfigMap `name`. */
  ghost predicate ContainerRefersToConfigMap(c: Container, name: string) {
    exists e :: e in c.envFrom && e.configMapRef == Some(name)
  }

  /** `c` has an `envFrom` entry referencing Secret `name`. */
  ghost predicate ContainerRefersToSecret(c: Container, name: string) {
    exists e :: e in c.envFrom && e.secretRef == Some(name)
  }

  /** `d` has a container with a direct `env` entry that formats to `line`. */
  ghost predicate DeclaresLine(d: Deployment, line: string) {
    exists c :: c in d.containers && ContainerDeclares(c, line)
  }

  /** `d` has a container with an `envFrom` entry referencing ConfigMap `name`. */
  ghost predicate RefersToConfigMap(d: Deployment, name: string) {
    exists c :: c in d.containers && ContainerRefersToConfigMap(c, name)
  }

  /** `d` has a container with an `envFrom` entry referencing Secret `name`. */
  ghost predicate RefersToSecret(d: Deployment, name: string) {
    exists c :: c in d.containers && ContainerRefersToSecret(c, name)
  }

  // ---------------------------------------------------------------------------
  // Concatenation: each list is built in source order, piece by piece.

  lemma {:induction false} ConfigMapNamesAppend(a: seq<EnvFromSource>, b: seq<EnvFromSource>)
    ensures ConfigMapNames(a + b) == ConfigMapNames(a) + ConfigMapNames(b)
    decreases |a|
  {
    if |a| == 0 {
      assert a + b == b;
    } else {
      assert (a + b)[1..] == a[1..] + b;
      ConfigMapNamesAppend(a[1..], b);
    }
  }

  lemma {:induction false} SecretNamesAppend(a: seq<EnvFromSource>, b: seq<EnvFromSource>)
    ensures SecretNames(a + b) == SecretNames(a) + SecretNames(b)
    decreases |a|
  {
    if |a| == 0 {
      assert a + b == b;
    } else {
      assert (a + b)[1..] == a[1..] + b;
      SecretNamesAppend(a[1..], b);
    }
  }

  /**
   Each `envFrom` entry, wherever it stands, adds its ConfigMap name to the
   ConfigMap list and, independently, its Secret name to the Secret list, each
   exactly where the entry stands and only when present.
   */
  lemma {:induction false} EnvFromEntryAdds(a: seq<EnvFromSource>, e: EnvFromSource, b: seq<EnvFromSource>)
    ensures ConfigMapNames(a + [e] + b) == ConfigMapNames(a) + Present(e.configMapRef) + ConfigMapNames(b)
    ensures SecretNames(a + [e] + b) == SecretNames(a) + Present(e.secretRef) + SecretNames(b)
  {
    ConfigMapNamesAppend(a + [e], b);
    ConfigMapNamesAppend(a, [e]);
    SecretNamesAppend(a + [e], b);
    SecretNamesAppend(a, [e]);
    EnvFromSingle(e);
  }

  lemma {:induction false} EnvFromSingle(e: EnvFromSource)
    ensures ConfigMapNames([e]) == Present(e.configMapRef)
    ensures SecretNames([e]) == Present(e.secretRef)
  {
    assert [e][1..] == [];
  }

  lemma {:induction false} EnvLinesAppend(a: seq<EnvVar>, b: seq<EnvVar>)
    ensures EnvLines(a + b) == EnvLines(a) + EnvLines(b)
  {
  }

  lemma {:induction false} ContainersRefsAppend(a: seq<Container>, b: seq<Container>)
    ensures ContainersRefs(a + b) == Append(ContainersRefs(a), ContainersRefs(b))
    decreases |a|
  {
    if |a| == 0 {
      assert a + b == b;
      AppendNoRefs(ContainersRefs(b));
    } else {
      assert (a + b)[0] == a[0];
      assert (a + b)[1..] == a[1..] + b;
      ContainersRefsAppend(a[1..], b);
      AppendAssoc(ContainerRefs(a[0]), ContainersRefs(a[1..]), ContainersRefs(b));
    }
  }

  lemma {:induction false} ContainersRefsSnoc(cs: seq<Container>, c: Container)
    ensures ContainersRefs(cs + [c]) == Append(ContainersRefs(cs), ContainerRefs(c))
  {
    ContainersRefsAppend(cs, [c]);
    assert [c][1..] == [];
    AppendNoRefs(ContainerRefs(c));
  }

  lemma {:induction false} ExtractAllAppend(a: seq<Deployment>, b: seq<Deployment>, filter: string)
    ensures ExtractAll(a + b, filter) == Append(ExtractAll(a, filter), ExtractAll(b, filter))
    decreases |a|
  {
    if |a| == 0 {
      assert a + b == b;
      AppendNoRefs(ExtractAll(b, filter));
    } else {
      assert (a + b)[0] == a[0];
      assert (a + b)[1..] == a[1..] + b;
      ExtractAllAppend(a[1..], b, filter);
      AppendAssoc(DeploymentRefs(a[0], filter), ExtractAll(a[1..], filter), ExtractAll(b, filter));
    }
  }

  // ---------------------------------------------------------------------------
  // The filter.

  /** A deployment whose name does not contain the filter text changes nothing. */
  lemma {:induction false} DroppedDeploymentInvisible(a: seq<Deployment>, d: Deployment, b: seq<Deployment>, filter: string)
    requires !Contains(d.name, filter)
    ensures ExtractAll(a + [d] + b, filter) == ExtractAll(a + b, filter)
  {
    ExtractAllAppend(a + [d], b, filter);
    ExtractAllAppend(a, [d], filter);
    ExtractAllAppend(a, b, filter);
    ExtractAllSingle(d, filter);
    AppendNoRefs(ExtractAll(a, filter));
  }

  lemma {:induction false} ExtractAllSingle(d: Deployment, filter: string)
    ensures ExtractAll([d], filter) == DeploymentRefs(d, filter)
  {
    assert [d][1..] == [];
    AppendNoRefs(DeploymentRefs(d, filter));
  }

  /**
   A deployment whose name contains the filter text contributes all of its
   containers' lines and names, right where it stands in the listing.
   */
  lemma {:induction false} KeptDeploymentContributes(a: seq<Deployment>, d: Deployment, b: seq<Deployment>, filter: string)
    requires Contains(d.name, filter)
    ensures ExtractAll(a + [d] + b, filter)
         == Append(Append(ExtractAll(a, filter), ContainersRefs(d.containers)), ExtractAll(b, filter))
  {
    ExtractAllAppend(a + [d], b, filter);
    ExtractAllAppend(a, [d], filter);
    ExtractAllSingle(d, filter);
  }

  /**
   The filter keeps each deployment whose name contains the filter text as
   often as it is listed, and no other.
   */
  lemma {:induction false} KeptCounts(ds: seq<Deployment>, filter: string, d: Deployment)
    ensures multiset(Kept(ds, filter))[d] == if Contains(d.name, filter) then multiset(ds)[d] else 0
    decreases |ds|
  {
    if |ds| > 0 {
      KeptCounts(ds[1..], filter, d);
      assert ds == [ds[0]] + ds[1..];
      assert multiset(ds) == multiset([ds[0]]) + multiset(ds[1..]);
    }
  }

  /** The empty filter keeps every deployment. */
  lemma {:induction false} KeptEmptyFilter(ds: seq<Deployment>)
    ensures Kept(ds, "") == ds
    decreases |ds|
  {
    if |ds| > 0 {
      assert IsPrefix("", ds[0].name);
      KeptEmptyFilter(ds[1..]);
      assert ds == [ds[0]] + ds[1..];
    }
  }

  /** Filtering first and then processing every deployment gives the same lists. */
  lemma {:induction false} ExtractAllKept(ds: seq<Deployment>, filter: string)
    ensures ExtractAll(ds, filter) == ExtractAll(Kept(ds, filter), "")
    decreases |ds|
  {
    if |ds| > 0 {
      var d := ds[0];
      ExtractAllKept(ds[1..], filter);
      var rest := Kept(ds[1..], filter);
      if Contains(d.name, filter) {
        assert IsPrefix("", d.name);
        assert Kept(ds, filter) == [d] + rest;
        ExtractAllAppend([d], rest, "");
        ExtractAllSingle(d, "");
      } else {
        assert Kept(ds, filter) == rest;
        AppendNoRefs(ExtractAll(ds[1..], filter));
      }
    }
  }

  // ---------------------------------------------------------------------------
  // Direct `env` lines and references, counted and located.

  lemma {:induction false} ContainersEnvLinesCount(cs: seq<Container>)
    ensures |ContainersRefs(cs).envLines| == ContainersEnvCount(cs)
    decreases |cs|
  {
    if |cs| > 0 {
      ContainersEnvLinesCount(cs[1..]);
    }
  }

  /** Every direct `env` entry of a kept deployment yields exactly one line. */
  lemma {:induction false} EnvLinesCount(ds: seq<Deployment>, filter: string)
    ensures |ExtractAll(ds, filter).envLines| == EnvCount(Kept(ds, filter))
    decreases |ds|
  {
    if |ds| > 0 {
      var d := ds[0];
      EnvLinesCount(ds[1..], filter);
      ContainersEnvLinesCount(d.containers);
      var rest := Kept(ds[1..], filter);
      if Contains(d.name, filter) {
        assert Kept(ds, filter) == [d] + rest;
        assert ([d] + rest)[1..] == rest;
      } else {
        assert Kept(ds, filter) == rest;
      }
    }
  }

  lemma {:induction false} EnvLinesMembers(env: seq<EnvVar>, line: string)
    ensures line in EnvLines(env) <==> exists e :: e in env && line == Format(e.name, e.value)
  {
    if line in EnvLines(env) {
      var i :| 0 <= i < |env| && EnvLines(env)[i] == line;
      assert env[i] in env;
    }
    if e :| e in env && line == Format(e.name, e.value) {
      var i :| 0 <= i < |env| && env[i] == e;
      assert EnvLines(env)[i] == line;
    }
  }

  lemma {:induction false} EnvFromNamesMembers(es: seq<EnvFromSource>, name: string)
    ensures name in ConfigMapNames(es) <==> exists e :: e in es && e.configMapRef == Some(name)
    ensures name in SecretNames(es) <==> exists e :: e in es && e.secretRef == Some(name)
    decreases |es|
  {
    if |es| > 0 {
      EnvFromNamesMembers(es[1..], name);
      assert forall e :: e in es <==> e == es[0] || e in es[1..] by {
        assert es == [es[0]] + es[1..];
      }
    }
  }

  lemma {:induction false} ContainerRefsMembers(c: Container, line: string, name: string)
    ensures line in ContainerRefs(c).envLines <==> ContainerDeclares(c, line)
    ensures name in ContainerRefs(c).configMapRefs <==> ContainerRefersToConfigMap(c, name)
    ensures name in ContainerRefs(c).secretRefs <==> ContainerRefersToSecret(c, name)
  {
    EnvLinesMembers(c.env, line);
    EnvFromNamesMembers(c.envFrom, name);
  }

  lemma {:induction false} ContainersRefsMembers(cs: seq<Container>, line: string, name: string)
    ensures line in ContainersRefs(cs).envLines <==> exists c :: c in cs && ContainerDeclares(c, line)
    ensures name in ContainersRefs(cs).configMapRefs
        <==> exists c :: c in cs && ContainerRefersToConfigMap(c, name)
    ensures name in ContainersRefs(cs).secretRefs
        <==> exists c :: c in cs && ContainerRefersToSecret(c, name)
    decreases |cs|
  {
    if |cs| > 0 {
      ContainersRefsMembers(cs[1..], line, name);
      ContainerRefsMembers(cs[0], line, name);
      assert forall c :: c in cs <==> c == cs[0] || c in cs[1..] by {
        assert cs == [cs[0]] + cs[1..];
      }
    }
  }

  /** A line is among the direct `env` lines exactly when some deployment whose name contains the filter text declares it. */
  lemma {:induction false} ExtractAllLineMembers(ds: seq<Deployment>, filter: string, line: string)
    ensures line in ExtractAll(ds, filter).envLines
        <==> exists d :: d in ds && Contains(d.name, filter) && DeclaresLine(d, line)
    decreases |ds|
  {
    if |ds| > 0 {
      var d0 := ds[0];
      ExtractAllLineMembers(ds[1..], filter, line);
      assert forall d :: d in ds <==> d == d0 || d in ds[1..] by {
        assert ds == [d0] + ds[1..];
      }
      if Contains(d0.name, filter) {
        ContainersRefsMembers(d0.containers, line, "");
        assert DeploymentRefs(d0, filter) == ContainersRefs(d0.containers);
      } else {
        assert DeploymentRefs(d0, filter) == NoRefs;
      }
    }
  }

  /** A name is among the ConfigMap reference names exactly when some deployment whose name contains the filter text references it. */
  lemma {:induction false} ExtractAllConfigMapMembers(ds: seq<Deployment>, filter: string, name: string)
    ensures name in ExtractAll(ds, filter).configMapRefs
        <==> exists d :: d in ds && Contains(d.name, filter) && RefersToConfigMap(d, name)
    decreases |ds|
  {
    if |ds| > 0 {
      var d0 := ds[0];
      ExtractAllConfigMapMembers(ds[1..], filter, name);
      assert forall d :: d in ds <==> d == d0 || d in ds[1..] by {
        assert ds == [d0] + ds[1..];
      }
      if Contains(d0.name, filter) {
        ContainersRefsMembers(d0.containers, "", name);
        assert DeploymentRefs(d0, filter) == ContainersRefs(d0.containers);
      } else {
        assert DeploymentRefs(d0, filter) == NoRefs;
      }
    }
  }

  /** A name is among the Secret reference names exactly when some deployment whose name contains the filter text references it. */
  lemma {:induction false} ExtractAllSecretMembers(ds: seq<Deployment>, filter: string, name: string)
    ensures name in ExtractAll(ds, filter).secretRefs
        <==> exists d :: d in ds && Contains(d.name, filter) && RefersToSecret(d, name)
    decreases |ds|
  {
    if |ds| > 0 {
      var d0 := ds[0];
      ExtractAllSecretMembers(ds[1..], filter, name);
      assert forall d :: d in ds <==> d == d0 || d in ds[1..] by {
        assert ds == [d0] + ds[1..];
      }
      if Contains(d0.name, filter) {
        ContainersRefsMembers(d0.containers, "", name);
        assert DeploymentRefs(d0, filter) == ContainersRefs(d0.containers);
      } else {
        assert DeploymentRefs(d0, filter) == NoRefs;
      }
    }
  }

  // ---------------------------------------------------------------------------
  // The loop of the source, statement by statement.

  /**
   The extraction loop over the listed deployments: skips a deployment whose
   name does not contain `filter` and otherwise processes its containers in
   order. It computes exactly `ExtractAll`.
   */
  method ExtractReferences(deployments: seq<Deployment>, filter: string)
    returns (envString: seq<string>, parsedConfigMaps: seq<string>, parsedSecrets: seq<string>)
    ensures Refs(envString, parsedConfigMaps, parsedSecrets) == ExtractAll(deployments, filter)
  {
    envString, parsedConfigMaps, parsedSecrets := [], [], [];
    var i := 0;
    while i < |deployments|
      invariant 0 <= i <= |deployments|
      invariant Refs(envString, parsedConfigMaps, parsedSecrets) == ExtractAll(deployments[..i], filter)
    {
      var deployment := deployments[i];
      ExtractAllAppend(deployments[..i], [deployment], filter);
      assert deployments[..i + 1] == deployments[..i] + [deployment];
      envString, parsedConfigMaps, parsedSecrets :=
        ExtractDeployment(deployment, filter, envString, parsedConfigMaps, parsedSecrets);
      i := i + 1;
    }
    assert deployments[..i] == deployments;
  }

  /** The body of the loop over deployments: the filter test, then the loop over containers. */
  method ExtractDeployment(deployment: Deployment, filter: string, envString0: seq<string>,
                           parsedConfigMaps0: seq<string>, parsedSecrets0: seq<string>)
    returns (envString: seq<string>, parsedConfigMaps: seq<string>, parsedSecrets: seq<string>)
    ensures Refs(envString, parsedConfigMaps, parsedSecrets)
         == Append(Refs(envString0, parsedConfigMaps0, parsedSecrets0), DeploymentRefs(deployment, filter))
  {
    ghost var start := Refs(envString0, parsedConfigMaps0, parsedSecrets0);
    envString, parsedConfigMaps, parsedSecrets := envString0, parsedConfigMaps0, parsedSecrets0;
    if !Contains(deployment.name, filter) {
      AppendNoRefs(start);
      return;
    }
    var containers := deployment.containers;
    AppendNoRefs(start);
    assert containers[..0] == [];
    var j := 0;
    while j < |containers|
      invariant 0 <= j <= |containers|
      invariant Refs(envString, parsedConfigMaps, parsedSecrets) == Append(start, ContainersRefs(containers[..j]))
    {
      var container := containers[j];
      ghost var done := ContainersRefs(containers[..j]);
      envString, parsedConfigMaps, parsedSecrets :=
        ExtractContainer(container, envString, parsedConfigMaps, parsedSecrets);
      ContainersRefsSnoc(containers[..j], container);
      AppendAssoc(start, done, ContainerRefs(container));
      assert containers[..j + 1] == containers[..j] + [container];
      j := j + 1;
    }
    assert containers[..j] == containers;
  }

  /**
   The body of the loop over one container: skips it when it has neither
   `envFrom` nor `env` entries, otherwise appends each present ConfigMap and
   Secret reference name and then each formatted `env` line.
   */
  method ExtractContainer(container: Container, envString0: seq<string>,
                          parsedConfigMaps0: seq<string>, parsedSecrets0: seq<string>)
    returns (envString: seq<string>, parsedConfigMaps: seq<string>, parsedSecrets: seq<string>)
    ensures Refs(envString, parsedConfigMaps, parsedSecrets)
         == Append(Refs(envString0, parsedConfigMaps0, parsedSecrets0), ContainerRefs(container))
  {
    if |container.envFrom| == 0 && |container.env| == 0 {
      envString, parsedConfigMaps, parsedSecrets := envString0, parsedConfigMaps0, parsedSecrets0;
      AppendNoRefs(Refs(envString0, parsedConfigMaps0, parsedSecrets0));
      return;
    }
    parsedConfigMaps, parsedSecrets := AppendEnvFromNames(container.envFrom, parsedConfigMaps0, parsedSecrets0);
    envString := AppendEnvLines(container.env, envString0);
  }

  /** One step of the `envFrom` loop: entry `k` adds its own references after those of the entries before it. */
  lemma {:induction false} EnvFromNamesPrefixStep(es: seq<EnvFromSource>, k: nat, cm: seq<string>, sec: seq<string>)
    requires k < |es|
    ensures cm + ConfigMapNames(es[..k + 1]) == cm + ConfigMapNames(es[..k]) + Present(es[k].configMapRef)
    ensures sec + SecretNames(es[..k + 1]) == sec + SecretNames(es[..k]) + Present(es[k].secretRef)
  {
    assert es[..k + 1] == es[..k] + [es[k]];
    ConfigMapNamesAppend(es[..k], [es[k]]);
    SecretNamesAppend(es[..k], [es[k]]);
    EnvFromSingle(es[k]);
  }

  /** The loop over `envFrom` entries: the two reference checks are made one after the other, independently. */
  method AppendEnvFromNames(envFroms: seq<EnvFromSource>, parsedConfigMaps0: seq<string>, parsedSecrets0: seq<string>)
    returns (parsedConfigMaps: seq<string>, parsedSecrets: seq<string>)
    ensures parsedConfigMaps == parsedConfigMaps0 + ConfigMapNames(envFroms)
    ensures parsedSecrets == parsedSecrets0 + SecretNames(envFroms)
  {
    parsedConfigMaps, parsedSecrets := parsedConfigMaps0, parsedSecrets0;
    var k := 0;
    while k < |envFroms|
      invariant 0 <= k <= |envFroms|
      invariant parsedConfigMaps == parsedConfigMaps0 + ConfigMapNames(envFroms[..k])
      invariant parsedSecrets == parsedSecrets0 + SecretNames(envFroms[..k])
    {
      var envFrom := envFroms[k];
      if envFrom.configMapRef.Some? {
        parsedConfigMaps := parsedConfigMaps + [envFrom.configMapRef.value];
      }
      if envFrom.secretRef.Some? {
        parsedSecrets := parsedSecrets + [envFrom.secretRef.value];
      }
      EnvFromNamesPrefixStep(envFroms, k, parsedConfigMaps0, parsedSecrets0);
      k := k + 1;
    }
    assert envFroms[..k] == envFroms;
  }

  /** The loop over direct `env` entries: one formatted line each. */
  method AppendEnvLines(envs: seq<EnvVar>, envString0: seq<string>) returns (envString: seq<string>)
    ensures envString == envString0 + EnvLines(envs)
  {
    envString := envString0;
    var m := 0;
    while m < |envs|
      invariant 0 <= m <= |envs|
      invariant envString == envString0 + EnvLines(envs[..m])
    {
      var env := envs[m];
      envString := envString + [Format(env.name, env.value)];
      EnvLinesAppend(envs[..m], [env]);
      assert envs[..m + 1] == envs[..m] + [env];
      m := m + 1;
    }
    assert envs[..m] == envs;
  }
}
