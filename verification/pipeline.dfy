/**
 The whole data path of the tool once the cluster listings are in hand:
 extraction over the deployments, the Secret join, the ConfigMap join, the
 escape step and the text written to the `.env` file.
 */
module Pipeline {
  import opened Cluster
  import opened Strings
  import opened Extract
  import opened Join
  import opened Writer

  /** The env line list after both joins. */
  function CollectedLines(deployments: seq<Deployment>, filter: string,
                          secrets: seq<NamedData>, configMaps: seq<NamedData>): seq<string>
  {
    var refs := ExtractAll(deployments, filter);
    refs.envLines + Resolve(refs.secretRefs, secrets) + Resolve(refs.configMapRefs, configMaps)
  }

  /** The text of the `.env` file. */
  function EnvFileText(deployments: seq<Deployment>, filter: string,
                       secrets: seq<NamedData>, configMaps: seq<NamedData>): string
  {
    Serialize(EscapeAll(CollectedLines(deployments, filter, secrets, configMaps)))
  }

  /** Some deployment whose name contains `filter` references Secret `name`. */
  ghost predicate SecretReferenced(deployments: seq<Deployment>, filter: string, name: string) {
    exists d :: d in deployments && Contains(d.name, filter) && RefersToSecret(d, name)
  }

  /** Some deployment whose name contains `filter` references ConfigMap `name`. */
  ghost predicate ConfigMapReferenced(deployments: seq<Deployment>, filter: string, name: string) {
    exists d :: d in deployments && Contains(d.name, filter) && RefersToConfigMap(d, name)
  }

  // ---------------------------------------------------------------------------
  // The driver, as the source runs it.

  /**
   Extraction, then the Secret join, then the ConfigMap join, all appending to
   one list: the direct `env` lines come first, then every Secret-derived
   line, then every ConfigMap-derived line.
   */
  method CollectLines(deployments: seq<Deployment>, filter: string,
                      secrets: seq<NamedData>, configMaps: seq<NamedData>)
    returns (envString: seq<string>)
    ensures envString == ExtractAll(deployments, filter).envLines
                       + Resolve(ExtractAll(deployments, filter).secretRefs, secrets)
                       + Resolve(ExtractAll(deployments, filter).configMapRefs, configMaps)
  {
    var parsedConfigMaps, parsedSecrets;
    envString, parsedConfigMaps, parsedSecrets := ExtractReferences(deployments, filter);
    envString := JoinReferences(parsedSecrets, secrets, envString);
    envString := JoinReferences(parsedConfigMaps, configMaps, envString);
  }

  /** Collection, the escape loop and the write loop: the text that ends up in the file. */
  method Run(deployments: seq<Deployment>, filter: string,
             secrets: seq<NamedData>, configMaps: seq<NamedData>)
    returns (contents: string)
    ensures contents == Serialize(EscapeAll(CollectedLines(deployments, filter, secrets, configMaps)))
  {
    var envString := CollectLines(deployments, filter, secrets, configMaps);
    envString := EscapeLines(envString);
    contents := WriteLines(envString);
  }

  // ---------------------------------------------------------------------------
  // Properties of the whole list.

  /** A deployment whose name does not contain the filter text has no effect on the output. */
  lemma {:induction false} FilterExclusivity(a: seq<Deployment>, d: Deployment, b: seq<Deployment>, filter: string,
                          secrets: seq<NamedData>, configMaps: seq<NamedData>)
    requires !Contains(d.name, filter)
    ensures CollectedLines(a + [d] + b, filter, secrets, configMaps) == CollectedLines(a + b, filter, secrets, configMaps)
    ensures EnvFileText(a + [d] + b, filter, secrets, configMaps) == EnvFileText(a + b, filter, secrets, configMaps)
  {
    DroppedDeploymentInvisible(a, d, b, filter);
  }

  /**
   The direct `env` lines open the list and do not depend on the listed
   Secrets and ConfigMaps: whatever the joins find, the first lines are the same.
   */
  lemma {:induction false} DirectLinesFirst(deployments: seq<Deployment>, filter: string,
                         secrets: seq<NamedData>, configMaps: seq<NamedData>,
                         secrets': seq<NamedData>, configMaps': seq<NamedData>)
    ensures var n := |ExtractAll(deployments, filter).envLines|;
            && n <= |CollectedLines(deployments, filter, secrets, configMaps)|
            && n <= |CollectedLines(deployments, filter, secrets', configMaps')|
            && CollectedLines(deployments, filter, secrets, configMaps)[..n]
               == CollectedLines(deployments, filter, secrets', configMaps')[..n]
  {
    var direct := ExtractAll(deployments, filter).envLines;
    var l1 := CollectedLines(deployments, filter, secrets, configMaps);
    var l2 := CollectedLines(deployments, filter, secrets', configMaps');
    assert l1[..|direct|] == direct;
    assert l2[..|direct|] == direct;
  }

  /**
   Every direct `env` entry of a container of a kept deployment reaches the
   output, escaped, whatever the joins produce.
   */
  lemma {:induction false} DirectEnvReachesOutput(deployments: seq<Deployment>, filter: string,
                               secrets: seq<NamedData>, configMaps: seq<NamedData>,
                               d: Deployment, c: Container, e: EnvVar)
    requires d in deployments && Contains(d.name, filter)
    requires c in d.containers && e in c.env
    ensures Format(e.name, e.value) in CollectedLines(deployments, filter, secrets, configMaps)
    ensures EscapeSemicolons(Format(e.name, e.value))
            in EscapeAll(CollectedLines(deployments, filter, secrets, configMaps))
  {
    var line := Format(e.name, e.value);
    assert ContainerDeclares(c, line);
    assert DeclaresLine(d, line);
    ExtractAllLineMembers(deployments, filter, line);
    var lines := CollectedLines(deployments, filter, secrets, configMaps);
    assert line in lines;
    var i :| 0 <= i < |lines| && lines[i] == line;
    assert EscapeAll(lines)[i] == EscapeSemicolons(line);
  }

  /**
   Where each line of the list comes from: a direct `env` entry of a kept
   deployment, or a non-empty entry of a Secret or a ConfigMap that a kept
   deployment references by name. Nothing else appears.
   */
  lemma {:induction false} CollectedProvenance(deployments: seq<Deployment>, filter: string,
                            secrets: seq<NamedData>, configMaps: seq<NamedData>, line: string)
    ensures line in CollectedLines(deployments, filter, secrets, configMaps)
        <==> || (exists d :: d in deployments && Contains(d.name, filter) && DeclaresLine(d, line))
             || (exists o :: o in secrets && SecretReferenced(deployments, filter, o.name) && Supplies(o.data, line))
             || (exists o :: o in configMaps && ConfigMapReferenced(deployments, filter, o.name) && Supplies(o.data, line))
  {
    var refs := ExtractAll(deployments, filter);
    ExtractAllLineMembers(deployments, filter, line);
    ResolveMembers(refs.secretRefs, secrets, line);
    ResolveMembers(refs.configMapRefs, configMaps, line);
    forall o | o in secrets
      ensures o.name in refs.secretRefs <==> SecretReferenced(deployments, filter, o.name)
    {
      ExtractAllSecretMembers(deployments, filter, o.name);
    }
    forall o | o in configMaps
      ensures o.name in refs.configMapRefs <==> ConfigMapReferenced(deployments, filter, o.name)
    {
      ExtractAllConfigMapMembers(deployments, filter, o.name);
    }
  }

  /**
   The number of lines: one per direct `env` entry of a kept deployment, plus,
   for every Secret and ConfigMap reference occurrence and every object of that
   name, one per key with a non-empty value.
   */
  lemma {:induction false} CollectedCount(deployments: seq<Deployment>, filter: string,
                       secrets: seq<NamedData>, configMaps: seq<NamedData>)
    requires AllDistinctKeys(secrets) && AllDistinctKeys(configMaps)
    ensures |CollectedLines(deployments, filter, secrets, configMaps)|
         == EnvCount(Kept(deployments, filter))
          + RefsKeyCount(ExtractAll(deployments, filter).secretRefs, secrets)
          + RefsKeyCount(ExtractAll(deployments, filter).configMapRefs, configMaps)
  {
    var refs := ExtractAll(deployments, filter);
    EnvLinesCount(deployments, filter);
    ResolveCount(refs.secretRefs, secrets);
    ResolveCount(refs.configMapRefs, configMaps);
  }

  /**
   When no collected line holds a newline, the file reads back line by line as
   the escaped list, and unescaping each line gives back the collected line.
   */
  lemma {:induction false} EnvFileReadsBack(deployments: seq<Deployment>, filter: string,
                         secrets: seq<NamedData>, configMaps: seq<NamedData>)
    requires forall i :: 0 <= i < |CollectedLines(deployments, filter, secrets, configMaps)|
               ==> '\n' !in CollectedLines(deployments, filter, secrets, configMaps)[i]
    ensures |SplitLines(EnvFileText(deployments, filter, secrets, configMaps))|
         == |CollectedLines(deployments, filter, secrets, configMaps)|
    ensures forall i :: 0 <= i < |CollectedLines(deployments, filter, secrets, configMaps)|
              ==> Unescape(SplitLines(EnvFileText(deployments, filter, secrets, configMaps))[i])
                  == CollectedLines(deployments, filter, secrets, configMaps)[i]
  {
    var lines := CollectedLines(deployments, filter, secrets, configMaps);
    var escaped := EscapeAll(lines);
    forall k | 0 <= k < |escaped|
      ensures '\n' !in escaped[k]
    {
      EscapeKeepsOtherChars(lines[k], '\n');
    }
    SplitSerialize(escaped);
    EscapeAllReversible(lines);
  }

  // ---------------------------------------------------------------------------
  // Worked examples.

  /** Deployment `api-server`, filter `api`, one container with `FOO=bar`: the file is that line. */
  lemma {:induction false} DirectEnvExample()
    ensures EnvFileText([Deployment("api-server", [Container([], [EnvVar("FOO", "bar")])])], "api", [], [])
         == "FOO=bar\n"
  {
    var ds := [Deployment("api-server", [Container([], [EnvVar("FOO", "bar")])])];
    DirectEnvExampleRefs();
    var refs := ExtractAll(ds, "api");
    var none: seq<NamedData> := [];
    assert Resolve(refs.secretRefs, none) == [] && Resolve(refs.configMapRefs, none) == [];
    assert CollectedLines(ds, "api", none, none) == ["FOO=bar"] + [] + [];
    PlainLineWritten("FOO=bar");
  }

  /** The extraction step of the example: the one direct line and no reference names. */
  lemma {:induction false} DirectEnvExampleRefs()
    ensures ExtractAll([Deployment("api-server", [Container([], [EnvVar("FOO", "bar")])])], "api")
         == Refs(["FOO=bar"], [], [])
  {
    var c := Container([], [EnvVar("FOO", "bar")]);
    var d := Deployment("api-server", [c]);
    assert Contains(d.name, "api") by {
      assert "api-server"[..3] == "api";
      assert IsPrefix("api", "api-server");
    }
    assert Format("FOO", "bar") == "FOO=bar";
    assert EnvLines(c.env) == ["FOO=bar"];
    assert ContainersRefs([c]) == Refs(["FOO=bar"], [], []) by {
      assert [c][1..] == [];
    }
    assert DeploymentRefs(d, "api") == Refs(["FOO=bar"], [], []);
    assert [d][1..] == [];
  }

  /** A line without `;` is written as itself followed by a newline. */
  lemma {:induction false} PlainLineWritten(line: string)
    requires ';' !in line
    ensures Serialize(EscapeAll([line])) == line + "\n"
  {
    EscapeAllWithoutSemicolons([line]);
    assert [line][1..] == [];
    assert Serialize([line]) == line + "\n" + Serialize([]);
  }

  /** A referenced ConfigMap `cfg1` with `A: "1"` and `B: ""` yields `A=1` and nothing for `B`. */
  lemma {:induction false} ConfigMapExample()
    ensures CollectedLines([Deployment("web", [Container([EnvFromSource(Some("cfg1"), None)], [])])], "",
                           [], [NamedData("cfg1", [Entry("A", "1"), Entry("B", "")])])
         == ["A=1"]
  {
    assert IsPrefix("", "web");
    var c := Container([EnvFromSource(Some("cfg1"), None)], []);
    assert ConfigMapNames(c.envFrom) == ["cfg1"];
    assert SecretNames(c.envFrom) == [];
    assert ContainersRefs([c]) == Refs([], ["cfg1"], []) by {
      assert [c][1..] == [];
    }
    var data := [Entry("A", "1"), Entry("B", "")];
    assert ObjectLines(data) == ["A=1"] by {
      assert Format("A", "1") == "A=1";
      assert data[1..] == [Entry("B", "")];
      assert data[1..][1..] == [];
      assert ObjectLines(data[1..]) == [];
    }
  }

  /** A value `a;b` is written as `a\;b`. */
  lemma {:induction false} SemicolonExample()
    ensures EscapeSemicolons("X=a;b") == "X=a\\;b"
  {
    assert "X=a;b"[1..] == "=a;b";
    assert "=a;b"[1..] == "a;b";
    assert "a;b"[1..] == ";b";
    assert ";b"[1..] == "b";
    assert "b"[1..] == "";
  }
}
