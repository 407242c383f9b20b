# kubeenv: the data path from cluster listings to the `.env` file

kubeenv is a command-line tool. It lists every Deployment, Secret and
ConfigMap of a Kubernetes cluster and writes a `.env` file of `KEY=VALUE`
lines. The lines come from three places:

- the direct `env` entries of each container of every deployment whose name
  contains the filter text;
- every Secret those containers name in an `envFrom` entry;
- every ConfigMap those containers name in an `envFrom` entry.

Each `;` in a line is written as `\;`. Lines are written in the order they
were collected.

This project models that data path as pure functions over the listed
objects. It proves what the path computes:

- the filter;
- the order and multiplicity of the collected names and lines;
- the exact-name joins;
- the escape;
- the text written.

Each loop of the tool is mirrored by a method, and each method is proved to
compute exactly its functional definition.

Modules, one file each:

- `Strings` (`strings.dfy`): Go's `strings.Contains` and the `;` escape,
  with an occurrence-based reference definition, an inverse and character
  counts.
- `Cluster` (`cluster.dfy`): the objects as the tool sees them. A
  ConfigMap's or Secret's data is one enumeration of its map, so each key
  appears once. Go may enumerate a map in a new order on every `range`.
  `Join.ResolveVisits` models a join whose scans each see their own
  enumeration; the rest of the model fixes one enumeration per object.
- `Extract` (`extract.dfy`): the deployment loop. It collects the direct
  lines, the ConfigMap reference names and the Secret reference names.
- `Join` (`join.dfy`): the two resolver loops. They have the same shape, so
  one generic join serves both.
- `Writer` (`writer.dfy`): the escape loop and the write loop.
- `Pipeline` (`pipeline.dfy`): the stages composed in the tool's order, with
  end-to-end properties and worked examples.

## Model

| member | source | states |
|---|---|---|
| Strings.Contains | cmd/main.go:42 | Definition, no contract: `strings.Contains`, trying every start position in turn; its meaning is stated by `Strings.ContainsIffOccurs` and `Strings.ContainsChar` |
| Strings.ContainsIffOccurs | cmd/main.go:42-44 | The name test holds exactly when the filter text occurs at some position of the deployment name; the empty filter occurs everywhere |
| Strings.ContainsChar | cmd/main.go:112 | Testing a line for the one-character string `;` is testing whether `;` is one of its characters |
| Strings.Count | cmd/main.go:113 | Helper for `Strings.EscapeSemicolons`, which measures the escape's growth with it: a character count that is at most the length and is zero exactly when the character is absent |
| Strings.CountAppend | cmd/main.go:113 | Helper for `Strings.EscapeSemicolons` and `Strings.EscapeKeepsSemicolonCount`: the count of a character over two joined strings is the sum of the counts |
| Strings.EscapeSemicolons | cmd/main.go:113 | Replacing every `;` by `\;` lengthens the line by its number of `;`, and every `;` of the result follows a `\` |
| Strings.EscapeWithoutSemicolon | cmd/main.go:112-114 | A line without `;` is left unchanged by the escape |
| Strings.EscapeAppend | cmd/main.go:113 | The escape works character by character: escaping two joined strings joins their escapes |
| Strings.EscapeKeepsSemicolonCount | cmd/main.go:113 | The escape neither adds nor removes a `;` |
| Strings.EscapeKeepsOtherChars | cmd/main.go:113 | A character other than `\` and `;` is in the escaped line exactly when it is in the line |
| Strings.EscapeNotIdempotent | cmd/main.go:113 | Escaping a line that holds `;` a second time changes it again |
| Strings.UnescapeEscape | cmd/main.go:113 | The escape can be undone: turning each `\;` back into `;` restores the original line |
| Strings.IndexOf | cmd/main.go:129-134 | Helper for `Writer.SplitSerialize`, which reads the written text back: the first position of a character is within the text, holds that character unless it is the end, and no earlier position holds it |
| Strings.IndexOfAfter | cmd/main.go:129-134 | Helper for `Writer.SplitSerialize`: in a line without a newline followed by a newline, the first newline is at the line's length |
| Cluster.Format | cmd/main.go:62 | Definition, no contract: the `%s=%s` line of a name and a value, as written at lines 62, 89 and 105 |
| Cluster.DataMap | cmd/main.go:84-90 | The map that an enumeration of Secret or ConfigMap data comes from has exactly the enumerated keys, each bound to its enumerated value |
| Cluster.NonEmptyKeysUpdate | cmd/main.go:85-87 | Adding a new key adds one to the keys with a non-empty value when its value is non-empty, and nothing otherwise |
| Extract.AppendAssoc | cmd/main.go:46-64 | Helper for `Extract.ContainersRefsAppend` and `Extract.ExtractAllAppend`: appending the three lists of a `Refs` record is associative |
| Extract.AppendNoRefs | cmd/main.go:41-65 | Helper for `Extract.ContainersRefsAppend` and `Extract.ExtractAllAppend`: the record of three empty lists is neutral for appending |
| Extract.Present | cmd/main.go:52-58 | Definition, no contract: a reference adds its name when it is not nil and nothing otherwise |
| Extract.EnvLines | cmd/main.go:61-63 | Definition, no contract: one `name=value` line per direct `env` entry, in order; stated by `Extract.EnvLinesMembers` and `Extract.ContainersEnvLinesCount` |
| Extract.ConfigMapNames | cmd/main.go:51-55 | An `envFrom` list adds at most one ConfigMap name per entry |
| Extract.SecretNames | cmd/main.go:51-59 | An `envFrom` list adds at most one Secret name per entry |
| Extract.ContainerRefs | cmd/main.go:46-63 | A container adds its env lines, its ConfigMap names and its Secret names; skipping a container with no `envFrom` and no `env` entries gives the same result as processing it |
| Extract.ContainersRefs | cmd/main.go:46-64 | Definition, no contract: the containers of one deployment contribute in order; stated by `Extract.ContainersRefsAppend` and `Extract.ContainersRefsMembers` |
| Extract.ExtractAll | cmd/main.go:41-65 | Definition, no contract: the three lists the deployment loop collects; stated by `Extract.ExtractAllKept`, `Extract.EnvLinesCount` and the `Extract.ExtractAll…Members` lemmas |
| Extract.DeploymentRefs | cmd/main.go:42-64 | Definition, no contract: what one listed deployment adds, nothing unless its name contains the filter text |
| Extract.Kept | cmd/main.go:41-44 | The filtered deployment list is no longer than the listing |
| Extract.ConfigMapNamesAppend | cmd/main.go:51-55 | ConfigMap names are collected in `envFrom` order across consecutive entries |
| Extract.SecretNamesAppend | cmd/main.go:51-59 | Secret names are collected in `envFrom` order across consecutive entries |
| Extract.EnvFromEntryAdds | cmd/main.go:52-58 | One `envFrom` entry adds its ConfigMap name and its Secret name each in its own list, in place, independently: an entry with both adds to both, an entry with neither adds nothing |
| Extract.EnvFromSingle | cmd/main.go:52-58 | A single entry adds exactly the references it holds |
| Extract.EnvLinesAppend | cmd/main.go:61-63 | Direct lines are produced in `env` order across consecutive entries |
| Extract.ContainersRefsAppend | cmd/main.go:46-64 | Containers contribute in order: the lists of two runs of containers are the first run's lists followed by the second's |
| Extract.ContainersRefsSnoc | cmd/main.go:46-64 | One more container appends its own contribution after the others |
| Extract.ExtractAllAppend | cmd/main.go:41-65 | Deployments contribute in listing order: the lists of two runs of deployments are the first run's lists followed by the second's |
| Extract.DroppedDeploymentInvisible | cmd/main.go:42-44 | A deployment whose name does not contain the filter text changes none of the three lists |
| Extract.ExtractAllSingle | cmd/main.go:41-65 | A single deployment contributes exactly its own lists, or nothing if it is filtered out |
| Extract.KeptDeploymentContributes | cmd/main.go:42-64 | A deployment whose name contains the filter text contributes all of its containers' lists at its place in the listing |
| Extract.KeptCounts | cmd/main.go:41-44 | The filter keeps each deployment whose name contains the filter text exactly as often as it is listed, and never keeps one whose name does not |
| Extract.KeptEmptyFilter | cmd/main.go:42 | The empty filter keeps every deployment |
| Extract.ExtractAllKept | cmd/main.go:41-65 | Filtering first and then processing every deployment gives the same three lists |
| Extract.ContainersEnvLinesCount | cmd/main.go:61-63 | The containers give one direct line per `env` entry |
| Extract.EnvLinesCount | cmd/main.go:41-65 | The number of direct lines is the number of `env` entries over the kept deployments |
| Extract.EnvLinesMembers | cmd/main.go:61-63 | A line is a direct line of an `env` list exactly when some entry formats to it |
| Extract.EnvFromNamesMembers | cmd/main.go:51-59 | A name is collected exactly when some `envFrom` entry references it, as a ConfigMap or as a Secret |
| Extract.ContainerRefsMembers | cmd/main.go:46-63 | A container's lists hold exactly what its entries declare |
| Extract.ContainersRefsMembers | cmd/main.go:46-64 | A run of containers' lists hold exactly what some container of it declares |
| Extract.ExtractAllLineMembers | cmd/main.go:41-65 | A direct line is collected exactly when some kept deployment declares it |
| Extract.ExtractAllConfigMapMembers | cmd/main.go:41-65 | A ConfigMap name is collected exactly when some kept deployment references it |
| Extract.ExtractAllSecretMembers | cmd/main.go:41-65 | A Secret name is collected exactly when some kept deployment references it |
| Extract.ExtractReferences | cmd/main.go:39-65 | The deployment loop computes exactly the three lists `ExtractAll` defines |
| Extract.ExtractDeployment | cmd/main.go:46-64 | The container loop of one deployment appends exactly that deployment's contribution |
| Extract.ExtractContainer | cmd/main.go:47-63 | The body for one container, with its skip of empty containers, appends exactly the container's contribution |
| Extract.EnvFromNamesPrefixStep | cmd/main.go:51-59 | Each `envFrom` step appends the entry's own references after those of the entries before it |
| Extract.AppendEnvFromNames | cmd/main.go:51-59 | The `envFrom` loop appends exactly the entries' ConfigMap names and Secret names |
| Extract.AppendEnvLines | cmd/main.go:61-63 | The `env` loop appends exactly one formatted line per entry |
| Join.EntryLines | cmd/main.go:85-89 | Definition, no contract: one `key=value` line for an entry with a non-empty value, none for an empty value |
| Join.ObjectLines | cmd/main.go:84-90 | An object yields at most one line per data entry |
| Join.MatchLines | cmd/main.go:80-82 | Definition, no contract: an object contributes its lines to a reference name only when its name equals it |
| Join.ResolveName | cmd/main.go:79-91 | Definition, no contract: the lines of every object named `ref`, in listing order; stated by `Join.ResolveNameMembers` and `Join.ResolveNameCount` |
| Join.Resolve | cmd/main.go:78-92 | Definition, no contract: the reference names in collection order, each resolved on its own; stated by `Join.ResolveMembers`, `Join.ResolveCount` and `Join.JoinReferences` |
| Join.ResolveVisits | cmd/main.go:78-92 | Definition, no contract: the join with every scan seeing its own enumeration of the maps; stated by `Join.ResolveVisitsPermutation` |
| Join.Copies | cmd/main.go:78-92 | Helper for `Join.RepeatedReference`, which states repeated references with it: `k` copies of a list are `k` times as long |
| Join.ObjectLinesAppend | cmd/main.go:84-90 | Data entries contribute lines in enumeration order |
| Join.ResolveNameAppend | cmd/main.go:79-91 | The objects matching one name contribute in listing order |
| Join.ResolveAppend | cmd/main.go:78-92 | Reference names are resolved in collection order: two runs of names give the first run's lines, then the second's |
| Join.ObjectLinesSnoc | cmd/main.go:84-90 | One more data entry appends its line, if any |
| Join.ResolveNameSnoc | cmd/main.go:79-91 | One more listed object appends its lines if its name matches |
| Join.ResolveSnoc | cmd/main.go:78-92 | One more reference name appends its resolution |
| Join.ObjectLinesMembers | cmd/main.go:84-90 | A line comes from an object exactly when one of its entries has a non-empty value and formats to it |
| Join.ResolveNameMembers | cmd/main.go:79-91 | A line is resolved for a name exactly when some object of exactly that name supplies it |
| Join.ResolveMembers | cmd/main.go:78-92 | A line is produced exactly when some listed object whose name is among the reference names supplies it through a non-empty value |
| Join.UnmatchedObjectInvisible | cmd/main.go:80-82 | An object whose name differs from the reference name adds nothing for it: the match is exact name equality |
| Join.UnresolvedNameEmpty | cmd/main.go:79-91 | A name that no listed object carries resolves to no line |
| Join.UnresolvedReferenceDropped | cmd/main.go:78-92 | An unresolved reference name is dropped silently: the output is as if it had not been collected |
| Join.RepeatedReference | cmd/main.go:78-92 | A name referenced `k` times contributes its lines `k` times: nothing is merged |
| Join.ObjectLinesMatchMap | cmd/main.go:84-90 | Whatever the enumeration order, an object's lines are the `key=value` lines of its map's keys with non-empty values |
| Join.ObjectLinesCount | cmd/main.go:84-90 | An object yields one line per key with a non-empty value |
| Join.SplitPermutation | cmd/main.go:84-90 | Helper for `Join.ObjectLinesPermutation`: any other enumeration of the data places the first entry somewhere, with the rest a permutation of the others |
| Join.ObjectLinesPermutation | cmd/main.go:84-90 | Enumerating the data in another order yields the same lines, each as often |
| Join.ResolveNamePermutation | cmd/main.go:79-91 | If the scan for one name sees every object's data in another enumeration order, it yields the same lines, each as often |
| Join.ResolveVisitsPermutation | cmd/main.go:78-92 | If every scan of the join enumerates each map afresh, in any order, the join yields the same lines as with one fixed enumeration, each as often; repeated names agree only up to order |
| Join.ResolveNameCount | cmd/main.go:79-91 | One name yields, over every object of that name, one line per key with a non-empty value |
| Join.ResolveCount | cmd/main.go:78-92 | The join yields that count for every reference occurrence |
| Join.JoinReferences | cmd/main.go:78-92 | The join loop appends exactly the resolution of the names after the lines already collected |
| Join.JoinName | cmd/main.go:79-91 | The scan of the objects for one name appends exactly that name's resolution |
| Join.ResolvePrefixStep | cmd/main.go:78-92 | Each step of the name loop appends that name's resolution |
| Join.ResolveNamePrefixStep | cmd/main.go:79-91 | Each step of the object scan appends that object's matching lines |
| Join.ObjectLinesPrefixStep | cmd/main.go:84-90 | Each step of the data loop appends that entry's line, if any |
| Join.AppendObjectLines | cmd/main.go:84-90 | The data loop skips empty values and appends one formatted line per other entry |
| Writer.EscapeLine | cmd/main.go:112-114 | Escaping only the lines that contain `;` gives the same as escaping every line |
| Writer.EscapeAll | cmd/main.go:111-115 | The escape step keeps the number of lines and escapes each line in place |
| Writer.EscapeAllWithoutSemicolons | cmd/main.go:111-115 | A list without `;` comes through the escape step unchanged |
| Writer.EscapeAllReversible | cmd/main.go:111-115 | Each escaped line reads back, unescaped, as the line it came from |
| Writer.Serialize | cmd/main.go:129-134 | The written text has the total length of the lines plus one newline per line |
| Writer.SerializeAppend | cmd/main.go:129-134 | Writing two runs of lines writes the first run's text, then the second's |
| Writer.SplitSerialize | cmd/main.go:129-134 | If no line holds a newline, splitting the written text at newlines gives back exactly the lines, in order |
| Writer.EscapeLines | cmd/main.go:111-115 | The escape loop computes exactly `EscapeAll` |
| Writer.WriteLines | cmd/main.go:129-134 | The write loop produces exactly the serialised text |
| Pipeline.CollectedLines | cmd/main.go:39-108 | Definition, no contract: the direct lines, then the Secret join, then the ConfigMap join; stated by `Pipeline.CollectedProvenance` and `Pipeline.CollectedCount` |
| Pipeline.EnvFileText | cmd/main.go:110-134 | Definition, no contract: the serialisation of the escaped collected list; stated by `Pipeline.EnvFileReadsBack` and `Pipeline.Run` |
| Pipeline.CollectLines | cmd/main.go:39-108 | The collected list is the direct lines, then every Secret-derived line, then every ConfigMap-derived line |
| Pipeline.Run | cmd/main.go:39-134 | The text written is the serialisation of the escaped collected list |
| Pipeline.FilterExclusivity | cmd/main.go:42-44 | A deployment whose name does not contain the filter text has no effect on the list or on the file |
| Pipeline.DirectLinesFirst | cmd/main.go:61-108 | The direct lines open the list whatever the Secrets and ConfigMaps hold |
| Pipeline.DirectEnvReachesOutput | cmd/main.go:61-115 | Every direct `env` entry of a kept deployment's container reaches the list and, escaped, the escaped list |
| Pipeline.CollectedProvenance | cmd/main.go:39-108 | A line is collected exactly when it is a kept deployment's direct line, or a non-empty entry of a Secret or ConfigMap that a kept deployment references by name |
| Pipeline.CollectedCount | cmd/main.go:39-108 | The number of lines is the number of direct entries of kept deployments, plus, for each reference occurrence and each object of that name, the number of keys with a non-empty value |
| Pipeline.EnvFileReadsBack | cmd/main.go:110-134 | If no line holds a newline, the file splits into as many lines as were collected, and each unescapes to its collected line |
| Pipeline.DirectEnvExample | cmd/main.go:41-63 | Deployment `api-server`, filter `api`, and one container with `FOO=bar` give the file text `FOO=bar` plus a newline |
| Pipeline.DirectEnvExampleRefs | cmd/main.go:41-63 | In that example, extraction yields the one direct line and no reference names |
| Pipeline.PlainLineWritten | cmd/main.go:111-134 | A line without `;` is written as itself followed by a newline |
| Pipeline.ConfigMapExample | cmd/main.go:94-108 | A referenced ConfigMap with `A: "1"` and `B: ""` yields `A=1` and nothing for `B` |
| Pipeline.SemicolonExample | cmd/main.go:113 | The line `X=a;b` escapes to `X=a\;b` |

## Left out

- Kubeconfig lookup and client construction (cmd/main.go:22-35). These are
  I/O against the local file system and the cluster. The listings they make
  possible are inputs to the model.
- The three list calls (cmd/main.go:37, 67-75). They are network calls; their
  results are input sequences. The fatal exits on list errors (69, 74) are
  not modelled.
- The unchecked error of the deployment listing (line 37) is not modelled
  either: the deployment listing is assumed to succeed.
- The flags (lines 19-20) are never parsed, because `flag.Parse` is not
  called, so at run time the filter is always empty. The model takes the
  filter text as a parameter. `Extract.KeptEmptyFilter` states what the
  empty filter does.
- Creating, closing and writing the `.env` file, and the success message
  (lines 117-127, 130-133, 136). The model computes the file's text; write
  errors and `log.Fatal` are not modelled.
- Go's map enumeration order (lines 84, 100) is unspecified and may differ
  between two `range` loops over the same map. Each object's data is taken
  as one enumeration, a sequence with distinct keys. `Join.ObjectLinesPermutation`
  and `Join.ResolveVisitsPermutation` show that the order affects only the
  order of the lines.
- Secret values are byte slices, converted with `string(value)` (line 89).
  The model takes them as already converted strings. An empty byte slice is
  an empty string, so the `len(value) == 0` test is the same.
- Strings are sequences of characters. Go strings are sequences of bytes, so
  the lengths in `Strings.EscapeSemicolons` and `Writer.Serialize` count
  characters, not bytes of the file. The behaviour modelled is the same:
  `;`, `=` and the newline are ASCII, and substring tests on valid UTF-8
  agree with tests on characters.
- `fmt.Sprintf("%s=%s", …)` (lines 62, 89, 105) is modelled as
  concatenation, `Cluster.Format`. Formatting internals are not modelled.
- The two join loops (78-92 and 94-108) have the same shape; they differ only
  in the `string(value)` conversion of line 89. Both are
  modelled by the one generic `Join` module, applied to the Secret listing
  and to the ConfigMap listing.
- Join.RepeatedReference: assumes every scan sees the same enumeration of
  each object's map. Go may enumerate a map afresh on every `range` (lines 84
  and 100), so in the program the `k` copies of a repeated name's lines can
  come in different orders. They agree as multisets, which
  `Join.ResolveVisitsPermutation` states for the join with a fresh
  enumeration per scan.
- Extract.ConfigMapNames: its own contract states only a length bound. Which
  names it holds, and in what order, is stated by
  `Extract.EnvFromNamesMembers`, `Extract.ConfigMapNamesAppend` and
  `Extract.EnvFromEntryAdds`.
- Extract.SecretNames: its own contract states only a length bound. Which
  names it holds, and in what order, is stated by
  `Extract.EnvFromNamesMembers`, `Extract.SecretNamesAppend` and
  `Extract.EnvFromEntryAdds`.
- Extract.Kept: its own contract states only a length bound. What it keeps
  is stated by `Extract.KeptCounts`.
- Join.ObjectLines: its own contract states only a length bound. Its
  contents are stated by `Join.ObjectLinesMembers`, `Join.ObjectLinesCount`
  and `Join.ObjectLinesMatchMap`.
