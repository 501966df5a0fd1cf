# kangol descriptor translator, modelled in Dafny

kangol reads a YAML deployment descriptor and turns it into two things: a
cluster/service/desired-count triple used to update a service, and a
task-definition registration request for the container service. This
project models that translator, `ReadConfig` in `internal/task/task.go`,
together with the helpers it uses:

- `addImageTag`, the image-tag override;
- the per-field converters `getPortMapping`, `getHealthCheck`, `getCommands`,
  `getEntryPoints`, `getEnvironments`, `getLinks`, `getMountPoints`,
  `getVolumesFrom`, `getVolumes` and `getLogConfiguration`;
- the descriptor records.

It then proves what the translation guarantees.

Files and modules:

- `wrappers.dfy`: `Wrappers` (`Option`, `Result`) and `GoTypes`. `GoTypes`
  holds `int64`, `byte` and `Error`, a Go error known by its message.
- `strings.dfy`: `Strings`, Go's `strings.Split` and `strings.Join` for a
  one-character separator, with their round-trip lemmas.
- `ecs.dfy`: `Ecs`, the request records the translator fills in, as plain
  datatypes. A block the translator may leave nil is an `Option`:
  `HealthCheck`, `LogConfiguration` and `NetworkMode`.
- `task.dfy`: `Task`, with the descriptor records, `AddImageTag`, the
  converters and `ReadConfig`. The list converters and `ReadConfig` are
  methods with loops, because the source builds its results by appending
  inside a loop. `GetHealthCheck` and `GetLogConfiguration` are functions,
  because the source builds each with a single struct literal.
  `TranslateContainer` is the body of `ReadConfig`'s loop for one container,
  lines 117-143, taken out as its own method.
- `task_properties.dfy`: `TaskProperties`, which holds lemmas that relate
  several translations, plus two scenario methods that call `ReadConfig`.

How the parts the model cannot run are handled:

- **The file read** does not happen. `ReadConfig` receives its outcome as a
  `Result`: the file's bytes, or the read error.
- **The YAML decoder** is the parameter `unmarshal`. Given the bytes, it
  returns a deployment and an optional decode error (`Decoded`). When
  decoding fails, the deployment it returns may be partly filled or zero.
- **Go's map iteration order** is unspecified. It is the parameter `order`,
  which must list each container name exactly once (`IsIterationOrder`).
- **The specification of a translation** is the predicate `Translation`,
  stated in terms of `order`. For each `i`, definition `i` is the container
  named `order[i]`, with every field carried over (`Translates`).
  `Translation` also fixes the family and the optional network mode. The
  request's volumes are those of the container visited last.

## Model

| member | source | states |
|---|---|---|
| `Strings.Split` | internal/task/task.go:163 | splitting on `:` always yields at least one piece, and no piece contains `:` |
| `Strings.SplitSingle` | internal/task/task.go:163 | a string splits into one piece, itself, exactly when it contains no separator |
| `Strings.JoinSplit` | internal/task/task.go:163-165 | joining the pieces of a split gives back the original string |
| `Strings.JoinSnoc` | internal/task/task.go:165 | joining parts plus one more part puts exactly one separator before the last part |
| `Strings.SplitAfterPiece` | internal/task/task.go:163-165 | a separator-free piece followed by the separator splits off as a piece of its own |
| `Strings.SplitJoinLast` | internal/task/task.go:163-165 | splitting a join of separator-free leading parts gives back those parts, followed by the pieces of the last part |
| `Strings.SplitJoin` | internal/task/task.go:163-165 | splitting a join of separator-free pieces gives back the pieces |
| `Task.TagPrefix` | internal/task/task.go:162-166 | the part of an image up to and including its last `:`: a prefix of the image, ending in `:`, with no `:` after it, and empty exactly when the image has no `:` |
| `Task.TagPrefixUnique` | internal/task/task.go:162-166 | exactly one prefix of the image has those properties |
| `Task.ReplaceLastPiece` | internal/task/task.go:163-165 | split the image, replace the last piece with the tag and join: the result is the image up to its last `:`, followed by the tag |
| `Task.TaggedImagePieces` | internal/task/task.go:162-166 | the pieces of a retagged image are the image's pieces except the last, followed by the pieces of the tag |
| `Task.AddImageTag` | internal/task/task.go:162-166 | addImageTag returns the image up to its last `:` followed by the tag. Its pieces are the image's pieces except the last, followed by the tag's pieces |
| `Task.GetPortMapping` | internal/task/task.go:168-179 | one request port mapping per descriptor port mapping, in the same order, each with the same container port, host port and protocol |
| `Task.GetHealthCheck` | internal/task/task.go:181-190 | the health-check block has the descriptor's command, interval, retries, start period and timeout |
| `Task.GetCommands` | internal/task/task.go:192-198 | the command list equals the descriptor's command list |
| `Task.GetEntryPoints` | internal/task/task.go:200-206 | the entrypoint list equals the descriptor's entrypoint list |
| `Task.GetEnvironments` | internal/task/task.go:208-218 | one name/value pair per environment entry, in the same order, with the same name and value |
| `Task.GetLinks` | internal/task/task.go:220-226 | the link list equals the descriptor's link list |
| `Task.GetMountPoints` | internal/task/task.go:228-239 | one mount point per descriptor mount point, in the same order, with the same container path, read-only flag and source volume |
| `Task.GetVolumesFrom` | internal/task/task.go:241-251 | one volumes-from entry per descriptor entry, in the same order, with the same read-only flag and source container |
| `Task.GetVolumes` | internal/task/task.go:253-265 | one volume per descriptor volume, in the same order, with the same host source path and name |
| `Task.GetLogConfiguration` | internal/task/task.go:267-274 | the log configuration has the descriptor's log driver and passes its options through unchanged |
| `Task.TranslateContainer` | internal/task/task.go:117-143 | the definition carries the container's name, CPU, memory and essential flag. Its image is the tag-overridden image when the override tag is non-empty, the original image otherwise. Every list is converted, and the docker labels are passed through. The health check is present if and only if the health-check command is non-empty. The log configuration is present if and only if the log driver is non-empty, and then holds that driver and its options |
| `Task.ReadConfig` | internal/task/task.go:101-159 | on a read error: a zero triple, no request, and that error. Otherwise: the triple is (cluster, service, count) of the decoded deployment, and the decode error is returned unchanged. A request is built even when decoding fails. Its definitions are one per container in iteration order, entry `i` named `order[i]` and carrying that container. The family is the deployment's name. The network mode is present if and only if it is non-empty. The volumes are those of the last container visited, and empty when there is no container |
| `TaskProperties.TaggedImageSegments` | internal/task/task.go:162-166 | with a tag that has no `:`, the retagged image has as many `:`-pieces as the image. Its last piece is the tag, and every earlier piece is unchanged. An image without `:` becomes just the tag |
| `TaskProperties.TaggedImageReplacesTag` | internal/task/task.go:162-166 | `repository:previous` retagged with `tag` becomes `repository:tag` |
| `TaskProperties.TaggedImageTaggedExample` | internal/task/task.go:163-165 | `"repo/image:old"` with tag `"new"` becomes `"repo/image:new"` |
| `TaskProperties.TaggedImageUntaggedExample` | internal/task/task.go:163-165 | `"repo/image"` with tag `"new"` becomes `"new"`, not `"repo/image:new"` |
| `TaskProperties.DistinctCardinality` | internal/task/task.go:116 | an iteration order without repeats has as many distinct names as positions |
| `TaskProperties.IterationOrderLength` | internal/task/task.go:116 | every iteration order of the container map has as many names as the map has keys |
| `TaskProperties.DefinitionNames` | internal/task/task.go:116-144 | there is one definition per visited container, and definition `i` is named after the `i`-th container visited |
| `TaskProperties.EachContainerOnce` | internal/task/task.go:116-144 | there are as many definitions as containers. Their names are exactly the container names, with no repeats, and each definition carries the container of its name |
| `TaskProperties.PortMappingsDetermined` | internal/task/task.go:168-179 | the port-mapping contract leaves no freedom: two outputs that carry the same input are equal |
| `TaskProperties.EnvironmentsDetermined` | internal/task/task.go:208-218 | two environment lists that carry the same input are equal |
| `TaskProperties.MountPointsDetermined` | internal/task/task.go:228-239 | two mount-point lists that carry the same input are equal |
| `TaskProperties.VolumesFromDetermined` | internal/task/task.go:241-251 | two volumes-from lists that carry the same input are equal |
| `TaskProperties.VolumesDetermined` | internal/task/task.go:253-265 | two volume lists that carry the same input are equal |
| `TaskProperties.DefinitionDetermined` | internal/task/task.go:121-143 | the per-container contract fixes every field of the definition |
| `TaskProperties.TranslationDetermined` | internal/task/task.go:108-159 | for one iteration order, exactly one request satisfies the translation contract |
| `TaskProperties.DistinctMultiplicity` | internal/task/task.go:144 | in a list without repeats, every element occurs exactly once |
| `TaskProperties.DefinitionsDistinct` | internal/task/task.go:126 | the definitions of a translation are pairwise different, because their names are |
| `TaskProperties.DistinctSameElements` | internal/task/task.go:144 | two lists without repeats that contain the same elements are permutations of each other |
| `TaskProperties.DefinitionsShared` | internal/task/task.go:116-144 | every definition built under one iteration order is also built under any other |
| `TaskProperties.OrderIndependent` | internal/task/task.go:116-157 | two iteration orders give the same family and network mode, and container-definition lists that are permutations of each other |
| `TaskProperties.VolumesSourceDetermined` | internal/task/task.go:253-265 | converted volumes determine the descriptor volumes they came from |
| `TaskProperties.VolumesLastWins` | internal/task/task.go:114-152 | with containers `a` and `b`, the order `[a, b]` gives `b`'s volumes, as many as `b` has and not a union. The order `[b, a]` gives `a`'s volumes. When the two differ, the two orders give different requests |
| `TaskProperties.WebScenario` | internal/task/task.go:101-159 | a descriptor with cluster prod, service api, count 3 and one container web (org/app:1.0, cpu 256, memory 512, essential) translates to that triple and one definition named web. The definition has those fields and no health check or log configuration |
| `TaskProperties.DecodeFailureScenario` | internal/task/task.go:108-159 | when decoding fails and leaves a zero descriptor, the result is the zero triple and a request with no containers, empty family, no volumes and no network mode. The decode error is returned alongside |

## Left out

- Reading the file (`ioutil.ReadFile`, task.go:102) is file I/O. Only its outcome is modelled: the bytes, or an error.
- YAML decoding (`yaml.Unmarshal`, task.go:109) belongs to a foreign library. The model treats it as an arbitrary function from bytes to a deployment and an optional error, so it does not model the YAML keys or the decoding rules, including the misspelled `souceVolume` key.
- Go's map iteration order is not modelled as randomness. Each call receives one order as a parameter; `OrderIndependent` and `VolumesLastWins` state what does and does not depend on it.
- The `aws.Int64`, `aws.String`, `aws.Bool` and `aws.StringSlice` pointer wrappers are not modelled: set pointers are plain values. The nil-versus-empty-slice distinction of Go is left out too. The `*string` values of `dockerLabels` and `options` are `Option<string>`.
- The SDK request types keep only the fields the translator sets. All other fields of the SDK's container definition and registration input stay unset and are left out.
- Error values are reduced to a message. The model passes them along unchanged, just as the source does.
- `cmd/kangol/main.go` only handles the command line, logging and process exit. The register-task-definition and update-service calls made by the surrounding application are network calls. Neither is part of this model.
- No arithmetic is done on the `int64` fields, so the model has no overflow behaviour to capture.
