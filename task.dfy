/**
  The deployment-descriptor translator of internal/task/task.go: the
  descriptor records, the image-tag override, the per-field converters into
  the SDK's request records, and ReadConfig, which turns one descriptor into
  a cluster/service/count triple and a task-definition registration request.
*/
module Task {
  import opened Wrappers
  import opened GoTypes
  import Strings
  import Ecs

  // ---------------------------------------------------------------------
  // The descriptor, as the YAML decoder fills it in
  // ---------------------------------------------------------------------

  /** The service a deployment updates and the task count it asks for. */
  datatype ClusterService = ClusterService(cluster: string, service: string, count: int64)

  datatype PortMapping = PortMapping(containerPort: int64, hostPort: int64, protocol: string)

  datatype HealthCheck = HealthCheck(
    command: seq<string>,
    interval: int64,
    retries: int64,
    startPeriod: int64,
    timeout: int64)

  datatype Environment = Environment(name: string, value: string)

  /** A mount point; its source volume is read from the YAML key "souceVolume". */
  datatype MountPoint = MountPoint(containerPath: string, readOnly: bool, sourceVolume: string)

  datatype VolumesFrom = VolumesFrom(readOnly: bool, sourceContainer: string)

  datatype TaskVolumeHost = TaskVolumeHost(sourcePath: string)

  datatype Volume = Volume(host: TaskVolumeHost, name: string)

  datatype LogConfiguration = LogConfiguration(logDriver: string, options: Ecs.StringMap)

  /** One container of the descriptor's `task` mapping. */
  datatype ContainerDefinition = ContainerDefinition(
    cpu: int64,
    essential: bool,
    image: string,
    memory: int64,
    portMappings: seq<PortMapping>,
    healthCheck: HealthCheck,
    command: seq<string>,
    entryPoint: seq<string>,
    environment: seq<Environment>,
    link: seq<string>,
    mountPoints: seq<MountPoint>,
    volumesFrom: seq<VolumesFrom>,
    volumes: seq<Volume>,
    logConfiguration: LogConfiguration,
    dockerLabels: Ecs.StringMap)

  /** The whole descriptor; `task` maps each container name to its definition. */
  datatype Deployment = Deployment(
    cluster: string,
    service: string,
    count: int64,
    name: string,
    networkMode: string,
    task: map<string, ContainerDefinition>)

  /** What the YAML decoder leaves behind: the (possibly partly filled) deployment and its error, if any. */
  datatype Decoded = Decoded(deployment: Deployment, err: Option<Error>)

  // ---------------------------------------------------------------------
  // Image-tag override
  // ---------------------------------------------------------------------

  /** The character that separates an image reference from its tag. */
  const TagSeparator: char := ':'

  /**
    The part of an image reference up to and including its last ':'; empty
    when the reference holds no ':'.
  */
  function TagPrefix(image: string): (p: string)
    ensures |p| <= |image| && p == image[..|p|]
    ensures TagSeparator !in image[|p|..]
    ensures TagSeparator in image <==> |p| > 0
    ensures |p| > 0 ==> p[|p| - 1] == TagSeparator
    decreases |image|
  {
    if TagSeparator !in image then ""
    else
      assert image == [image[0]] + image[1..];
      [image[0]] + TagPrefix(image[1..])
  }

  /** The image reference with everything after its last ':' replaced by `tag`. */
  function TaggedImage(image: string, tag: string): string
  {
    TagPrefix(image) + tag
  }

  /**
    TagPrefix is the only prefix of the image that ends in ':' (or is empty
    when the image holds no ':') and is followed by no further ':'.
  */
  lemma TagPrefixUnique(image: string, q: string)
    requires |q| <= |image| && q == image[..|q|]
    requires TagSeparator !in image[|q|..]
    requires TagSeparator in image ==> |q| > 0
    requires |q| > 0 ==> q[|q| - 1] == TagSeparator
    ensures q == TagPrefix(image)
  {
  }

  /**
    Joining the ':'-pieces of an image with the last piece replaced by `tag`
    keeps everything up to the last ':' and puts `tag` after it.
  */
  lemma ReplaceLastPiece(image: string, tag: string)
    ensures var parts := Strings.Split(image, TagSeparator);
      Strings.Join(parts[..|parts| - 1] + [tag], TagSeparator) == TagPrefix(image) + tag
  {
    var parts := Strings.Split(image, TagSeparator);
    var n := |parts|;
    var init, last := parts[..n - 1], parts[n - 1];
    assert parts == init + [last];
    Strings.JoinSplit(image, TagSeparator);
    Strings.SplitSingle(image, TagSeparator);
    if n == 1 {
      assert init + [tag] == [tag];
    } else {
      Strings.JoinSnoc(init, last, TagSeparator);
      Strings.JoinSnoc(init, tag, TagSeparator);
      var q := Strings.Join(init, TagSeparator) + [TagSeparator];
      assert image == q + last;
      assert image[|q|..] == last;
      TagPrefixUnique(image, q);
    }
  }

  /**
    The ':'-pieces of a retagged image: the image's pieces but the last,
    followed by the pieces of the tag.
  */
  lemma TaggedImagePieces(image: string, tag: string)
    ensures var before := Strings.Split(image, TagSeparator);
      Strings.Split(TaggedImage(image, tag), TagSeparator)
        == before[..|before| - 1] + Strings.Split(tag, TagSeparator)
  {
    var parts := Strings.Split(image, TagSeparator);
    ReplaceLastPiece(image, tag);
    Strings.SplitJoinLast(parts[..|parts| - 1], tag, TagSeparator);
  }

  /**
    addImageTag: split the image on ':', overwrite the last piece with the
    tag and join again. The result keeps the image up to its last ':' and
    ends in the tag; its pieces are the image's pieces but the last,
    followed by the pieces of the tag.
  */
  method AddImageTag(image: string, tag: string) returns (r: string)
    ensures r == TaggedImage(image, tag)
    ensures var before := Strings.Split(image, TagSeparator);
      Strings.Split(r, TagSeparator) == before[..|before| - 1] + Strings.Split(tag, TagSeparator)
  {
    var parts := Strings.Split(image, TagSeparator);
    ghost var original := parts;
    parts := parts[|parts| - 1 := tag];
    r := Strings.Join(parts, TagSeparator);
    assert parts == original[..|original| - 1] + [tag];
    ReplaceLastPiece(image, tag);
    TaggedImagePieces(image, tag);
  }

  /** The override tag for a container: Go's `tags[name]`, the empty string for a missing key. */
  function TagFor(tags: map<string, string>, name: string): string
  {
    if name in tags then tags[name] else ""
  }

  /** The image a container is registered with: the override tag applies only when it is non-empty. */
  function EffectiveImage(image: string, tags: map<string, string>, name: string): string
  {
    if TagFor(tags, name) != "" then TaggedImage(image, TagFor(tags, name)) else image
  }

  // ---------------------------------------------------------------------
  // What each converter promises: the output carries the input's fields
  // ---------------------------------------------------------------------

  predicate PortMappingsCarried(out: seq<Ecs.PortMapping>, src: seq<PortMapping>)
  {
    && |out| == |src|
    && forall i :: 0 <= i < |src| ==>
         && out[i].containerPort == src[i].containerPort
         && out[i].hostPort == src[i].hostPort
         && out[i].protocol == src[i].protocol
  }

  predicate EnvironmentsCarried(out: seq<Ecs.KeyValuePair>, src: seq<Environment>)
  {
    && |out| == |src|
    && forall i :: 0 <= i < |src| ==> out[i].name == src[i].name && out[i].value == src[i].value
  }

  predicate MountPointsCarried(out: seq<Ecs.MountPoint>, src: seq<MountPoint>)
  {
    && |out| == |src|
    && forall i :: 0 <= i < |src| ==>
         && out[i].containerPath == src[i].containerPath
         && out[i].readOnly == src[i].readOnly
         && out[i].sourceVolume == src[i].sourceVolume
  }

  predicate VolumesFromCarried(out: seq<Ecs.VolumeFrom>, src: seq<VolumesFrom>)
  {
    && |out| == |src|
    && forall i :: 0 <= i < |src| ==>
         out[i].readOnly == src[i].readOnly && out[i].sourceContainer == src[i].sourceContainer
  }

  predicate VolumesCarried(out: seq<Ecs.Volume>, src: seq<Volume>)
  {
    && |out| == |src|
    && forall i :: 0 <= i < |src| ==>
         out[i].host.sourcePath == src[i].host.sourcePath && out[i].name == src[i].name
  }

  predicate HealthCheckCarried(out: Ecs.HealthCheck, src: HealthCheck)
  {
    && out.command == src.command
    && out.interval == src.interval
    && out.retries == src.retries
    && out.startPeriod == src.startPeriod
    && out.timeout == src.timeout
  }

  predicate LogConfigurationCarried(out: Ecs.LogConfiguration, src: LogConfiguration)
  {
    out.logDriver == src.logDriver && out.options == src.options
  }

  // ---------------------------------------------------------------------
  // The per-field converters
  // ---------------------------------------------------------------------

  /** getPortMapping: one request port mapping per descriptor port mapping, in order. */
  method GetPortMapping(con: ContainerDefinition) returns (ports: seq<Ecs.PortMapping>)
    ensures PortMappingsCarried(ports, con.portMappings)
  {
    ports := [];
    for k := 0 to |con.portMappings|
      invariant PortMappingsCarried(ports, con.portMappings[..k])
    {
      var v := con.portMappings[k];
      var port := Ecs.PortMapping(v.containerPort, v.hostPort, v.protocol);
      ports := ports + [port];
    }
    assert con.portMappings[..|con.portMappings|] == con.portMappings;
  }

  /** getHealthCheck: the health-check block with every descriptor field copied. */
  function GetHealthCheck(con: ContainerDefinition): (hc: Ecs.HealthCheck)
    ensures HealthCheckCarried(hc, con.healthCheck)
  {
    var h := con.healthCheck;
    Ecs.HealthCheck(h.command, h.interval, h.retries, h.startPeriod, h.timeout)
  }

  /** getCommands: the command override, element by element. */
  method GetCommands(con: ContainerDefinition) returns (commands: seq<string>)
    ensures commands == con.command
  {
    commands := [];
    for k := 0 to |con.command|
      invariant commands == con.command[..k]
    {
      commands := commands + [con.command[k]];
    }
    assert con.command[..|con.command|] == con.command;
  }

  /** getEntryPoints: the entrypoint override, element by element. */
  method GetEntryPoints(con: ContainerDefinition) returns (entryPoints: seq<string>)
    ensures entryPoints == con.entryPoint
  {
    entryPoints := [];
    for k := 0 to |con.entryPoint|
      invariant entryPoints == con.entryPoint[..k]
    {
      entryPoints := entryPoints + [con.entryPoint[k]];
    }
    assert con.entryPoint[..|con.entryPoint|] == con.entryPoint;
  }

  /** getEnvironments: one name/value pair per descriptor environment entry, in order. */
  method GetEnvironments(con: ContainerDefinition) returns (environments: seq<Ecs.KeyValuePair>)
    ensures EnvironmentsCarried(environments, con.environment)
  {
    environments := [];
    for k := 0 to |con.environment|
      invariant EnvironmentsCarried(environments, con.environment[..k])
    {
      var v := con.environment[k];
      environments := environments + [Ecs.KeyValuePair(v.name, v.value)];
    }
    assert con.environment[..|con.environment|] == con.environment;
  }

  /** getLinks: the link targets, element by element. */
  method GetLinks(con: ContainerDefinition) returns (links: seq<string>)
    ensures links == con.link
  {
    links := [];
    for k := 0 to |con.link|
      invariant links == con.link[..k]
    {
      links := links + [con.link[k]];
    }
    assert con.link[..|con.link|] == con.link;
  }

  /** getMountPoints: one request mount point per descriptor mount point, in order. */
  method GetMountPoints(con: ContainerDefinition) returns (mountPoints: seq<Ecs.MountPoint>)
    ensures MountPointsCarried(mountPoints, con.mountPoints)
  {
    mountPoints := [];
    for k := 0 to |con.mountPoints|
      invariant MountPointsCarried(mountPoints, con.mountPoints[..k])
    {
      var v := con.mountPoints[k];
      mountPoints := mountPoints + [Ecs.MountPoint(v.containerPath, v.readOnly, v.sourceVolume)];
    }
    assert con.mountPoints[..|con.mountPoints|] == con.mountPoints;
  }

  /** getVolumesFrom: one request volumes-from entry per descriptor entry, in order. */
  method GetVolumesFrom(con: ContainerDefinition) returns (volumesFroms: seq<Ecs.VolumeFrom>)
    ensures VolumesFromCarried(volumesFroms, con.volumesFrom)
  {
    volumesFroms := [];
    for k := 0 to |con.volumesFrom|
      invariant VolumesFromCarried(volumesFroms, con.volumesFrom[..k])
    {
      var v := con.volumesFrom[k];
      volumesFroms := volumesFroms + [Ecs.VolumeFrom(v.readOnly, v.sourceContainer)];
    }
    assert con.volumesFrom[..|con.volumesFrom|] == con.volumesFrom;
  }

  /** getVolumes: one request volume per descriptor volume, in order. */
  method GetVolumes(con: ContainerDefinition) returns (volumes: seq<Ecs.Volume>)
    ensures VolumesCarried(volumes, con.volumes)
  {
    volumes := [];
    for k := 0 to |con.volumes|
      invariant VolumesCarried(volumes, con.volumes[..k])
    {
      var v := con.volumes[k];
      var vol := Ecs.Volume(Ecs.HostVolumeProperties(v.host.sourcePath), v.name);
      volumes := volumes + [vol];
    }
    assert con.volumes[..|con.volumes|] == con.volumes;
  }

  /** getLogConfiguration: the log driver and its options, passed through unchanged. */
  function GetLogConfiguration(con: ContainerDefinition): (conf: Ecs.LogConfiguration)
    ensures LogConfigurationCarried(conf, con.logConfiguration)
  {
    var logConf := con.logConfiguration;
    Ecs.LogConfiguration(logConf.logDriver, logConf.options)
  }

  // ---------------------------------------------------------------------
  // ReadConfig
  // ---------------------------------------------------------------------

  /**
    An order in which Go may visit the entries of the `task` map: every key
    exactly once and nothing else.
  */
  predicate IsIterationOrder(order: seq<string>, task: map<string, ContainerDefinition>)
  {
    && (forall i, j :: 0 <= i < j < |order| ==> order[i] != order[j])
    && (forall name :: name in task ==> name in order)
    && (forall i :: 0 <= i < |order| ==> order[i] in task)
  }

  /** The request container definition for the container `name` carries all of its fields. */
  predicate Translates(def: Ecs.ContainerDefinition, name: string, con: ContainerDefinition,
                       tags: map<string, string>)
  {
    && def.name == name
    && def.cpu == con.cpu
    && def.essential == con.essential
    && def.memory == con.memory
    && def.image == EffectiveImage(con.image, tags, name)
    && PortMappingsCarried(def.portMappings, con.portMappings)
    && def.command == con.command
    && def.entryPoint == con.entryPoint
    && EnvironmentsCarried(def.environment, con.environment)
    && def.links == con.link
    && MountPointsCarried(def.mountPoints, con.mountPoints)
    && VolumesFromCarried(def.volumesFrom, con.volumesFrom)
    && def.dockerLabels == con.dockerLabels
    && (def.healthCheck.Some? <==> |con.healthCheck.command| != 0)
    && (def.healthCheck.Some? ==> HealthCheckCarried(def.healthCheck.value, con.healthCheck))
    && (def.logConfiguration.Some? <==> con.logConfiguration.logDriver != "")
    && (def.logConfiguration.Some? ==> LogConfigurationCarried(def.logConfiguration.value, con.logConfiguration))
  }

  /**
    The registration request built from deployment `d` when its containers are
    visited in `order`: one definition per container in that order, the family
    named after the deployment, the network mode only when one is given, and
    the volumes of the container visited last (none when there is no container).
  */
  predicate Translation(d: Deployment, tags: map<string, string>, order: seq<string>,
                        req: Ecs.RegisterTaskDefinitionInput)
    requires IsIterationOrder(order, d.task)
  {
    && |req.containerDefinitions| == |order|
    && (forall i :: 0 <= i < |order| ==>
          Translates(req.containerDefinitions[i], order[i], d.task[order[i]], tags))
    && req.family == d.name
    && (req.networkMode.Some? <==> d.networkMode != "")
    && (req.networkMode.Some? ==> req.networkMode.value == d.networkMode)
    && (if |order| == 0 then req.volumes == []
        else VolumesCarried(req.volumes, d.task[order[|order| - 1]].volumes))
  }

  /**
    The body of ReadConfig's loop for one container: apply its tag override,
    copy its scalar fields, convert its lists, and add the health-check block
    only when there is a health-check command and the log configuration only
    when there is a log driver.
  */
  method TranslateContainer(name: string, con: ContainerDefinition, tags: map<string, string>)
    returns (def: Ecs.ContainerDefinition)
    ensures Translates(def, name, con, tags)
  {
    var con := con;
    if TagFor(tags, name) != "" {
      var image := AddImageTag(con.image, TagFor(tags, name));
      con := con.(image := image);
    }
    var ports := GetPortMapping(con);
    var commands := GetCommands(con);
    var entryPoints := GetEntryPoints(con);
    var environments := GetEnvironments(con);
    var links := GetLinks(con);
    var mountPoints := GetMountPoints(con);
    var volumesFrom := GetVolumesFrom(con);
    def := Ecs.ContainerDefinition(
      cpu := con.cpu, essential := con.essential, image := con.image, memory := con.memory,
      name := name, portMappings := ports, command := commands, entryPoint := entryPoints,
      environment := environments, links := links, mountPoints := mountPoints,
      volumesFrom := volumesFrom, dockerLabels := con.dockerLabels,
      healthCheck := None, logConfiguration := None);
    if |con.healthCheck.command| != 0 {
      def := def.(healthCheck := Some(GetHealthCheck(con)));
    }
    if con.logConfiguration.logDriver != "" {
      def := def.(logConfiguration := Some(GetLogConfiguration(con)));
    }
  }

  /**
    ReadConfig. `file` is the outcome of reading the descriptor file,
    `unmarshal` stands for the YAML decoder, and `order` is the order in which
    the map of containers is visited. A read error ends the translation with a
    zero triple and no request; a decode error does not: the request is built
    from whatever the decoder produced and the error is returned beside it.
  */
  method ReadConfig(file: Result<seq<byte>, Error>, unmarshal: seq<byte> -> Decoded,
                    tags: map<string, string>, order: seq<string>)
    returns (clusterService: ClusterService, request: Option<Ecs.RegisterTaskDefinitionInput>,
             err: Option<Error>)
    requires file.Success? ==> IsIterationOrder(order, unmarshal(file.value).deployment.task)
    ensures file.Failure? ==>
      clusterService == ClusterService("", "", 0) && request.None? && err == Some(file.error)
    ensures file.Success? ==>
      var decoded := unmarshal(file.value);
      var d := decoded.deployment;
      && clusterService == ClusterService(d.cluster, d.service, d.count)
      && err == decoded.err
      && request.Some?
      && Translation(d, tags, order, request.value)
  {
    if file.Failure? {
      return ClusterService("", "", 0), None, Some(file.error);
    }
    var decoded := unmarshal(file.value);
    var containers := decoded.deployment;
    clusterService := ClusterService(containers.cluster, containers.service, containers.count);

    var definitions: seq<Ecs.ContainerDefinition> := [];
    var volumes: seq<Ecs.Volume> := [];
    for k := 0 to |order|
      invariant |definitions| == k
      invariant forall i :: 0 <= i < k ==>
        Translates(definitions[i], order[i], containers.task[order[i]], tags)
      invariant k == 0 ==> volumes == []
      invariant k > 0 ==> VolumesCarried(volumes, containers.task[order[k - 1]].volumes)
    {
      var name := order[k];
      var con := containers.task[name];
      var def := TranslateContainer(name, con, tags);
      definitions := definitions + [def];
      volumes := GetVolumes(con);
    }

    var taskDefinitions := Ecs.RegisterTaskDefinitionInput(definitions, containers.name, volumes, None);
    if containers.networkMode != "" {
      taskDefinitions := taskDefinitions.(networkMode := Some(containers.networkMode));
    }
    return clusterService, Some(taskDefinitions), decoded.err;
  }
}
