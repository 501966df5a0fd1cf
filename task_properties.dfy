/**
  Properties of the translator that relate several calls or pin down the
  documented behaviour on concrete descriptors: the shape of a retagged
  image, one definition per container, that a translation is determined by
  its iteration order and otherwise independent of it, that the volumes are
  those of the last container only, and the decode-error and round-trip
  scenarios.
*/
module TaskProperties {
  import opened Wrappers
  import opened GoTypes
  import Strings
  import Ecs
  import opened Task

  // ---------------------------------------------------------------------
  // Image-tag override
  // ---------------------------------------------------------------------

  /**
    With a tag that holds no ':', the retagged image has as many
    ':'-separated pieces as the image, its last piece is the tag and every
    earlier piece is unchanged. An image without ':' becomes the tag itself.
  */
  lemma TaggedImageSegments(image: string, tag: string)
    requires TagSeparator !in tag
    ensures var before := Strings.Split(image, TagSeparator);
      var after := Strings.Split(TaggedImage(image, tag), TagSeparator);
      && |after| == |before|
      && after[|after| - 1] == tag
      && (forall i :: 0 <= i < |before| - 1 ==> after[i] == before[i])
    ensures TagSeparator !in image ==> TaggedImage(image, tag) == tag
  {
    TaggedImagePieces(image, tag);
    Strings.SplitSingle(tag, TagSeparator);
  }

  /** A reference `repository:previous` (one ':') becomes `repository:tag`. */
  lemma TaggedImageReplacesTag(repository: string, previous: string, tag: string)
    requires TagSeparator !in repository && TagSeparator !in previous
    ensures TaggedImage(repository + [TagSeparator] + previous, tag) == repository + [TagSeparator] + tag
  {
  }

  /** The documented tagged case: "repo/image:old" with tag "new" gives "repo/image:new". */
  lemma TaggedImageTaggedExample()
    ensures TaggedImage("repo/image:old", "new") == "repo/image:new"
  {
    var repository := "repo/image";
    assert TagSeparator !in repository && TagSeparator !in "old";
    TaggedImageReplacesTag(repository, "old", "new");
    assert repository + [TagSeparator] + "old" == "repo/image:old";
    assert repository + [TagSeparator] + "new" == "repo/image:new";
  }

  /** The documented untagged case: "repo/image" with tag "new" gives "new", not "repo/image:new". */
  lemma TaggedImageUntaggedExample()
    ensures TaggedImage("repo/image", "new") == "new"
  {
    assert TagSeparator !in "repo/image";
  }

  // ---------------------------------------------------------------------
  // One definition per container
  // ---------------------------------------------------------------------

  /** A sequence without repeats has as many distinct elements as positions. */
  lemma {:induction false} DistinctCardinality(order: seq<string>)
    requires forall i, j :: 0 <= i < j < |order| ==> order[i] != order[j]
    ensures |set name | name in order| == |order|
    decreases |order|
  {
    if |order| > 0 {
      var n := |order| - 1;
      var init := order[..n];
      DistinctCardinality(init);
      assert (set name | name in order) == (set name | name in init) + {order[n]};
      assert order[n] !in init;
    }
  }

  /** Every iteration order of the container map visits as many names as the map has keys. */
  lemma IterationOrderLength(order: seq<string>, task: map<string, ContainerDefinition>)
    requires IsIterationOrder(order, task)
    ensures |order| == |task|
  {
    DistinctCardinality(order);
    assert (set name | name in order) == task.Keys;
  }

  /** Definition `i` of a translation is named after the `i`-th container visited. */
  lemma DefinitionNames(d: Deployment, tags: map<string, string>, order: seq<string>,
                        req: Ecs.RegisterTaskDefinitionInput)
    requires IsIterationOrder(order, d.task)
    requires Translation(d, tags, order, req)
    ensures |req.containerDefinitions| == |order|
    ensures forall i :: 0 <= i < |order| ==> req.containerDefinitions[i].name == order[i]
  {
  }

  /**
    Every container of the descriptor is translated into exactly one
    definition: the definitions are as many as the containers, their names
    are exactly the container names without repeats, and each definition
    carries the container of its name.
  */
  lemma EachContainerOnce(d: Deployment, tags: map<string, string>, order: seq<string>,
                          req: Ecs.RegisterTaskDefinitionInput)
    requires IsIterationOrder(order, d.task)
    requires Translation(d, tags, order, req)
    ensures var defs := req.containerDefinitions;
      && |defs| == |d.task|
      && (forall name :: name in d.task <==> exists i :: 0 <= i < |defs| && defs[i].name == name)
      && (forall i, j :: 0 <= i < j < |defs| ==> defs[i].name != defs[j].name)
      && (forall i :: 0 <= i < |defs| ==>
            defs[i].name in d.task && Translates(defs[i], defs[i].name, d.task[defs[i].name], tags))
  {
    IterationOrderLength(order, d.task);
    var defs := req.containerDefinitions;
    DefinitionNames(d, tags, order, req);
    forall name | name in d.task
      ensures exists i :: 0 <= i < |defs| && defs[i].name == name
    {
      assert name in order;
      var i :| 0 <= i < |order| && order[i] == name;
    }
  }

  // ---------------------------------------------------------------------
  // A translation is determined by its iteration order
  // ---------------------------------------------------------------------

  lemma PortMappingsDetermined(a: seq<Ecs.PortMapping>, b: seq<Ecs.PortMapping>, src: seq<PortMapping>)
    requires PortMappingsCarried(a, src) && PortMappingsCarried(b, src)
    ensures a == b
  {
  }

  lemma EnvironmentsDetermined(a: seq<Ecs.KeyValuePair>, b: seq<Ecs.KeyValuePair>, src: seq<Environment>)
    requires EnvironmentsCarried(a, src) && EnvironmentsCarried(b, src)
    ensures a == b
  {
  }

  lemma MountPointsDetermined(a: seq<Ecs.MountPoint>, b: seq<Ecs.MountPoint>, src: seq<MountPoint>)
    requires MountPointsCarried(a, src) && MountPointsCarried(b, src)
    ensures a == b
  {
  }

  lemma VolumesFromDetermined(a: seq<Ecs.VolumeFrom>, b: seq<Ecs.VolumeFrom>, src: seq<VolumesFrom>)
    requires VolumesFromCarried(a, src) && VolumesFromCarried(b, src)
    ensures a == b
  {
  }

  lemma VolumesDetermined(a: seq<Ecs.Volume>, b: seq<Ecs.Volume>, src: seq<Volume>)
    requires VolumesCarried(a, src) && VolumesCarried(b, src)
    ensures a == b
  {
  }

  /** The contract of the per-container translation leaves no field of the definition open. */
  lemma DefinitionDetermined(a: Ecs.ContainerDefinition, b: Ecs.ContainerDefinition, name: string,
                             con: ContainerDefinition, tags: map<string, string>)
    requires Translates(a, name, con, tags) && Translates(b, name, con, tags)
    ensures a == b
  {
  }

  /** For one iteration order there is exactly one request ReadConfig can build. */
  lemma TranslationDetermined(d: Deployment, tags: map<string, string>, order: seq<string>,
                              r1: Ecs.RegisterTaskDefinitionInput, r2: Ecs.RegisterTaskDefinitionInput)
    requires IsIterationOrder(order, d.task)
    requires Translation(d, tags, order, r1) && Translation(d, tags, order, r2)
    ensures r1 == r2
  {
    var defs1, defs2 := r1.containerDefinitions, r2.containerDefinitions;
    forall i | 0 <= i < |order| ensures defs1[i] == defs2[i] {
      DefinitionDetermined(defs1[i], defs2[i], order[i], d.task[order[i]], tags);
    }
    assert defs1 == defs2;
    if |order| > 0 {
      VolumesDetermined(r1.volumes, r2.volumes, d.task[order[|order| - 1]].volumes);
    }
  }

  /** In a sequence without repeats every element occurs exactly once. */
  lemma {:induction false} DistinctMultiplicity<T>(s: seq<T>)
    requires forall i, j :: 0 <= i < j < |s| ==> s[i] != s[j]
    ensures forall x :: multiset(s)[x] == if x in s then 1 else 0
    decreases |s|
  {
    if |s| > 0 {
      var n := |s| - 1;
      DistinctMultiplicity(s[..n]);
      assert s == s[..n] + [s[n]];
      assert s[n] !in s[..n];
      forall x ensures multiset(s)[x] == if x in s then 1 else 0 {
        assert multiset(s) == multiset(s[..n]) + multiset{s[n]};
        assert x in s <==> x in s[..n] || x == s[n];
      }
    }
  }

  /** The definitions of a translation are pairwise different, because their names are. */
  lemma DefinitionsDistinct(d: Deployment, tags: map<string, string>, order: seq<string>,
                            req: Ecs.RegisterTaskDefinitionInput)
    requires IsIterationOrder(order, d.task)
    requires Translation(d, tags, order, req)
    ensures var defs := req.containerDefinitions;
      forall i, j :: 0 <= i < j < |defs| ==> defs[i] != defs[j]
  {
  }

  /** Two sequences without repeats and with the same elements are permutations of each other. */
  lemma DistinctSameElements<T>(s: seq<T>, t: seq<T>)
    requires forall i, j :: 0 <= i < j < |s| ==> s[i] != s[j]
    requires forall i, j :: 0 <= i < j < |t| ==> t[i] != t[j]
    requires forall i :: 0 <= i < |s| ==> s[i] in t
    requires forall j :: 0 <= j < |t| ==> t[j] in s
    ensures multiset(s) == multiset(t)
  {
    DistinctMultiplicity(s);
    DistinctMultiplicity(t);
    assert forall x :: multiset(s)[x] == multiset(t)[x];
  }

  /** Every definition built under one iteration order is also built under any other. */
  lemma DefinitionsShared(d: Deployment, tags: map<string, string>, o1: seq<string>, o2: seq<string>,
                          r1: Ecs.RegisterTaskDefinitionInput, r2: Ecs.RegisterTaskDefinitionInput)
    requires IsIterationOrder(o1, d.task) && IsIterationOrder(o2, d.task)
    requires Translation(d, tags, o1, r1) && Translation(d, tags, o2, r2)
    ensures forall i :: 0 <= i < |r1.containerDefinitions| ==>
      r1.containerDefinitions[i] in r2.containerDefinitions
  {
    var defs1, defs2 := r1.containerDefinitions, r2.containerDefinitions;
    forall i | 0 <= i < |defs1| ensures defs1[i] in defs2 {
      var name := o1[i];
      assert name in o2;
      var j :| 0 <= j < |o2| && o2[j] == name;
      DefinitionDetermined(defs1[i], defs2[j], name, d.task[name], tags);
    }
  }

  /**
    Two iteration orders give the same family and network mode, and the same
    container definitions up to their order: the two lists are permutations
    of each other. Only their order and the volumes can differ.
  */
  lemma OrderIndependent(d: Deployment, tags: map<string, string>, o1: seq<string>, o2: seq<string>,
                         r1: Ecs.RegisterTaskDefinitionInput, r2: Ecs.RegisterTaskDefinitionInput)
    requires IsIterationOrder(o1, d.task) && IsIterationOrder(o2, d.task)
    requires Translation(d, tags, o1, r1) && Translation(d, tags, o2, r2)
    ensures r1.family == r2.family && r1.networkMode == r2.networkMode
    ensures multiset(r1.containerDefinitions) == multiset(r2.containerDefinitions)
  {
    DefinitionsShared(d, tags, o1, o2, r1, r2);
    DefinitionsShared(d, tags, o2, o1, r2, r1);
    DefinitionsDistinct(d, tags, o1, r1);
    DefinitionsDistinct(d, tags, o2, r2);
    DistinctSameElements(r1.containerDefinitions, r2.containerDefinitions);
  }

  // ---------------------------------------------------------------------
  // Volumes: the last container's, not a union
  // ---------------------------------------------------------------------

  /** The request's volumes determine the descriptor volumes they were converted from. */
  lemma VolumesSourceDetermined(out: seq<Ecs.Volume>, src1: seq<Volume>, src2: seq<Volume>)
    requires VolumesCarried(out, src1) && VolumesCarried(out, src2)
    ensures src1 == src2
  {
  }

  /**
    With two containers `a` and `b`, the request holds the volumes of the one
    visited last and no others: visiting `a` first gives as many volumes as
    `b` has, not as many as both have together, and when the two containers'
    volumes differ the two visiting orders give different requests.
  */
  lemma VolumesLastWins(d: Deployment, tags: map<string, string>, a: string, b: string,
                        r1: Ecs.RegisterTaskDefinitionInput, r2: Ecs.RegisterTaskDefinitionInput)
    requires IsIterationOrder([a, b], d.task) && IsIterationOrder([b, a], d.task)
    requires Translation(d, tags, [a, b], r1) && Translation(d, tags, [b, a], r2)
    ensures VolumesCarried(r1.volumes, d.task[b].volumes)
    ensures VolumesCarried(r2.volumes, d.task[a].volumes)
    ensures |r1.volumes| == |d.task[b].volumes| && |r2.volumes| == |d.task[a].volumes|
    ensures d.task[a].volumes != d.task[b].volumes ==> r1 != r2
  {
  }

  // ---------------------------------------------------------------------
  // Scenarios
  // ---------------------------------------------------------------------

  /** One container "web" with no health check and no log configuration. */
  function WebDeployment(): Deployment
  {
    Deployment("prod", "api", 3, "app", "", map[
      "web" := ContainerDefinition(
        cpu := 256, essential := true, image := "org/app:1.0", memory := 512, portMappings := [],
        healthCheck := HealthCheck([], 0, 0, 0, 0), command := [], entryPoint := [],
        environment := [], link := [], mountPoints := [], volumesFrom := [], volumes := [],
        logConfiguration := LogConfiguration("", map[]), dockerLabels := map[])])
  }

  /**
    The round trip of a one-container descriptor without tag overrides: the
    triple is copied and the request holds one definition named "web", with
    its image, CPU, memory and essential flag, and without health check and
    log configuration.
  */
  method WebScenario(file: seq<byte>)
    returns (clusterService: ClusterService, request: Option<Ecs.RegisterTaskDefinitionInput>,
             err: Option<Error>)
    ensures clusterService == ClusterService("prod", "api", 3) && err.None?
    ensures request.Some? && |request.value.containerDefinitions| == 1
    ensures var web := request.value.containerDefinitions[0];
      && web.name == "web" && web.image == "org/app:1.0"
      && web.cpu == 256 && web.memory == 512 && web.essential
      && web.healthCheck.None? && web.logConfiguration.None?
  {
    var order := ["web"];
    assert IsIterationOrder(order, WebDeployment().task);
    clusterService, request, err :=
      ReadConfig(Success(file), _ => Decoded(WebDeployment(), None), map[], order);
    assert Translates(request.value.containerDefinitions[0], "web", WebDeployment().task["web"], map[]);
  }

  /** The descriptor a failed decode may leave: every field zero. */
  function ZeroDeployment(): Deployment
  {
    Deployment("", "", 0, "", "", map[])
  }

  /**
    A decode error does not stop the translation: the triple and the request
    are built from the zero descriptor and the error is returned beside them.
  */
  method DecodeFailureScenario(file: seq<byte>, decodeError: Error, tags: map<string, string>)
    returns (clusterService: ClusterService, request: Option<Ecs.RegisterTaskDefinitionInput>,
             err: Option<Error>)
    ensures clusterService == ClusterService("", "", 0)
    ensures request == Some(Ecs.RegisterTaskDefinitionInput([], "", [], None))
    ensures err == Some(decodeError)
  {
    clusterService, request, err :=
      ReadConfig(Success(file), _ => Decoded(ZeroDeployment(), Some(decodeError)), tags, []);
  }
}
