/**
  The request records of the container-service SDK that the translator fills
  in, as plain values. Pointer fields the translator always sets are plain
  fields; the blocks it may leave nil are Options. Only the fields the
  translator writes are present.
*/
module Ecs {
  import opened Wrappers
  import opened GoTypes

  /** A string-keyed map whose values are string pointers (nil is None). */
  type StringMap = map<string, Option<string>>

  datatype PortMapping = PortMapping(containerPort: int64, hostPort: int64, protocol: string)

  datatype HealthCheck = HealthCheck(
    command: seq<string>,
    interval: int64,
    retries: int64,
    startPeriod: int64,
    timeout: int64)

  datatype KeyValuePair = KeyValuePair(name: string, value: string)

  datatype MountPoint = MountPoint(containerPath: string, readOnly: bool, sourceVolume: string)

  datatype VolumeFrom = VolumeFrom(readOnly: bool, sourceContainer: string)

  datatype HostVolumeProperties = HostVolumeProperties(sourcePath: string)

  datatype Volume = Volume(host: HostVolumeProperties, name: string)

  datatype LogConfiguration = LogConfiguration(logDriver: string, options: StringMap)

  datatype ContainerDefinition = ContainerDefinition(
    cpu: int64,
    essential: bool,
    image: string,
    memory: int64,
    name: string,
    portMappings: seq<PortMapping>,
    command: seq<string>,
    entryPoint: seq<string>,
    environment: seq<KeyValuePair>,
    links: seq<string>,
    mountPoints: seq<MountPoint>,
    volumesFrom: seq<VolumeFrom>,
    dockerLabels: StringMap,
    healthCheck: Option<HealthCheck>,
    logConfiguration: Option<LogConfiguration>)

  datatype RegisterTaskDefinitionInput = RegisterTaskDefinitionInput(
    containerDefinitions: seq<ContainerDefinition>,
    family: string,
    volumes: seq<Volume>,
    networkMode: Option<string>)
}
