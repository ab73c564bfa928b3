/** What a StatefulSet or Deployment says about its pods (statefulset.go, deployment.go, stork.go). */
module Templates {
  datatype Source = EmptyDir | FromConfigMap(name: string) | FromSecret(secret: string)

  datatype Volume = Volume(name: string, source: Source)

  datatype Mount = Mount(name: string, path: string, readOnly: bool)

  /** The rewriting commands of the init script. */
  datatype ScriptOp =
    | ResolvePeer(configHost: string, serviceHost: string)
    | ExpandSecret(env: string)

  /** An environment variable whose value is an entry of a Secret. */
  datatype EnvVar = EnvVar(name: string, secret: string, key: string)

  /**
   * Volumes, the mounts of each container, the commands of the init script, and the secret variables
   * of the container that expands placeholders.
   */
  datatype Template = Template(
    volumes: seq<Volume>,
    initMounts: seq<Mount>,
    mainMounts: seq<Mount>,
    storkMounts: seq<Mount>,
    script: seq<ScriptOp>,
    env: seq<EnvVar>)

  /** One arm of a case statement over the ordinal. */
  datatype Arm = Arm(pattern: string, address: string)

  /** What the main container does about the extra interface before it starts Kea. */
  datatype Start =
    | NoAddress
    | FromSubnet(subnet: string, iface: string)
    | FromCases(subnet: string, iface: string, arms: seq<Arm>)

  datatype EnvSetting = EnvSetting(name: string, value: string)

  /**
   * A workload of the operator. `expansions` are the variables a Deployment expands before it
   * starts Kea; `settings` is all that is copied from the resource. Other objects are texts.
   */
  datatype PodSpec =
    | Pods(replicas: nat, template: Template, start: Start, expansions: seq<string>,
           sidecar: seq<EnvSetting>, configHash: string, settings: string)
    | OtherSpec(text: string)
}
