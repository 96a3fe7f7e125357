// The API objects that the controllers, the lifecycle manager and the server exchange.
module ApiTypes {

  datatype Option<+T> = None | Some(value: T)

  // A namespaced name.  The program joins the two with '/'; names and namespaces contain none.
  datatype Key = Key(ns: string, name: string)

  // The value of the annotation "lok8s.io/owner".
  datatype Owner = Unowned | DeploymentOwner(name: string) | ReplicaSetOwner(name: string)

  datatype Phase = NoPhase | Pending | Running | Succeeded | Failed

  datatype VolumeSource = NoSource | ConfigMapSource(name: string) | SecretSource(name: string)

  datatype Volume = Volume(name: string, source: VolumeSource)

  datatype Container = Container(name: string, image: string, ports: seq<int>)

  datatype PodSpec = PodSpec(
    containers: seq<Container>, initContainers: seq<Container>, restartPolicy: string, volumes: seq<Volume>)

  // containersReady holds the Ready flag of each container status.
  datatype PodStatus = PodStatus(phase: Phase, containersReady: seq<bool>, hostPort: int)

  // portAnnotation is the value of the annotation "lok8s.io/container-port".
  datatype Pod = Pod(
    key: Key, uid: string, labels: map<string, string>, owner: Owner, portAnnotation: Option<string>, spec: PodSpec,
    status: PodStatus)
  {
    predicate Active() {
      !status.phase.Succeeded? && !status.phase.Failed?
    }

    predicate Ready() {
      |status.containersReady| > 0 && status.containersReady[0]
    }
  }

  datatype PodTemplate = PodTemplate(labels: map<string, string>, portAnnotation: Option<string>, spec: PodSpec)

  datatype ReplicaSetStatus = ReplicaSetStatus(replicas: int, ready: int, available: int)

  datatype ReplicaSet = ReplicaSet(
    key: Key, labels: map<string, string>, owner: Owner, replicas: Option<int>, template: PodTemplate,
    status: ReplicaSetStatus)

  datatype DeploymentStatus = DeploymentStatus(
    replicas: int, updated: int, ready: int, available: int, unavailable: int)

  datatype Deployment = Deployment(
    key: Key, replicas: Option<int>, selector: map<string, string>, template: PodTemplate,
    status: DeploymentStatus)

  function ValueOr(o: Option<int>, default: int): int {
    match o
    case None => default
    case Some(v) => v
  }
}
