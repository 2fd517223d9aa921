/** Specs of the custom resources, as far as the controllers read them. */
module Api {
  import opened Types

  // ------------------------------------------------------------------- label selectors

  datatype Requirement = Requirement(key: string, op: string, values: seq<string>)

  datatype LabelSelector = LabelSelector(matchLabels: map<string, string>, matchExpressions: seq<Requirement>)

  // ----------------------------------------------------------------------- runtime.Workload

  datatype SpecEnv = SpecEnv(name: string, value: string)

  datatype ContainerPort = ContainerPort(name: string, port: int, protocol: string)

  datatype EnvFromSource = EnvFromSource(configMapRef: Option<string>, secretRef: Option<string>)

  datatype TargetPolicy = TargetPolicy(memberSelector: Option<LabelSelector>, members: seq<string>, strategy: string)

  datatype WorkloadSpec = WorkloadSpec(
    federationRef: string,
    image: string,
    imagePullSecrets: seq<string>,
    ports: seq<ContainerPort>,
    env: seq<SpecEnv>,
    envFrom: seq<EnvFromSource>,
    targetPolicy: Option<TargetPolicy>,
    rolloutRef: Option<string>,
    replicas: Option<int>,
    serviceAccountName: string)

  // --------------------------------------------------------- infrastructure.Federation etc.

  datatype ClusterMember = ClusterMember(name: string, labels: map<string, string>, ready: bool)

  datatype FederationSpec = FederationSpec(
    memberSelector: Option<LabelSelector>,
    members: seq<string>,
    defaultTargetPolicy: bool)

  // ------------------------------------------------------------------ data.DatastoreBinding

  // A binding's workloadRef is kept beside its spec, as is an endpoint's: see module Finalizers.
  datatype BindingSpec = BindingSpec(
    engine: string,
    connectionRef: Key,
    replicationMode: string,
    conflictPolicy: string)

  // --------------------------------------------------------------- routing.ServiceEndpoint

  datatype RoutingMode = ActiveActive | ActivePassive

  datatype EndpointSpec = EndpointSpec(
    hostnames: seq<string>,
    routingMode: RoutingMode,
    primaryMemberRef: string,
    failoverPolicy: bool,
    gatewayRef: bool)
}
