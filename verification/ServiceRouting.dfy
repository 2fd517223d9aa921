/** The routing annotations a ServiceEndpoint writes on its Workload's Service. */
module ServiceRouting {
  import opened Api

  const GLOBAL := "service.cilium.io/global"
  const SHARED := "service.cilium.io/shared"

  type Annotations = map<string, string>

  /** applyAnnotations, on the cluster called `self`. */
  function Routed(a: Annotations, spec: EndpointSpec, self: string): Annotations {
    match spec.routingMode
    case ActiveActive => a[GLOBAL := "true"][SHARED := "true"]
    case ActivePassive => a[GLOBAL := "true"][SHARED := if self == spec.primaryMemberRef then "true" else "false"]
  }

  /** reconcileDelete's edit. */
  function Unrouted(a: Annotations): Annotations {
    a - {GLOBAL, SHARED}
  }

  predicate Shared(a: Annotations) {
    SHARED in a && a[SHARED] == "true"
  }

  /** The active member a completed pass reports. */
  function ActiveMember(spec: EndpointSpec): string {
    if spec.routingMode.ActivePassive? then spec.primaryMemberRef else ""
  }

  /** The annotations of a Service in memory, edited key by key before the patch. */
  class Service {
    var annotations: Annotations

    constructor Read(a: Annotations)
      ensures annotations == a
    {
      annotations := a;
    }

    method ApplyAnnotations(spec: EndpointSpec, self: string)
      modifies this
      ensures annotations == Routed(old(annotations), spec, self)
      ensures annotations - {GLOBAL, SHARED} == old(annotations) - {GLOBAL, SHARED}
      ensures GLOBAL in annotations && annotations[GLOBAL] == "true" && SHARED in annotations
      ensures Shared(annotations) <==> spec.routingMode.ActiveActive? || self == spec.primaryMemberRef
    {
      match spec.routingMode {
        case ActiveActive =>
          annotations := annotations[GLOBAL := "true"];
          annotations := annotations[SHARED := "true"];
        case ActivePassive =>
          annotations := annotations[GLOBAL := "true"];
          if self == spec.primaryMemberRef {
            annotations := annotations[SHARED := "true"];
          } else {
            annotations := annotations[SHARED := "false"];
          }
      }
    }

    method RemoveAnnotations()
      modifies this
      ensures annotations == Unrouted(old(annotations))
      ensures GLOBAL !in annotations && SHARED !in annotations
      ensures forall a :: a in annotations <==> a in old(annotations) && a != GLOBAL && a != SHARED
      ensures forall a :: a in annotations ==> annotations[a] == old(annotations)[a]
    {
      annotations := annotations - {GLOBAL};
      annotations := annotations - {SHARED};
    }
  }
}
