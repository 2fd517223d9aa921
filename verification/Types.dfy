// Vocabulary shared by every component of the model.
module Types {

  datatype Option<+T> = None | Some(value: T)

  // A namespaced object key, as used by the Kubernetes API.
  datatype Key = Key(ns: string, name: string)

  // Object UIDs. The API server never hands out the same one twice.
  type Uid = nat

  /** What a controller owner reference says of the owner. `WorkloadOwner` is the group and kind of a
      Workload. */
  datatype OwnerKind = WorkloadOwner | OtherOwner

  datatype Owner = Owner(uid: Uid, kind: OwnerKind, name: string)

  function ToSet<T>(s: seq<T>): set<T> {
    set x | x in s
  }
}
