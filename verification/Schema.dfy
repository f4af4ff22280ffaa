/** The names Kubernetes gives to kinds. */
module Schema {

  datatype GroupKind = GroupKind(group: string, kind: string)
  datatype GroupResource = GroupResource(group: string, resource: string)
  datatype GroupVersion = GroupVersion(group: string, version: string)
  datatype Gvk = Gvk(gk: GroupKind, version: string)

  /** `GroupVersion.WithKind`. */
  function WithKind(gv: GroupVersion, kind: string): Gvk {
    Gvk(GroupKind(gv.group, kind), gv.version)
  }
}
