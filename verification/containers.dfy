/**
 * The container record of containerd's metadata service (core/containers.Container) as the
 * client sees it. Timestamps are left out.
 */
module Containers {
  import opened Errdefs

  /** A protobuf Any: a type URL and the encoded value, None where GetValue() is nil. */
  datatype Any = Any(typeUrl: string, value: Option<seq<bv8>>)

  /** The runtime a container's tasks are created with; `options` is None for a nil Any. */
  datatype RuntimeInfo = RuntimeInfo(name: string, options: Option<Any>)

  /** Labels and Extensions are None where the Go map is nil. */
  datatype Container = Container(
    id: string,
    labels: Option<map<string, string>>,
    image: string,
    runtime: RuntimeInfo,
    spec: Option<Any>,
    snapshotKey: string,
    snapshotter: string,
    extensions: Option<map<string, Any>>,
    sandboxID: string)

  /** The zero value `containers.Container{}`. */
  const EmptyContainer := Container("", None, "", RuntimeInfo("", None), None, "", "", None, "")

  /**
   * A record that names a rootfs snapshot but not the snapshotter holding it: the client
   * can neither clean that snapshot up nor mount it.
   */
  predicate SnapshotterMissing(c: Container)
  {
    c.snapshotKey != "" && c.snapshotter == ""
  }
}
