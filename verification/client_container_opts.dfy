/**
 * Container options of the Go client (client/container_opts.go). A NewContainerOpts closure
 * receives a pointer to the record being built and updates it in place; `ContainerRef` is
 * that pointer. Marshalling into a protobuf Any and snapshotter calls are parameters.
 */
module ContainerOpts {
  import opened Errdefs
  import opened GoMaps
  import opened Containers

  /** A `*containers.Container` handed to the options. */
  class ContainerRef {
    var record: Container

    constructor(record: Container)
      ensures this.record == record
    {
      this.record := record;
    }

    /** WithSandbox: joins the container to the sandbox with the given id. */
    method WithSandbox(sandboxID: string) returns (err: MaybeError)
      modifies this
      ensures err == None && record == old(record).(sandboxID := sandboxID)
    {
      record := record.(sandboxID := sandboxID);
      err := None;
    }

    /** WithImageName: the image the container is based on. */
    method WithImageName(n: string) returns (err: MaybeError)
      modifies this
      ensures err == None && record == old(record).(image := n)
    {
      record := record.(image := n);
      err := None;
    }

    /** WithSnapshotter: the snapshotter later snapshot options use. */
    method WithSnapshotter(name: string) returns (err: MaybeError)
      modifies this
      ensures err == None && record == old(record).(snapshotter := name)
    {
      record := record.(snapshotter := name);
      err := None;
    }

    /** WithContainerLabels: the labels are replaced, existing ones are dropped. */
    method WithContainerLabels(labels: Option<map<string, string>>) returns (err: MaybeError)
      modifies this
      ensures err == None && record == old(record).(labels := labels)
    {
      record := record.(labels := labels);
      err := None;
    }

    /**
     * WithAdditionalContainerLabels: a record without labels takes the given map; otherwise
     * each given label is written over the existing ones.
     */
    method WithAdditionalContainerLabels(labels: Option<map<string, string>>) returns (err: MaybeError)
      modifies this
      ensures err == None && record == old(record).(labels := MergedLabels(old(record).labels, labels))
    {
      if record.labels.None? {
        record := record.(labels := labels);
        return None;
      }
      var merged := PutAll(record.labels.value, Contents(labels));
      record := record.(labels := Some(merged));
      err := None;
    }

    /**
     * WithContainerExtension: an empty name is an invalid argument; a value that cannot be
     * marshalled fails with the marshalling error; otherwise Extensions[name] is set, the map
     * being created when nil. A failing option leaves the record as it was.
     */
    method WithContainerExtension(name: string, marshalled: Result<Any>) returns (err: MaybeError)
      modifies this
      ensures name == "" ==> err == Some(InvalidArgument) && record == old(record)
      ensures name != "" && marshalled.Err? ==> err == Some(marshalled.error) && record == old(record)
      ensures name != "" && marshalled.Ok? ==>
        err == None && record == old(record).(extensions := Some(Contents(old(record).extensions)[name := marshalled.value]))
    {
      if name == "" {
        return Some(InvalidArgument);
      }
      if marshalled.Err? {
        return Some(marshalled.error);
      }
      var extensions := Contents(record.extensions);
      record := record.(extensions := Some(extensions[name := marshalled.value]));
      err := None;
    }
  }

  /**
   * The labels after WithAdditionalContainerLabels: a nil map is replaced by the argument;
   * otherwise every given label is set and every other existing label is kept.
   */
  function MergedLabels(existing: Option<map<string, string>>, added: Option<map<string, string>>): (r: Option<map<string, string>>)
    ensures existing.None? ==> r == added
    ensures existing.Some? ==> r.Some? && r.value.Keys == existing.value.Keys + Contents(added).Keys
    ensures existing.Some? ==> forall k :: k in Contents(added) ==> r.value[k] == Contents(added)[k]
    ensures existing.Some? ==> forall k :: k in existing.value && k !in Contents(added) ==> r.value[k] == existing.value[k]
  {
    if existing.None? then added else Some(existing.value + Contents(added))
  }

  /** Adding the same labels twice is adding them once. */
  lemma MergeIdempotent(existing: Option<map<string, string>>, added: Option<map<string, string>>)
    requires existing.Some? || added.Some?
    ensures MergedLabels(MergedLabels(existing, added), added) == MergedLabels(existing, added)
  {
    var once := MergedLabels(existing, added);
    var twice := MergedLabels(once, added);
    assert twice.value.Keys == once.value.Keys;
    forall k | k in twice.value
      ensures twice.value[k] == once.value[k]
    {
    }
    assert twice.value == once.value;
  }

  /** Additional labels on top of replaced labels are the replaced labels with the additions written over them. */
  lemma ReplaceThenAdd(replaced: map<string, string>, added: Option<map<string, string>>, k: string)
    requires k in replaced || k in Contents(added)
    ensures var r := MergedLabels(Some(replaced), added).value;
      k in r && r[k] == if k in Contents(added) then Contents(added)[k] else replaced[k]
  {
  }

  /**
   * WithSnapshotCleanup: a record without a snapshot key needs no cleanup; one without a
   * snapshotter is an invalid argument; otherwise the snapshot is removed through the
   * snapshotter, and a snapshot that is already gone is not an error.
   */
  function SnapshotCleanup(c: Container, getSnapshotter: string -> MaybeError, remove: (string, string) -> MaybeError): (err: MaybeError)
    ensures c.snapshotKey == "" ==> err == None
    ensures SnapshotterMissing(c) ==> err == Some(InvalidArgument)
    ensures err.Some? && !SnapshotterMissing(c) ==>
      err == getSnapshotter(c.snapshotter) || (err == remove(c.snapshotter, c.snapshotKey) && err != Some(NotFound))
    ensures (c.snapshotKey != "" && c.snapshotter != "" && getSnapshotter(c.snapshotter).None? &&
             remove(c.snapshotter, c.snapshotKey) == Some(NotFound)) ==> err == None
  {
    if c.snapshotKey == "" then None
    else if c.snapshotter == "" then Some(InvalidArgument)
    else if getSnapshotter(c.snapshotter).Some? then getSnapshotter(c.snapshotter)
    else
      var removed := remove(c.snapshotter, c.snapshotKey);
      if removed.Some? && removed.value != NotFound then removed else None
  }

  /** InfoConfig: whether Info fetches the latest record. */
  datatype InfoConfig = InfoConfig(refresh: bool)

  type InfoOpt = InfoConfig -> InfoConfig

  /** WithoutRefreshedMetadata: Info returns the record it already holds. */
  function WithoutRefreshedMetadata(i: InfoConfig): (r: InfoConfig)
    ensures !r.refresh
  {
    i.(refresh := false)
  }
}
