/**
 * Checkpoint options of the Go client (client/container_checkpoint_opts.go). A checkpoint
 * option may append descriptors to the checkpoint's image index and set fields of the
 * runtime's checkpoint options, both through pointers. Marshalling and writing content
 * are parameters.
 */
module CheckpointOpts {
  import opened Errdefs
  import opened OciTypes
  import opened Containers

  /** ErrMediaTypeNotFound. */
  const MediaTypeNotFound := Other("media type not found")

  /** images.MediaTypeContainerd1CheckpointRuntimeOptions. */
  const MediaTypeCheckpointRuntimeOptions := "application/vnd.containerd.container.checkpoint.runtime.options+proto"

  /** The `*imagespec.Index` a checkpoint option appends to. */
  class IndexRef {
    var index: Index

    constructor(index: Index)
      ensures this.index == index
    {
      this.index := index;
    }
  }

  /** The runc CheckpointOptions the options set. */
  class CheckpointOptions {
    var exit: bool
    var openTcp: bool
    var terminal: bool
    var fileLocks: bool
    var imagePath: string
    var workPath: string

    constructor()
      ensures !exit && !openTcp && !terminal && !fileLocks && imagePath == "" && workPath == ""
    {
      exit, openTcp, terminal, fileLocks := false, false, false, false;
      imagePath, workPath := "", "";
    }
  }

  /** WithCheckpointTaskExit: the task exits after the checkpoint; nothing else changes and it cannot fail. */
  method WithCheckpointTaskExit(c: Container, index: IndexRef, copts: CheckpointOptions) returns (err: MaybeError)
    modifies copts
    ensures err == None && copts.exit
    ensures copts.openTcp == old(copts.openTcp) && copts.terminal == old(copts.terminal) &&
            copts.fileLocks == old(copts.fileLocks) && copts.imagePath == old(copts.imagePath) &&
            copts.workPath == old(copts.workPath)
    ensures index.index == old(index.index)
  {
    copts.exit := true;
    err := None;
  }

  /** The container carries runtime options with a value. */
  predicate HasRuntimeOptions(c: Container)
  {
    c.runtime.options.Some? && c.runtime.options.value.value.Some?
  }

  /**
   * WithCheckpointRuntime: a container whose runtime options are nil, or hold no value, adds
   * nothing. Otherwise the marshalled options are written as content named after the
   * container, and their descriptor, stamped with the host platform, is appended.
   */
  method WithCheckpointRuntime(c: Container, index: IndexRef, copts: CheckpointOptions,
                               marshalled: Result<seq<bv8>>,
                               write: (string, string, seq<bv8>) -> Result<Descriptor>,
                               host: Platform) returns (err: MaybeError)
    modifies index
    ensures !HasRuntimeOptions(c) ==> err == None && index.index == old(index.index)
    ensures HasRuntimeOptions(c) && marshalled.Err? ==> err == Some(marshalled.error) && index.index == old(index.index)
    ensures HasRuntimeOptions(c) && marshalled.Ok? ==>
      var written := write(MediaTypeCheckpointRuntimeOptions, c.id + "-runtime-options", marshalled.value);
      (written.Err? ==> err == Some(written.error) && index.index == old(index.index)) &&
      (written.Ok? ==>
         err == None &&
         index.index == old(index.index).(manifests := old(index.index).manifests + [written.value.(platform := Some(host))]))
  {
    if HasRuntimeOptions(c) {
      if marshalled.Err? {
        return Some(marshalled.error);
      }
      var written := write(MediaTypeCheckpointRuntimeOptions, c.id + "-runtime-options", marshalled.value);
      if written.Err? {
        return Some(written.error);
      }
      var desc := written.value.(platform := Some(host));
      index.index := index.index.(manifests := index.index.manifests + [desc]);
    }
    err := None;
  }

  /**
   * GetIndexByMediaType: the first manifest of the index with the media type, or
   * ErrMediaTypeNotFound when none has it.
   */
  function GetIndexByMediaType(index: Index, mt: string): (r: Result<Descriptor>)
    ensures r.Ok? ==> exists i :: 0 <= i < |index.manifests| && index.manifests[i] == r.value &&
                                  r.value.mediaType == mt &&
                                  forall j :: 0 <= j < i ==> index.manifests[j].mediaType != mt
    ensures r.Err? ==> r.error == MediaTypeNotFound && forall j :: 0 <= j < |index.manifests| ==> index.manifests[j].mediaType != mt
  {
    match FirstWithMediaType(index.manifests, mt)
    case Some(i) => Ok(index.manifests[i])
    case None => Err(MediaTypeNotFound)
  }

  /** Position of the first descriptor with the media type. */
  function FirstWithMediaType(ds: seq<Descriptor>, mt: string): (r: Option<nat>)
    ensures r.Some? ==> r.value < |ds| && ds[r.value].mediaType == mt &&
                        forall j :: 0 <= j < r.value ==> ds[j].mediaType != mt
    ensures r.None? ==> forall j :: 0 <= j < |ds| ==> ds[j].mediaType != mt
    decreases |ds|
  {
    if ds == [] then None
    else if ds[0].mediaType == mt then Some(0)
    else match FirstWithMediaType(ds[1..], mt)
      case Some(i) => Some(i + 1)
      case None => None
  }

  /** Appending descriptors does not change what an earlier match finds. */
  lemma {:induction false} LookupStableUnderAppend(index: Index, extra: seq<Descriptor>, mt: string)
    requires GetIndexByMediaType(index, mt).Ok?
    ensures GetIndexByMediaType(index.(manifests := index.manifests + extra), mt) == GetIndexByMediaType(index, mt)
  {
    FirstAppend(index.manifests, extra, mt);
  }

  lemma {:induction false} FirstAppend(ds: seq<Descriptor>, extra: seq<Descriptor>, mt: string)
    requires FirstWithMediaType(ds, mt).Some?
    ensures FirstWithMediaType(ds + extra, mt) == FirstWithMediaType(ds, mt)
    decreases |ds|
  {
    assert (ds + extra)[0] == ds[0];
    if ds[0].mediaType != mt {
      assert (ds + extra)[1..] == ds[1..] + extra;
      FirstAppend(ds[1..], extra, mt);
    }
  }

  /** After WithCheckpointRuntime succeeds with a new descriptor, looking up its media type finds a descriptor. */
  lemma AppendedRuntimeOptionsFound(index: Index, desc: Descriptor)
    requires desc.mediaType == MediaTypeCheckpointRuntimeOptions
    ensures GetIndexByMediaType(index.(manifests := index.manifests + [desc]), MediaTypeCheckpointRuntimeOptions).Ok?
  {
    var ms := index.manifests + [desc];
    assert ms[|ms| - 1].mediaType == MediaTypeCheckpointRuntimeOptions;
  }
}
