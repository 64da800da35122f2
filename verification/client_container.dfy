/**
 * The Go client's handle on a container (client/container.go): the cached record and Info's
 * refresh rule, the field mask of SetLabels, and the guards of Delete, Image and
 * handleMounts. Calls to the containers, tasks, images and snapshots services are parameters.
 */
module ClientContainer {
  import opened Errdefs
  import opened GoMaps
  import opened Containers
  import opened ContainerOpts

  /** The InfoConfig after the options, starting from the default that refreshes. */
  function Configured(opts: seq<InfoOpt>): InfoConfig
    decreases |opts|
  {
    if opts == [] then InfoConfig(true) else opts[|opts| - 1](Configured(opts[..|opts| - 1]))
  }

  /** Info refreshes unless WithoutRefreshedMetadata comes last. */
  lemma RefreshByDefault(opts: seq<InfoOpt>)
    ensures Configured([]).refresh
    ensures !Configured(opts + [WithoutRefreshedMetadata]).refresh
  {
    assert (opts + [WithoutRefreshedMetadata])[..|opts|] == opts;
  }

  /** A client-side container: its id and the record it last fetched. */
  class ContainerHandle {
    const id: string
    var metadata: Container

    constructor(id: string, metadata: Container)
      ensures this.id == id && this.metadata == metadata
    {
      this.id := id;
      this.metadata := metadata;
    }

    /**
     * Info: with refreshing on, the record is fetched (`fetch` is the service's answer) and
     * cached; a failed fetch returns the cached record with the error and keeps the cache.
     * With refreshing off the cached record is returned without fetching.
     */
    method Info(opts: seq<InfoOpt>, fetch: Result<Container>) returns (r: Container, err: MaybeError)
      modifies this
      ensures Configured(opts).refresh && fetch.Ok? ==> r == fetch.value && err == None && metadata == fetch.value
      ensures Configured(opts).refresh && fetch.Err? ==> r == old(metadata) && err == Some(fetch.error) && metadata == old(metadata)
      ensures !Configured(opts).refresh ==> r == old(metadata) && err == None && metadata == old(metadata)
    {
      var i := InfoConfig(true);
      for k := 0 to |opts|
        invariant i == Configured(opts[..k])
      {
        assert opts[..k + 1][..k] == opts[..k];
        i := opts[k](i);
      }
      assert opts[..|opts|] == opts;
      if i.refresh {
        if fetch.Err? {
          return metadata, Some(fetch.error);
        }
        metadata := fetch.value;
      }
      return metadata, None;
    }

    /**
     * SetLabels: sends a record holding only the id and the labels, with a field mask naming
     * exactly the given labels, so that the service leaves every other label alone; returns
     * the labels of the updated record.
     */
    method SetLabels(labels: Option<map<string, string>>, update: (Container, set<string>) -> Result<Container>)
      returns (r: Result<Option<map<string, string>>>)
      ensures var sent := EmptyContainer.(id := id, labels := labels);
        match update(sent, LabelPaths(Contents(labels)))
        case Ok(c) => r == Ok(c.labels)
        case Err(e) => r == Err(e)
    {
      var container := EmptyContainer.(id := id, labels := labels);
      var paths := MaskPaths(Contents(labels));
      var updated := update(container, set p | p in paths);
      if updated.Err? {
        return Err(updated.error);
      }
      r := Ok(updated.value.labels);
    }
  }

  /** The field path of one label: `labels.<key>`. */
  function LabelPath(k: string): string
  {
    "labels." + k
  }

  /** Different labels have different field paths. */
  lemma LabelPathInjective(a: string, b: string)
    requires LabelPath(a) == LabelPath(b)
    ensures a == b
  {
    assert LabelPath(a)[7..] == a;
    assert LabelPath(b)[7..] == b;
  }

  /** The field mask SetLabels sends. */
  function LabelPaths(labels: map<string, string>): (r: set<string>)
    ensures forall p :: p in r <==> exists k :: k in labels && p == LabelPath(k)
  {
    set k | k in labels :: LabelPath(k)
  }

  /** The loop building the mask: one path per label, each path once. */
  method MaskPaths(labels: map<string, string>) returns (paths: seq<string>)
    ensures (set p | p in paths) == LabelPaths(labels)
    ensures |paths| == |labels.Keys|
    ensures forall i, j :: 0 <= i < j < |paths| ==> paths[i] != paths[j]
  {
    paths := [];
    var todo := labels.Keys;
    ghost var done: set<string> := {};
    ghost var keys: seq<string> := [];
    while todo != {}
      invariant MaskInv(labels, todo, done, keys, paths)
      decreases todo
    {
      var k :| k in todo;
      MaskStep(labels, todo, done, keys, paths, k);
      paths := paths + [LabelPath(k)];
      keys := keys + [k];
      todo := todo - {k};
      done := done + {k};
    }
    PathsCoverLabels(labels, keys, paths);
  }

  /** The state of MaskPaths: keys are the labels masked so far, in order, and paths their paths. */
  ghost predicate MaskInv(labels: map<string, string>, todo: set<string>, done: set<string>, keys: seq<string>, paths: seq<string>)
  {
    && todo + done == labels.Keys && todo !! done
    && |paths| == |keys| == |done|
    && (forall i :: 0 <= i < |keys| ==> keys[i] in done && paths[i] == LabelPath(keys[i]))
    && (forall k :: k in done ==> k in keys)
    && (forall i, j :: 0 <= i < j < |paths| ==> paths[i] != paths[j])
  }

  lemma MaskStep(labels: map<string, string>, todo: set<string>, done: set<string>, keys: seq<string>, paths: seq<string>, k: string)
    requires MaskInv(labels, todo, done, keys, paths) && k in todo
    ensures MaskInv(labels, todo - {k}, done + {k}, keys + [k], paths + [LabelPath(k)])
  {
    assert k !in keys;
    NewPathIsFresh(keys, paths, k);
    var keys', paths' := keys + [k], paths + [LabelPath(k)];
    assert |done + {k}| == |done| + 1;
    forall i | 0 <= i < |keys'|
      ensures keys'[i] in done + {k} && paths'[i] == LabelPath(keys'[i])
    {
      if i < |keys| {
        assert keys'[i] == keys[i] && paths'[i] == paths[i];
      }
    }
    forall i, j | 0 <= i < j < |paths'|
      ensures paths'[i] != paths'[j]
    {
      if j < |paths| {
        assert paths'[i] == paths[i] && paths'[j] == paths[j];
      } else {
        assert paths'[i] == paths[i];
      }
    }
  }

  /** The path of a key not yet masked is not among the paths so far. */
  lemma NewPathIsFresh(keys: seq<string>, paths: seq<string>, k: string)
    requires |paths| == |keys| && k !in keys
    requires forall i :: 0 <= i < |keys| ==> paths[i] == LabelPath(keys[i])
    ensures forall i :: 0 <= i < |paths| ==> paths[i] != LabelPath(k)
  {
    forall i | 0 <= i < |paths|
      ensures paths[i] != LabelPath(k)
    {
      if paths[i] == LabelPath(k) {
        LabelPathInjective(keys[i], k);
      }
    }
  }

  /** Paths built from every key of labels, and only from those, are the label paths. */
  lemma PathsCoverLabels(labels: map<string, string>, keys: seq<string>, paths: seq<string>)
    requires |paths| == |keys|
    requires forall i :: 0 <= i < |keys| ==> keys[i] in labels && paths[i] == LabelPath(keys[i])
    requires forall k :: k in labels ==> k in keys
    ensures (set p | p in paths) == LabelPaths(labels)
  {
    forall p | p in LabelPaths(labels)
      ensures p in paths
    {
      var k :| k in labels && p == LabelPath(k);
      var i :| 0 <= i < |keys| && keys[i] == k;
      assert paths[i] == p;
    }
  }

  /** What Delete did: its error, how many delete options ran, and whether the record was deleted. */
  datatype Deletion = Deletion(err: MaybeError, optionsRun: nat, deleted: bool)

  /** A DeleteOpts, applied to the fetched record. */
  type DeleteOpt = Container -> MaybeError

  /** Position of the first option that fails on the record, or |opts|. */
  function FirstFailingOpt(opts: seq<DeleteOpt>, c: Container): (k: nat)
    ensures k <= |opts|
    ensures forall i :: 0 <= i < k ==> opts[i](c).None?
    ensures k < |opts| ==> opts[k](c).Some?
    decreases |opts|
  {
    if opts == [] then 0 else if opts[0](c).Some? then 0 else 1 + FirstFailingOpt(opts[1..], c)
  }

  /**
   * Delete: a container whose task can be loaded (`loadTask` is None) is not deleted and no
   * option runs; otherwise the record is fetched, the options run in order until one fails,
   * and then the record is deleted.
   */
  function Delete(loadTask: MaybeError, get: Result<Container>, opts: seq<DeleteOpt>, deleteErr: MaybeError): (r: Deletion)
    ensures loadTask.None? ==> r == Deletion(Some(FailedPrecondition), 0, false)
    ensures r.deleted <==> loadTask.Some? && get.Ok? && forall i :: 0 <= i < |opts| ==> opts[i](get.value).None?
    ensures r.deleted ==> r.optionsRun == |opts| && r.err == deleteErr
    ensures r.optionsRun <= |opts|
  {
    if loadTask.None? then Deletion(Some(FailedPrecondition), 0, false)
    else if get.Err? then Deletion(Some(get.error), 0, false)
    else
      var k := FirstFailingOpt(opts, get.value);
      if k < |opts| then Deletion(opts[k](get.value), k + 1, false)
      else Deletion(deleteErr, |opts|, true)
  }

  /**
   * Image: a record without an image name was not created from an image (NotFound); an image
   * is only ever looked up by a non-empty name.
   */
  function Image<I>(get: Result<Container>, lookup: string -> Result<I>): (r: Result<I>)
    ensures get.Err? ==> r == Err(get.error)
    ensures get.Ok? && get.value.image == "" ==> r == Err(NotFound)
    ensures r.Ok? ==> get.Ok? && get.value.image != "" && r == lookup(get.value.image)
  {
    if get.Err? then Err(get.error)
    else if get.value.image == "" then Err(NotFound)
    else lookup(get.value.image)
  }

  /**
   * handleMounts: the rootfs mounts a new task is created with. A record without a snapshot
   * key has none; one with a key but no snapshotter is an invalid argument; otherwise they
   * come from the snapshotter (`rootfs`).
   */
  function HandleMounts<M>(get: Result<Container>, rootfs: Container -> Result<seq<M>>): (r: Result<seq<M>>)
    ensures get.Ok? && get.value.snapshotKey == "" ==> r == Ok([])
    ensures get.Ok? && SnapshotterMissing(get.value) ==> r == Err(InvalidArgument)
    ensures r.Ok? && r.value != [] ==> get.Ok? && !SnapshotterMissing(get.value) && get.value.snapshotKey != ""
  {
    if get.Err? then Err(get.error)
    else if get.value.snapshotKey == "" then Ok([])
    else if get.value.snapshotter == "" then Err(InvalidArgument)
    else rootfs(get.value)
  }

  /** Snapshot cleanup and task creation reject the same records: a snapshot key without a snapshotter. */
  lemma CleanupAndMountsAgree<M>(c: Container, getSnapshotter: string -> MaybeError, remove: (string, string) -> MaybeError,
                                 rootfs: Container -> Result<seq<M>>)
    ensures SnapshotterMissing(c) ==>
      SnapshotCleanup(c, getSnapshotter, remove) == Some(InvalidArgument) && HandleMounts(Ok(c), rootfs) == Err(InvalidArgument)
    ensures c.snapshotKey == "" ==> SnapshotCleanup(c, getSnapshotter, remove) == None && HandleMounts(Ok(c), rootfs) == Ok([])
  {
  }
}
