/**
 * User-namespace remapping of image snapshots in the Go client (client/snapshotter_opts_unix.go).
 * The remapping labels carry the uid and gid maps; resolveSnapshotOptions decides whether the
 * parent snapshot must be replaced by a remapped copy, named by the digest of the parent and
 * its (sorted) id maps.
 *
 * The label encoding of an id map, the root-pair lookup, JSON and digests, and the
 * snapshotter's calls are parameters.
 */
module SnapshotterOpts {
  import opened Errdefs
  import opened GoMaps
  import StableSort

  const CapaRemapIDs := "remap-ids"
  const CapaOnlyRemapIDs := "only-remap-ids"

  /** snapshots.LabelSnapshotUIDMapping and snapshots.LabelSnapshotGIDMapping. */
  const LabelSnapshotUIDMapping := "containerd.io/snapshot/uidmapping"
  const LabelSnapshotGIDMapping := "containerd.io/snapshot/gidmapping"

  type Uint32 = x: int | 0 <= x < 0x1_0000_0000

  /** specs.LinuxIDMapping: `size` ids from containerID on map to hostID on. */
  datatype IDMapping = IDMapping(containerID: Uint32, hostID: Uint32, size: Uint32)

  datatype IDMap = IDMap(uidMap: seq<IDMapping>, gidMap: seq<IDMapping>)

  /** What the remapped snapshot's name is computed from. */
  datatype RemappedSnapshot = RemappedSnapshot(parent: string, idMap: IDMap)

  /** The calls resolveSnapshotOptions makes on the snapshotter, by their error results. */
  datatype Snapshotter = Snapshotter(
    stat: string -> MaybeError,
    prepare: (string, string) -> MaybeError,
    remove: string -> MaybeError,
    commit: (string, string) -> MaybeError)

  /** A call that changes the snapshotter's state: Prepare(key, parent), Remove(key), Commit(name, key). */
  datatype SnapshotterCall = PrepareCall(key: string, parent: string) | RemoveCall(key: string) | CommitCall(name: string, key: string)

  /** The parent to use, or the error, with the state-changing snapshotter calls made on the way, in order. */
  datatype Resolution = Resolution(parent: Result<string>, calls: seq<SnapshotterCall>)

  /** A snapshots.Opt, by what it does to the labels of the snapshot info (None for a nil map). */
  type SnapshotOpt = Option<map<string, string>> -> Option<map<string, string>>

  /** snapshots.WithLabels: the labels are written over the existing ones, creating the map if needed. */
  function WithLabels(labels: map<string, string>): SnapshotOpt
  {
    l => Some(Contents(l) + labels)
  }

  /** The two labels that carry an id map, encoded by `marshal` (userns.IDMap.Marshal). */
  function RemapperLabels(uidmaps: seq<IDMapping>, gidmaps: seq<IDMapping>, marshal: IDMap -> (string, string)): (r: map<string, string>)
    ensures r.Keys == {LabelSnapshotUIDMapping, LabelSnapshotGIDMapping}
    ensures r[LabelSnapshotUIDMapping] == marshal(IDMap(uidmaps, gidmaps)).0
    ensures r[LabelSnapshotGIDMapping] == marshal(IDMap(uidmaps, gidmaps)).1
  {
    var (uidLabel, gidLabel) := marshal(IDMap(uidmaps, gidmaps));
    map[LabelSnapshotUIDMapping := uidLabel, LabelSnapshotGIDMapping := gidLabel]
  }

  /** WithUserNSRemapperLabels: sets the uid and gid mapping labels for the given maps; other labels are kept. */
  function WithUserNSRemapperLabels(uidmaps: seq<IDMapping>, gidmaps: seq<IDMapping>, marshal: IDMap -> (string, string)): (opt: SnapshotOpt)
    ensures forall l ::
      opt(l).Some? &&
      opt(l).value.Keys == Contents(l).Keys + {LabelSnapshotUIDMapping, LabelSnapshotGIDMapping} &&
      opt(l).value[LabelSnapshotUIDMapping] == marshal(IDMap(uidmaps, gidmaps)).0 &&
      opt(l).value[LabelSnapshotGIDMapping] == marshal(IDMap(uidmaps, gidmaps)).1
    ensures forall l, k :: k in Contents(l) && k != LabelSnapshotUIDMapping && k != LabelSnapshotGIDMapping ==>
      opt(l).value[k] == Contents(l)[k]
  {
    WithLabels(RemapperLabels(uidmaps, gidmaps, marshal))
  }

  /**
   * WithRemapperLabels: the labels of WithUserNSRemapperLabels for one uid range and one gid
   * range of the same length; other labels are kept.
   */
  function WithRemapperLabels(ctrUID: Uint32, hostUID: Uint32, ctrGID: Uint32, hostGID: Uint32, length: Uint32,
                              marshal: IDMap -> (string, string)): (opt: SnapshotOpt)
    ensures forall l ::
      var m := IDMap([IDMapping(ctrUID, hostUID, length)], [IDMapping(ctrGID, hostGID, length)]);
      opt(l).Some? &&
      opt(l).value == Contents(l)[LabelSnapshotUIDMapping := marshal(m).0][LabelSnapshotGIDMapping := marshal(m).1]
  {
    WithUserNSRemapperLabels([IDMapping(ctrUID, hostUID, length)], [IDMapping(ctrGID, hostGID, length)], marshal)
  }

  /** The snapshot info's labels after the options, run in order from a nil map. */
  function ApplyLabelOpts(opts: seq<SnapshotOpt>): Option<map<string, string>>
    decreases |opts|
  {
    if opts == [] then None else opts[|opts| - 1](ApplyLabelOpts(opts[..|opts| - 1]))
  }

  /** The options ask for an id mapping. */
  predicate NeedsRemap(opts: seq<SnapshotOpt>)
  {
    LabelSnapshotUIDMapping in Contents(ApplyLabelOpts(opts)) || LabelSnapshotGIDMapping in Contents(ApplyLabelOpts(opts))
  }

  /** A label's value, or "" when absent. */
  function LabelValue(labels: map<string, string>, key: string): string
  {
    if key in labels then labels[key] else ""
  }

  /** The order remappedSnapshot.ID sorts mappings in. */
  predicate ByContainerID(a: IDMapping, b: IDMapping)
  {
    a.containerID < b.containerID
  }

  function ContainerIDOf(m: IDMapping): int
  {
    m.containerID
  }

  /** The snapshot with both id maps stably sorted by container id. */
  function Sorted(s: RemappedSnapshot): RemappedSnapshot
  {
    RemappedSnapshot(s.parent, IDMap(StableSort.Sort(s.idMap.uidMap, ByContainerID), StableSort.Sort(s.idMap.gidMap, ByContainerID)))
  }

  /** A mapping list stably sorted in place. */
  method SortInPlace(ms: seq<IDMapping>) returns (sorted: seq<IDMapping>)
    ensures sorted == StableSort.Sort(ms, ByContainerID)
  {
    var a := new IDMapping[|ms|](i requires 0 <= i < |ms| => ms[i]);
    assert a[..] == ms;
    StableSort.SliceStable(a, ByContainerID);
    sorted := a[..];
  }

  /**
   * remappedSnapshot.ID: sorts both id maps by container id (the snapshot keeps the sorted
   * maps) and names the snapshot by the digest of its encoding, computed by `hash`.
   */
  method ID(s: RemappedSnapshot, hash: RemappedSnapshot -> Result<string>) returns (sorted: RemappedSnapshot, id: Result<string>)
    ensures sorted == Sorted(s) && id == hash(sorted)
  {
    var uids := SortInPlace(s.idMap.uidMap);
    var gids := SortInPlace(s.idMap.gidMap);
    sorted := RemappedSnapshot(s.parent, IDMap(uids, gids));
    id := hash(sorted);
  }

  /**
   * The sorted maps are ordered by container id, hold the same mappings, and keep the
   * given order among mappings for the same container id.
   */
  lemma SortedIsStablePermutation(s: RemappedSnapshot)
    ensures var t := Sorted(s);
      StableSort.SortedByKey(t.idMap.uidMap, ContainerIDOf) && StableSort.SortedByKey(t.idMap.gidMap, ContainerIDOf) &&
      multiset(t.idMap.uidMap) == multiset(s.idMap.uidMap) && multiset(t.idMap.gidMap) == multiset(s.idMap.gidMap) &&
      (forall k :: StableSort.WithKey(t.idMap.uidMap, ContainerIDOf, k) == StableSort.WithKey(s.idMap.uidMap, ContainerIDOf, k)) &&
      (forall k :: StableSort.WithKey(t.idMap.gidMap, ContainerIDOf, k) == StableSort.WithKey(s.idMap.gidMap, ContainerIDOf, k))
  {
    StableSort.SortByKey(s.idMap.uidMap, ByContainerID, ContainerIDOf);
    StableSort.SortByKey(s.idMap.gidMap, ByContainerID, ContainerIDOf);
    StableSort.SortPermutation(s.idMap.uidMap, ByContainerID);
    StableSort.SortPermutation(s.idMap.gidMap, ByContainerID);
  }

  /** Sorting already sorted maps changes nothing, so the name does not depend on a second ID call. */
  lemma {:induction false} SortedSortedIsSorted(ms: seq<IDMapping>)
    requires StableSort.SortedByKey(ms, ContainerIDOf)
    ensures StableSort.Sort(ms, ByContainerID) == ms
    decreases |ms|
  {
    if ms != [] {
      var init := ms[..|ms| - 1];
      SortedSortedIsSorted(init);
      assert ms == init + [ms[|ms| - 1]];
    }
  }

  const RootPairMissing := Other("container UID/GID mapping entries of 0 are required but not found")

  function OnlyRemapUnsupported(snapshotterName: string): Error
  {
    Other("snapshotter \"" + snapshotterName + "\" doesn't support idmap mounts on this host, " +
          "configure `slow_chown` to allow a slower and expensive fallback")
  }

  /**
   * Creating the remapped snapshot under `id`: an existing snapshot of that name is reused;
   * otherwise a `-remap` snapshot of the parent is prepared, its files are remapped and it is
   * committed under `id`. When remapping the files fails, the `-remap` snapshot is removed
   * (whatever Remove returns) before the error is returned.
   */
  function RemapOutcome(id: string, parent: string, idMap: IDMap, sn: Snapshotter,
                        remapRootFS: (string, IDMap) -> MaybeError): (r: Resolution)
    ensures r.parent.Ok? ==> r.parent.value == id
    ensures sn.stat(id).None? ==> r == Resolution(Ok(id), [])
    ensures sn.stat(id).Some? ==> |r.calls| > 0 && r.calls[0] == PrepareCall(id + "-remap", parent)
    ensures r.parent.Ok? && sn.stat(id).Some? ==> r.calls == [PrepareCall(id + "-remap", parent), CommitCall(id, id + "-remap")]
    ensures RemoveCall(id + "-remap") in r.calls <==>
              sn.stat(id).Some? && sn.prepare(id + "-remap", parent).None? && remapRootFS(id + "-remap", idMap).Some?
    ensures RemoveCall(id + "-remap") in r.calls ==> r.parent == Err(remapRootFS(id + "-remap", idMap).value)
  {
    var work := id + "-remap";
    if sn.stat(id).None? then Resolution(Ok(id), [])
    else if sn.prepare(work, parent).Some? then Resolution(Err(sn.prepare(work, parent).value), [PrepareCall(work, parent)])
    else if remapRootFS(work, idMap).Some? then
      Resolution(Err(remapRootFS(work, idMap).value), [PrepareCall(work, parent), RemoveCall(work)])
    else if sn.commit(id, work).Some? then Resolution(Err(sn.commit(id, work).value), [PrepareCall(work, parent), CommitCall(id, work)])
    else Resolution(Ok(id), [PrepareCall(work, parent), CommitCall(id, work)])
  }

  /**
   * resolveSnapshotOptions: the parent to create a container snapshot from.
   *  - a snapshotter that remaps ids itself keeps the parent;
   *  - options without a uid or gid mapping label keep the parent;
   *  - otherwise a snapshotter that can only remap ids fails, as do id maps that cannot be
   *    decoded or have no root pair; and the parent becomes the remapped copy, named by the
   *    digest of the parent and the sorted maps.
   * Only the remapping step changes the snapshotter.
   */
  function Resolved(snapshotterName: string, capabs: Result<seq<string>>, parent: string, opts: seq<SnapshotOpt>,
                    unmarshal: (string, string) -> Result<IDMap>, rootPair: IDMap -> MaybeError,
                    hash: RemappedSnapshot -> Result<string>, sn: Snapshotter,
                    remapRootFS: (string, IDMap) -> MaybeError): (r: Resolution)
    ensures capabs.Err? ==> r == Resolution(Err(capabs.error), [])
    ensures capabs.Ok? && CapaRemapIDs in capabs.value ==> r == Resolution(Ok(parent), [])
    ensures capabs.Ok? && !NeedsRemap(opts) ==> r == Resolution(Ok(parent), [])
    ensures capabs.Ok? && CapaRemapIDs !in capabs.value && NeedsRemap(opts) && CapaOnlyRemapIDs in capabs.value ==>
              r == Resolution(Err(OnlyRemapUnsupported(snapshotterName)), [])
    ensures r.parent.Ok? && r.parent.value != parent ==>
              exists m :: rootPair(m).None? && hash(Sorted(RemappedSnapshot(parent, m))) == Ok(r.parent.value)
    ensures r.calls != [] ==>
              exists m :: rootPair(m).None? && hash(Sorted(RemappedSnapshot(parent, m))).Ok? &&
                r == RemapOutcome(hash(Sorted(RemappedSnapshot(parent, m))).value, parent, Sorted(RemappedSnapshot(parent, m)).idMap, sn, remapRootFS)
  {
    if capabs.Err? then Resolution(Err(capabs.error), [])
    else if CapaRemapIDs in capabs.value then Resolution(Ok(parent), [])
    else if !NeedsRemap(opts) then Resolution(Ok(parent), [])
    else if CapaOnlyRemapIDs in capabs.value then Resolution(Err(OnlyRemapUnsupported(snapshotterName)), [])
    else
      var labels := Contents(ApplyLabelOpts(opts));
      match unmarshal(LabelValue(labels, LabelSnapshotUIDMapping), LabelValue(labels, LabelSnapshotGIDMapping))
      case Err(e) => Resolution(Err(e), [])
      case Ok(m) =>
        if rootPair(m).Some? then Resolution(Err(RootPairMissing), [])
        else
          var sorted := Sorted(RemappedSnapshot(parent, m));
          match hash(sorted)
          case Err(e) => Resolution(Err(e), [])
          case Ok(id) => RemapOutcome(id, parent, sorted.idMap, sn, remapRootFS)
  }

  /** The first decisions of resolveSnapshotOptions, as written: loops over the capabilities and the options. */
  method RemapDecision(capabs: seq<string>, opts: seq<SnapshotOpt>) returns (remapped: bool, needsRemap: bool, uidMapLabel: string, gidMapLabel: string, capaOnlyRemap: bool)
    ensures remapped <==> CapaRemapIDs in capabs
    ensures !remapped ==> needsRemap == NeedsRemap(opts)
    ensures !remapped && needsRemap ==>
      uidMapLabel == LabelValue(Contents(ApplyLabelOpts(opts)), LabelSnapshotUIDMapping) &&
      gidMapLabel == LabelValue(Contents(ApplyLabelOpts(opts)), LabelSnapshotGIDMapping) &&
      (capaOnlyRemap <==> CapaOnlyRemapIDs in capabs)
  {
    uidMapLabel, gidMapLabel, capaOnlyRemap, needsRemap := "", "", false, false;
    for i := 0 to |capabs|
      invariant forall j :: 0 <= j < i ==> capabs[j] != CapaRemapIDs
    {
      if capabs[i] == CapaRemapIDs {
        return true, false, "", "", false;
      }
    }
    remapped := false;
    var local: Option<map<string, string>> := None;
    for i := 0 to |opts|
      invariant local == ApplyLabelOpts(opts[..i])
    {
      assert opts[..i + 1][..i] == opts[..i];
      local := opts[i](local);
    }
    assert opts[..|opts|] == opts;
    var labels := Contents(local);
    if LabelSnapshotUIDMapping in labels {
      needsRemap := true;
      uidMapLabel := labels[LabelSnapshotUIDMapping];
    }
    if LabelSnapshotGIDMapping in labels {
      needsRemap := true;
      gidMapLabel := labels[LabelSnapshotGIDMapping];
    }
    if !needsRemap {
      return;
    }
    for i := 0 to |capabs|
      invariant capaOnlyRemap <==> CapaOnlyRemapIDs in capabs[..i]
    {
      assert capabs[..i + 1] == capabs[..i] + [capabs[i]];
      if capabs[i] == CapaOnlyRemapIDs {
        capaOnlyRemap := true;
      }
    }
    assert capabs[..|capabs|] == capabs;
  }

  /** resolveSnapshotOptions as written. */
  method ResolveSnapshotOptions(snapshotterName: string, capabs: Result<seq<string>>, parent: string, opts: seq<SnapshotOpt>,
                                unmarshal: (string, string) -> Result<IDMap>, rootPair: IDMap -> MaybeError,
                                hash: RemappedSnapshot -> Result<string>, sn: Snapshotter,
                                remapRootFS: (string, IDMap) -> MaybeError) returns (r: Result<string>, calls: seq<SnapshotterCall>)
    ensures Resolution(r, calls) == Resolved(snapshotterName, capabs, parent, opts, unmarshal, rootPair, hash, sn, remapRootFS)
  {
    calls := [];
    if capabs.Err? {
      return Err(capabs.error), calls;
    }
    var remapped, needsRemap, uidMapLabel, gidMapLabel, capaOnlyRemap := RemapDecision(capabs.value, opts);
    if remapped || !needsRemap {
      return Ok(parent), calls;
    }
    if capaOnlyRemap {
      return Err(OnlyRemapUnsupported(snapshotterName)), calls;
    }
    var m := unmarshal(uidMapLabel, gidMapLabel);
    if m.Err? {
      return Err(m.error), calls;
    }
    if rootPair(m.value).Some? {
      return Err(RootPairMissing), calls;
    }
    var rsn, usernsID := ID(RemappedSnapshot(parent, m.value), hash);
    if usernsID.Err? {
      return Err(usernsID.error), calls;
    }
    var id := usernsID.value;
    if sn.stat(id).None? {
      return Ok(id), calls;
    }
    var work := id + "-remap";
    var prepared := sn.prepare(work, parent);
    calls := calls + [PrepareCall(work, parent)];
    if prepared.Some? {
      return Err(prepared.value), calls;
    }
    var remapErr := remapRootFS(work, rsn.idMap);
    if remapErr.Some? {
      var _ := sn.remove(work);
      calls := calls + [RemoveCall(work)];
      return Err(remapErr.value), calls;
    }
    var committed := sn.commit(id, work);
    calls := calls + [CommitCall(id, work)];
    if committed.Some? {
      return Err(committed.value), calls;
    }
    r := Ok(id);
  }
}
