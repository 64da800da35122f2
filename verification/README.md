# containerd core, modelled in Dafny

This project models the parts of containerd (the `basuotian/containerd` fork) that are sequential,
deterministic transformations of maps, lists and records, and proves what those parts promise.

- **Snapshot lineage store** (`core/snapshots/storage/bolt.go`). A class whose fields are the
  bolt buckets:
  - `snapshots` maps each snapshot key to its record (id, kind, parent name, labels, timestamps, usage);
  - `links` is the parent-to-child index, from (parent id, child id) to the child's key;
  - `sequence` is the bucket's `NextSequence` counter.

  CreateSnapshot, GetSnapshot, CommitActive, Remove, UpdateInfo, GetInfo, IDMap and the
  parent-chain walk are methods. Their contracts give the full error table and the full new
  state. Every operation keeps one invariant:
  - every parent exists and is Committed;
  - a parent's id is smaller than its child's;
  - each link names the existing child under its current key;
  - ids are distinct and below the counter.

  The byte-level keys are proved separately: the LEB128 varint, `parentKey`/`parentPrefixKey`,
  the zig-zag usage encoding, and the cursor-`Seek` test used by Remove.
- **Image handler combinators** (`core/images/handlers.go`):
  - handler chaining with the stop sentinel;
  - the depth-first `Walk` with the skip sentinel, and `WalkNotEmpty`;
  - the GC child-label key naming of `SetChildrenMappedLabels`;
  - `FilterPlatforms`;
  - `LimitManifests`, over Go's stable insertion sort.
- **Validators**:
  - identifier validation (`pkg/identifiers/validate.go`), as a hand-written recogniser proved
    equal to the anchored pattern;
  - the layer-label test and label stripping of `ctr content prune references`;
  - the shim binary name and the interceptor chain (`pkg/shim/util.go`).
- **In-memory stores and status rules**:
  - the CRI container store;
  - the Docker remote's status tracker;
  - the push-job set of `ctr images push`;
  - the CRI "starting" guard.
- **Builders and transformers**:
  - the default seccomp profile, as a function of the architecture, the kernel check and the
    bounding capabilities;
  - the batching of the snapshots service's List;
  - the three plugin config migrations;
  - the default OCI spec and the descriptor converters;
  - the Go client's container, remote, checkpoint and snapshotter options;
  - the client container's `Info`, `SetLabels`, `Delete`, `Image` and `handleMounts` guards.

Go's error values are represented by their class (`Errdefs.Error`), because callers only test the
class. Integers are unbounded. Go's `nil` map and slice are kept apart from empty ones only where
the source distinguishes them (`Option<map<…>>` for a container's labels and extensions). Services,
matchers, handlers, hashes and marshallers that the core calls but does not define are function
parameters.

## Model

| member | source | states |
|---|---|---|
| BoltKeys.UvarintRoundTrip | core/snapshots/storage/bolt.go:606-617 | readID (binary.Uvarint) of encodeID(x), followed by any bytes, gives back x and consumes exactly the encoding, for every uint64 |
| BoltKeys.DecodeUvarint | core/snapshots/storage/bolt.go:70-74 | binary.Uvarint reads a uint64 (below 2^64) and never counts more bytes than the buffer has; a short or overflowing buffer reads as 0, and an empty (nil) key reads as (0, 0) |
| BoltKeys.DecodeUvarintBound | core/snapshots/storage/bolt.go:70-74 | from byte i on, the value read, scaled by the 7·i bits before it, stays within 64 bits, which is why the tenth byte may only be 0 or 1 |
| BoltKeys.Uvarint | core/snapshots/storage/bolt.go:606-617 | encodeID never produces an empty encoding, so its error branch is dead |
| BoltKeys.UvarintShape | core/snapshots/storage/bolt.go:606-617 | every byte of the varint except the last has the continuation bit set, and the last has it clear |
| BoltKeys.UvarintInjective | core/snapshots/storage/bolt.go:606-617 | distinct ids have distinct varint encodings |
| BoltKeys.SmallIdLength | core/snapshots/storage/bolt.go:54-59 | an id is below 2^56 exactly when its varint takes at most 8 bytes, which is what the 17-byte parentKey buffer needs |
| BoltKeys.KeysDefined | core/snapshots/storage/bolt.go:54-67 | parentKey and parentPrefixKey fit their buffers (do not panic) for ids below 2^56 |
| BoltKeys.ParentKey | core/snapshots/storage/bolt.go:52-59 | the key fits the 17-byte buffer exactly when the two varints take at most 16 bytes (always for ids below 2^56); it is the parent's varint, a zero byte, then the child's varint |
| BoltKeys.ParentPrefixKey | core/snapshots/storage/bolt.go:61-67 | defined (no overrun of the 9-byte buffer) exactly for ids below 2^56; it is the parent's varint followed by a zero byte |
| BoltKeys.GetParentPrefix | core/snapshots/storage/bolt.go:69-74 | the parent read from a key is a uint64, and the nil key of an exhausted cursor reads as 0 |
| BoltKeys.ParentKeyPrefix | core/snapshots/storage/bolt.go:54-74 | parentPrefixKey(p) is a prefix of parentKey(p, c), and getParentPrefix(parentKey(p, c)) == p |
| BoltKeys.ParentKeyInjective | core/snapshots/storage/bolt.go:54-59 | parentKey determines both the parent and the child id |
| BoltKeys.EncodeSize | core/snapshots/storage/bolt.go:593-604 | encodeSize never produces an empty encoding |
| BoltKeys.DecodeSize | core/snapshots/storage/bolt.go:569-572 | getUsage's binary.Varint gives an int64, and a missing (nil) value reads as 0 |
| BoltKeys.SizeRoundTrip | core/snapshots/storage/bolt.go:569-604 | getUsage's binary.Varint of encodeSize(size) is size for every int64 (zig-zag varint round trip) |
| BoltKeys.PrefixLexLe | core/snapshots/storage/bolt.go:315-316 | a prefix sorts at or before every key it prefixes (bolt's key order) |
| BoltKeys.Sandwich | core/snapshots/storage/bolt.go:315-316 | a key between a prefix and a key with that prefix has the prefix too |
| BoltKeys.SeekFindsChild | core/snapshots/storage/bolt.go:314-318 | Remove's test (Seek to parentPrefixKey(id), then getParentPrefix of the found key == id) holds exactly when some link has parent id |
| BoltKeys.SeekFindsLink | core/snapshots/storage/bolt.go:314-318 | if a link with parent id exists, the key Seek finds decodes to id |
| BoltKeys.SeekMissesOthers | core/snapshots/storage/bolt.go:314-318 | if no link has parent id, the key Seek finds decodes to another id |
| SnapshotStorage.ReadKind | core/snapshots/storage/bolt.go:510-516 | a stored kind that is not exactly one byte reads as the zero (unknown) kind |
| SnapshotStorage.KindRoundTrip | core/snapshots/storage/bolt.go:510-516 | readKind gives back the kind putSnapshot stored as one byte |
| SnapshotStorage.ParentChain | core/snapshots/storage/bolt.go:493-508 | the parent chain starts with the snapshot's own id |
| SnapshotStorage.ChainDecreasing | core/snapshots/storage/bolt.go:493-508 | the ids along the parent chain strictly decrease, so the walk ends after at most id+1 steps |
| SnapshotStorage.ChainCommitted | core/snapshots/storage/bolt.go:493-508 | under the store invariant every ancestor in the chain is a Committed snapshot |
| SnapshotStorage.FormatChain | core/snapshots/storage/bolt.go:493-508 | the chain is reported position by position as the decimal string of each id |
| SnapshotStorage.FormatChainInjective | core/snapshots/storage/bolt.go:493-508 | the reported strings determine the id chain: different chains are reported differently |
| SnapshotStorage.ChildLinkIffChild | core/snapshots/storage/bolt.go:314-318 | under the invariant, some link has this snapshot's id as parent exactly when some snapshot names it as parent |
| SnapshotStorage.OnlyCommittedHaveChildren | core/snapshots/storage/bolt.go:234-243 | under the invariant an Active or View snapshot has no children |
| SnapshotStorage.CreateKeepsInvariant | core/snapshots/storage/bolt.go:244-282 | adding a record with the next sequence id and its parent link keeps the store invariant |
| SnapshotStorage.CreateParentsOk | core/snapshots/storage/bolt.go:234-243 | after a create every record's parent exists, is Committed and has a smaller id |
| SnapshotStorage.CreateRecordsOk | core/snapshots/storage/bolt.go:252-276 | after a create every record's id is at most the counter and its parent link names it |
| SnapshotStorage.CreateLinksOk | core/snapshots/storage/bolt.go:269-276 | after a create every link joins a parent id to the id of the child it names |
| SnapshotStorage.RemoveKeepsInvariant | core/snapshots/storage/bolt.go:316-336 | deleting a childless snapshot and its own parent link keeps the invariant |
| SnapshotStorage.CommitKeepsInvariant | core/snapshots/storage/bolt.go:379-409 | renaming an Active snapshot to a Committed one under a fresh name, with the same id and parent, and rewriting the parent link to the new name keeps the invariant |
| SnapshotStorage.UpdateKeepsInvariant | core/snapshots/storage/bolt.go:117-144 | replacing a record's labels and update time keeps the invariant |
| SnapshotStorage.FieldpathsError | core/snapshots/storage/bolt.go:111-129 | applying field paths fails exactly when some path is neither "labels" nor "labels.<k>", and the failure is InvalidArgument |
| SnapshotStorage.FieldpathsSelective | core/snapshots/storage/bolt.go:112-121 | with only "labels.<k>" paths, exactly those keys change, each to the requested value or "" when absent, and all other labels are kept |
| SnapshotStorage.FieldpathsAliased | core/snapshots/storage/bolt.go:112-126 | after a "labels" path the stored labels are the caller's map, so later "labels.<k>" paths keep every present label and add only missing keys, as "" |
| SnapshotStorage.AliasedRequestKeepsWrite | core/snapshots/storage/bolt.go:112-126 | with stored and requested labels {a: "1"}, the paths ["labels", "labels.k", "labels"] give {a: "1", k: ""}: the write through the alias reaches the request |
| SnapshotStorage.Adapt | core/snapshots/storage/bolt.go:619-650 | an empty path or an unknown first field is ("", false); "name" and "parent" are always present with the snapshot's name and parent; whatever is absent reads as "" |
| SnapshotStorage.AdaptLabels | core/snapshots/storage/bolt.go:638-645 | "labels" followed by any path looks up the rest of the path joined with "." and is present exactly when that label exists (so never for an empty label map) |
| SnapshotStorage.AdaptDottedLabel | core/snapshots/storage/bolt.go:638-645 | a label key containing a dot is found whether the filter splits it into two fields or not |
| SnapshotStorage.AdaptKind | core/snapshots/storage/bolt.go:626-634 | "kind" reads as "active", "view" or "committed" for those three kinds, and is absent ("", false) for an unknown kind |
| SnapshotStorage.MetaStore.Parents | core/snapshots/storage/bolt.go:493-508 | returns the decimal ids of the snapshot and its ancestors, nearest first |
| SnapshotStorage.MetaStore.GetInfo | core/snapshots/storage/bolt.go:78-95 | no transaction gives NoTransaction and a missing key NotFound; otherwise it returns the id, the info and the usage of the record |
| SnapshotStorage.MetaStore.UpdateInfo | core/snapshots/storage/bolt.go:98-145 | error table (no transaction, NotFound, InvalidArgument path, read-only); on success only that record's labels and update time change, to all of info's labels or to the field-path result (a "labels" path makes later "labels.<k>" writes go through to the request), and the returned info carries the stored kind, parent and creation time |
| SnapshotStorage.MetaStore.GetSnapshot | core/snapshots/storage/bolt.go:182-214 | NotFound for a missing key and FailedPrecondition for a Committed one; otherwise the id, kind and parent chain, with nothing changed |
| SnapshotStorage.MetaStore.CreateSnapshot | core/snapshots/storage/bolt.go:217-293 | a kind other than Active or View gives InvalidArgument, then the option error, then NotFound (missing parent), InvalidArgument (uncommitted parent) and AlreadyExists; on error nothing changes; on success the id is the next sequence value, the record and parent link are added and ParentIDs is the parent's chain |
| SnapshotStorage.MetaStore.Remove | core/snapshots/storage/bolt.go:298-342 | NotFound for a missing key and FailedPrecondition while a child exists, with no change; otherwise the record and its own parent link go, and the id and kind are returned |
| SnapshotStorage.MetaStore.CommitActive | core/snapshots/storage/bolt.go:350-417 | AlreadyExists for an existing name is checked first, then NotFound and FailedPrecondition for a non-Active key; on success the key is gone, the name holds a Committed record with the same id and parent, the option labels (not inherited) and the usage, and the parent link now names it |
| SnapshotStorage.MetaStore.IDMap | core/snapshots/storage/bolt.go:420-437 | maps each stored id's decimal string to its key, with one entry per snapshot |
| SnapshotStorage.IdCount | core/snapshots/storage/bolt.go:420-437 | the id map has as many entries as there are snapshots, because ids are distinct |
| SnapshotStorage.InjectiveCard | core/snapshots/storage/bolt.go:420-437 | a map with distinct values has as many values as keys |
| StableSort.Sort | core/images/handlers.go:297-305 | the sort keeps the length |
| StableSort.Insert | core/images/handlers.go:297-305 | one insertion step adds exactly one element, and x is at the position the scan stops at |
| StableSort.InsertShape | core/images/handlers.go:297-305 | one insertion step splices x into the prefix at that position, with every other element in its old order |
| StableSort.InsertPosPassed | core/images/handlers.go:297-305 | x moves left only past elements it is less than, and stops behind the first element (from the right) it is not less than |
| StableSort.SortPermutation | core/images/handlers.go:297-305 | sort.SliceStable's result is a permutation of its input |
| StableSort.SortByKey | core/images/handlers.go:297-305 | with a less that compares keys, the result is sorted by key and the elements of each key keep their input order (stability) |
| StableSort.SortToEnd | core/images/handlers.go:297-305 | with a less that never puts a marked element first, marked elements end up last in their input order |
| StableSort.InsertPermutation | core/images/handlers.go:297-305 | one insertion step adds exactly the inserted element |
| StableSort.InsertSorted | core/images/handlers.go:297-305 | one insertion step keeps the prefix sorted by key |
| StableSort.InsertWithKey | core/images/handlers.go:297-305 | one insertion step appends the element after the earlier equal-key elements |
| StableSort.InsertAtEnd | core/images/handlers.go:297-305 | one insertion step keeps the marked elements at the end |
| StableSort.InsertKeep | core/images/handlers.go:297-305 | one insertion step keeps the marked elements in input order |
| StableSort.InsertInPlace | core/images/handlers.go:297-305 | the in-place insertion step leaves the prefix equal to the functional insertion and the rest untouched |
| StableSort.SliceStable | core/images/handlers.go:297-305 | sorting the array in place leaves exactly the functional Sort of the old contents |
| Strconv.FormatUint | core/snapshots/storage/bolt.go:284 | strconv.FormatUint(id, 10) is a non-empty string of decimal digits with no leading zero |
| Strconv.FormatUintValue | core/snapshots/storage/bolt.go:284 | the digits read back as the number |
| Strconv.FormatUintInjective | core/snapshots/storage/bolt.go:427-428 | distinct ids give distinct decimal strings, so IDMap's keys do not collide |
| Options.FirstFailure | pkg/oci/spec.go:110-114 | the index of the first option that fails, at most the number of options |
| Options.ApplyAllAppend | pkg/oci/spec.go:108-116 | applying xs then ys equals applying xs, then ys from its state unless xs failed |
| Options.ApplyAllStopsAtFirstError | pkg/oci/spec.go:108-116 | options run in order up to the first that fails; that error is the result and no later option runs |
| Options.RunOpts | internal/cri/store/container/container.go:95-99 | the loop over the options computes exactly the fold that stops at the first error |
| GoMaps.PutAll | client/container_opts.go:151-155 | copying src into dst overwrites src's keys and keeps every other key of dst |
| GoMaps.Restrict | plugins/cri/images/plugin.go:200-211 | the entries of the map whose keys are in the set, with their values unchanged |
| ImageHandlers.FirstFailing | core/images/handlers.go:65-82 | the first handler that returns an error (or the number of handlers when none does) |
| ImageHandlers.RunHandlers | core/images/handlers.go:65-82 | children are the concatenation from the handlers before the first error; ErrStopHandler ends the chain with those children and no error; any other error gives nil children and that error |
| ImageHandlers.RankBound | core/images/handlers.go:89-107 | a bound exceeding the rank of every descriptor in the list |
| ImageHandlers.WalkFrom | core/images/handlers.go:89-107 | the walk never returns ErrSkipDesc; an error comes from the handler on the last visited descriptor; the first descriptor is visited first |
| ImageHandlers.WalkBound | core/images/handlers.go:89-107 | the walk does not depend on the termination bound chosen |
| ImageHandlers.WalkAppend | core/images/handlers.go:89-107 | walking a + b is walking a, then walking b unless a failed |
| ImageHandlers.WalkSkipsChildren | core/images/handlers.go:93-97 | ErrSkipDesc visits the descriptor, skips its children and is not an error |
| ImageHandlers.WalkVisitsReachable | core/images/handlers.go:89-107 | every visited descriptor is a root or a child returned by an earlier successful visit (depth-first pre-order) |
| ImageHandlers.ReachedJoin | core/images/handlers.go:89-107 | descriptors reached from the children of visited nodes are reached from the roots |
| ImageHandlers.WalkNotEmpty | core/images/handlers.go:113-138 | a walk error is returned unchanged; otherwise ErrEmptyWalk exactly when no handler call returned children |
| ImageHandlers.WalkNotEmptyFirstChildren | core/images/handlers.go:113-138 | when the first root yields children and the walk succeeds, there is no error |
| ImageHandlers.Pairs | core/images/handlers.go:233-235 | one (label key, child digest) use per label key of a child, in order |
| ImageHandlers.GeneratedKeys | core/images/handlers.go:236-240 | one generated key per label use |
| ImageHandlers.FieldsOf | core/images/handlers.go:243 | one field path per label use |
| ImageHandlers.UsesAppend | core/images/handlers.go:233-235 | the label uses of a + b are those of a followed by those of b |
| ImageHandlers.UseStep | core/images/handlers.go:236-243 | one use: the counter equals the earlier uses of the key, the counter, labels and fields advance by that key, and an empty key marks the panic |
| ImageHandlers.EmptyKeyUnused | core/images/handlers.go:238 | with no empty key, the empty key is never counted |
| ImageHandlers.EmptyKeyUsed | core/images/handlers.go:238 | an empty key among earlier children panics for the whole list |
| ImageHandlers.LabelChild | core/images/handlers.go:234-244 | the inner loop over one child's label keys extends the counter, labels and fields by that child's uses, or panics on an empty key (key[len(key)-1] out of range) |
| ImageHandlers.SetChildrenMappedLabels | core/images/handlers.go:214-253 | a handler error passes through; no children means no Update; otherwise a single Update of the parent digest with the generated labels and "labels."+key fields, unless an empty label key panics; an Update error gives nil children, otherwise the children pass through unchanged |
| ImageHandlers.GeneratedKeyAt | core/images/handlers.go:236-240 | the i-th use of key k becomes k when i = 0 and k does not end in '.', and k followed by i otherwise |
| ImageHandlers.NamedKeyInjective | core/images/handlers.go:238-239 | different use numbers of one key give different label keys |
| ImageHandlers.RepeatedKeysDistinct | core/images/handlers.go:236-240 | repeated uses of one label key get distinct generated keys |
| ImageHandlers.OccurrencesPrefix | core/images/handlers.go:236-237 | a later use of a key has seen more earlier uses |
| ImageHandlers.LabelsMatchFields | core/images/handlers.go:238-243 | field j is "labels." + generated key j; the label map's keys are the generated keys; each label holds the digest of a use with that key |
| ImageHandlers.FieldsMatchKeys | core/images/handlers.go:243 | field j is "labels." + generated key j |
| ImageHandlers.LabelKeysGenerated | core/images/handlers.go:239-242 | the label map's keys are exactly the generated keys |
| ImageHandlers.LabelValuesFromUses | core/images/handlers.go:242 | every label value is the digest of a use that generated that key |
| ImageHandlers.FilterPlatforms | core/images/handlers.go:259-280 | a handler error passes through; a nil matcher returns the children unchanged; otherwise every returned child has no platform or a matching one |
| ImageHandlers.FilteredKept | core/images/handlers.go:271-275 | the filtered children are all kept ones |
| ImageHandlers.FilterKeptCount | core/images/handlers.go:271-275 | each kept child occurs as often as in the input and each dropped child not at all |
| ImageHandlers.FilterKeptAppend | core/images/handlers.go:271-275 | filtering distributes over concatenation, so the input order is kept |
| ImageHandlers.LimitManifests | core/images/handlers.go:288-318 | errors and non-index descriptors pass through; for an index the children are stably sorted; with n > 0 an empty list is NotFound, otherwise the first min(n, len) |
| ImageHandlers.ManifestLess | core/images/handlers.go:297-305 | the comparator never puts a nil-platform descriptor first and always puts one with a platform before one without; two platforms compare by the comparer |
| ImageHandlers.ManifestOrderNilLast | core/images/handlers.go:297-305 | the sorted manifests are a permutation with the nil-platform ones last, in their original order |
| ImageHandlers.ManifestOrderByRank | core/images/handlers.go:297-305 | when the comparer ranks platforms, the result is ordered by rank with equal ranks in manifest order |
| Identifiers.PatternIsWellShaped | pkg/identifiers/validate.go:36-42 | a match of alnum+ ([._-] alnum+)* starts and ends alphanumeric, uses only [A-Za-z0-9._-] and has no two adjacent separators |
| Identifiers.WellShapedIsPattern | pkg/identifiers/validate.go:36-42 | every such string matches the pattern |
| Identifiers.PatternIffWellShaped | pkg/identifiers/validate.go:36-42 | matching the pattern is equivalent to that shape |
| Identifiers.NoDoubleSeparator | pkg/identifiers/validate.go:36-42 | in an accepted shape a separator is followed by an alphanumeric |
| Identifiers.LastSeparator | pkg/identifiers/validate.go:36-42 | a shape that is not one word has a last separator followed only by alphanumerics |
| Identifiers.Validate | pkg/identifiers/validate.go:52-65 | accepts exactly the strings of length 1..76 that match the pattern; every rejection is InvalidArgument |
| Identifiers.ValidIsPathComponent | pkg/identifiers/validate.go:23-24 | an accepted identifier has no '/' or NUL, is not "." or "..", and does not start with '-' or '.' |
| Identifiers.ValidJoin | pkg/identifiers/validate.go:42 | two identifiers joined by one separator are an identifier when the result is short enough |
| ContentPrune.IsInteger | cmd/ctr/commands/content/prune.go:131-138 | true exactly when every character is a digit, so "" is an integer |
| ContentPrune.IsLayerLabel | cmd/ctr/commands/content/prune.go:114-129 | the "…content.l." prefix is always a layer label; keys without the content prefix never are; other content-prefix keys are when the suffix is all digits and not "0" |
| ContentPrune.LegacyIndexLabel | cmd/ctr/commands/content/prune.go:122-126 | "…content.<n>" is a layer label exactly when n != 0 |
| ContentPrune.BareContentPrefix | cmd/ctr/commands/content/prune.go:123-126 | the bare content prefix (empty suffix) is a layer label |
| ContentPrune.HandlerKeysClassified | cmd/ctr/commands/content/prune.go:114-129 | layer keys made by the child-label naming are layer labels; manifest and config keys are not |
| ContentPrune.MatchingKeys | cmd/ctr/commands/content/prune.go:81-82 | the label keys that satisfy the test |
| ContentPrune.LayerKeys | cmd/ctr/commands/content/prune.go:81-82 | the label keys that are layer labels |
| ContentPrune.StripMatching | cmd/ctr/commands/content/prune.go:81-93 | the loop deletes exactly the matching keys and gives one "labels."+k field per deleted key |
| ContentPrune.StripLayerLabels | cmd/ctr/commands/content/prune.go:78-93 | in dry-run mode nothing is removed and no field is built; otherwise exactly the layer labels are removed with one field each |
| ContentPrune.PruneRecord | cmd/ctr/commands/content/prune.go:78-101 | dry run or no layer labels means no Update and no error; otherwise one Update of the stripped info with those fields, whose error is returned |
| ContentPrune.FieldPathInjective | cmd/ctr/commands/content/prune.go:90 | different keys give different field paths |
| PushJobs.FirstOccurrences | cmd/ctr/commands/images/push.go:275-284 | the order of first insertion: the same refs as added, with no duplicates |
| PushJobs.PushJobsSet.Add | cmd/ctr/commands/images/push.go:275-284 | a known ref changes neither jobs nor ordered; a new ref is added to both, at the end of ordered; ordered stays the first-insertion order of all added refs |
| PushJobs.AddIdempotent | cmd/ctr/commands/images/push.go:279-281 | re-adding a known ref leaves the first-insertion order unchanged |
| PushJobs.FirstOccurrencesPrefix | cmd/ctr/commands/images/push.go:282 | later adds only extend ordered |
| PushJobs.Classify | cmd/ctr/commands/images/push.go:292-313 | Ref is the ref; a tracker error gives a zero Waiting entry; otherwise offsets, totals and times are copied |
| PushJobs.ClassifyStates | cmd/ctr/commands/images/push.go:296-312 | Waiting exactly for an untracked ref; Done when offset >= total with no upload UUID; Committing when offset >= total with one; Uploading when offset < total |
| PushJobs.PushJobsSet.Status | cmd/ctr/commands/images/push.go:286-318 | one entry per ordered ref, in order, each the classification of that ref's tracked status |
| PushJobs.PushJobsSet.constructor | cmd/ctr/commands/images/push.go:268-273 | the new set is empty and uses the given tracker |
| DockerStatus.StatusOf | core/remotes/docker/status.go:79-87 | a tracked ref gives its status and no error; an untracked ref gives the zero status and NotFound |
| DockerStatus.MemoryStatusTracker.constructor | core/remotes/docker/status.go:72-77 | a new tracker tracks nothing |
| DockerStatus.MemoryStatusTracker.GetStatus | core/remotes/docker/status.go:79-87 | the lookup of the ref in the tracked statuses |
| DockerStatus.MemoryStatusTracker.SetStatus | core/remotes/docker/status.go:89-93 | the ref now maps to the status and every other ref is unchanged |
| DockerStatus.EmptyTrackerNotFound | core/remotes/docker/status.go:72-87 | every GetStatus on a new tracker is NotFound |
| DockerStatus.SetThenGet | core/remotes/docker/status.go:82-93 | GetStatus after SetStatus returns that status, and other refs read as before |
| DockerStatus.SetOverwrites | core/remotes/docker/status.go:89-93 | a later SetStatus of the same ref overwrites the earlier one |
| CriContainerStore.Lookup | internal/cri/store/container/container.go:145-159 | a resolved id present in the map gives that container; an unresolvable id gives NotFound, another index error passes through, and every error comes with an empty container |
| CriContainerStore.NewContainer | internal/cri/store/container/container.go:89-101 | applies the options in order; the first error gives an empty container and that error |
| CriContainerStore.Store.constructor | internal/cri/store/container/container.go:117-123 | a new store holds no container and no index entry |
| CriContainerStore.Store.Add | internal/cri/store/container/container.go:127-141 | an existing id is AlreadyExists, then the label-reservation and index errors, each leaving the store unchanged; otherwise the id is indexed and the container stored |
| CriContainerStore.Store.Get | internal/cri/store/container/container.go:145-159 | resolves the id through the index and looks it up |
| CriContainerStore.Store.List | internal/cri/store/container/container.go:162-170 | every stored container exactly once |
| CriContainerStore.Store.UpdateContainerStats | internal/cri/store/container/container.go:175-194 | errors as Get, with no change; otherwise only the resolved container's stats change |
| CriContainerStore.Store.Delete | internal/cri/store/container/container.go:197-213 | an unresolvable id is a silent no-op; otherwise the container and its index entry are removed |
| CriContainerStore.AddThenGet | internal/cri/store/container/container.go:127-159 | Get after Add returns the added container |
| CriContainerStore.DeleteThenGet | internal/cri/store/container/container.go:145-213 | Get after Delete is NotFound |
| CriContainerStore.UpdateStatsIsolated | internal/cri/store/container/container.go:190-192 | a stats update leaves other containers and the other fields untouched |
| CriContainerStart.SetContainerStarting | internal/cri/server/container_start.go:292-308 | succeeds exactly when the state is CREATED and neither Removing nor Starting is set, and then sets only Starting |
| CriContainerStart.ResetContainerStarting | internal/cri/server/container_start.go:312-317 | never fails, clears Starting and changes nothing else |
| CriContainerStart.StartFailed | internal/cri/server/container_start.go:71-77 | sets Pid 0, the finish time, the start exit code and reason and the error message, and nothing else |
| CriContainerStart.StartingExcludesSecondStart | internal/cri/server/container_start.go:302-304 | a second start of a starting container fails |
| CriContainerStart.ResetUndoesSet | internal/cri/server/container_start.go:305-316 | resetting after a successful set restores the old status |
| CriContainerStart.FailedStartClearsStarting | internal/cri/server/container_start.go:68-84 | after the failure update and the reset the container is no longer starting and its Removing flag is as before |
| ShimUtil.FirstDot | pkg/shim/util.go:96 | the position of the first '.', with no '.' before it, or none |
| ShimUtil.Split | pkg/shim/util.go:96 | strings.Split by '.' has at least one part |
| ShimUtil.SplitJoin | pkg/shim/util.go:96 | joining the parts with '.' gives back the string |
| ShimUtil.SplitParts | pkg/shim/util.go:96 | no part contains '.', and there is one part exactly when there is no '.' |
| ShimUtil.FirstPartEmpty | pkg/shim/util.go:97 | the first part is empty exactly for "" or a leading '.' |
| ShimUtil.LastTwoParts | pkg/shim/util.go:101 | the last two parts are the string's name.version suffix |
| ShimUtil.BinaryName | pkg/shim/util.go:94-102 | "" for a runtime without a dot or with a leading '.'; otherwise the format applied to two dot-free parts that are the runtime's name.version suffix |
| ShimUtil.ChainUnaryServerInterceptors | pkg/shim/util.go:197-218 | an empty list gives nil, and a non-empty one gives an interceptor |
| ShimUtil.CallChained | pkg/shim/util.go:205-217 | the loop's call equals i[0] around i[1] around … i[n-1] around the method |
| ShimUtil.NestAppend | pkg/shim/util.go:205-217 | nesting a + b is nesting a around the nesting of b |
| ShimUtil.ChainRunsFirstToLast | pkg/shim/util.go:195-217 | interceptors that record their index run first to last |
| SnapshotService.GetSnapshotter | plugins/services/snapshots/service.go:64-74 | an empty or unknown name is InvalidArgument; otherwise the named snapshotter |
| SnapshotService.FullBlocks | plugins/services/snapshots/service.go:213-225 | the full blocks are the consecutive 100-entry slices |
| SnapshotService.Remainder | plugins/services/snapshots/service.go:229-234 | what stays in the buffer has fewer than 100 entries |
| SnapshotService.FlattenFullBlocks | plugins/services/snapshots/service.go:213-225 | the first m full blocks concatenate to the first 100·m entries |
| SnapshotService.BlocksFlatten | plugins/services/snapshots/service.go:213-234 | the sent blocks concatenate to the walked entries, in order |
| SnapshotService.BlockSizes | plugins/services/snapshots/service.go:213-234 | nothing is sent for an empty walk; every block but the last has 100 entries and the last has 1..100 |
| SnapshotService.FirstFailedSend | plugins/services/snapshots/service.go:216-219 | the first block whose Send fails, or the number of blocks |
| SnapshotService.ListSendsBlocks | plugins/services/snapshots/service.go:213-236 | when every Send succeeds, List sends exactly the blocks and returns no error |
| SnapshotService.SendFailureStops | plugins/services/snapshots/service.go:216-232 | the sent blocks are a prefix of the blocks; all but the last sent succeeded; a failed Send is the returned error |
| SnapshotService.SendFullBlocks | plugins/services/snapshots/service.go:213-228 | the walk callback sends the full blocks in order and keeps the remainder, or stops at the first failed Send |
| SnapshotService.List | plugins/services/snapshots/service.go:199-237 | a getSnapshotter error sends nothing; otherwise the sent blocks and error are those of the batched walk |
| SnapshotService.Cleanup | plugins/services/snapshots/service.go:253-265 | getSnapshotter errors pass through; a snapshotter that is not a Cleaner is NotImplemented; otherwise Cleanup's result |
| SeccompDefault.Arches | contrib/seccomp/seccomp_default.go:30-54 | an architecture outside the table gives an empty list |
| SeccompDefault.CapRule | contrib/seccomp/seccomp_default.go:582-717 | each capability's rule, when it has one, is an unconditional allow |
| SeccompDefault.DefaultProfile | contrib/seccomp/seccomp_default.go:57-765 | a nil Process or Capabilities panics (the bounding set is read through them); otherwise the default action is ActErrno, the architectures follow GOARCH, and the rules are the base list, then the kernel, architecture, capability and non-admin rules |
| SeccompDefault.BoundingCapRules | contrib/seccomp/seccomp_default.go:581-718 | the loop appends each bounding capability's rule in order, duplicates included, and records whether CAP_SYS_ADMIN was seen |
| SeccompDefault.CapRulesAppend | contrib/seccomp/seccomp_default.go:582-718 | the capability rules of a + b are those of a followed by those of b |
| SeccompDefault.CapRulesUnrestricted | contrib/seccomp/seccomp_default.go:582-718 | capability rules are allows that never name socket or personality |
| SeccompDefault.AllowListUnrestricted | contrib/seccomp/seccomp_default.go:59-427 | the big allow list names neither socket nor personality |
| SeccompDefault.AllowListContents | contrib/seccomp/seccomp_default.go:59-427 | the allow list has 363 names and ends with waitpid, write and writev |
| SeccompDefault.WriteAlwaysAllowed | contrib/seccomp/seccomp_default.go:422-424 | whatever the architecture, kernel and capabilities, the first rule allows write and writev unconditionally |
| SeccompDefault.SocketRuleGuarded | contrib/seccomp/seccomp_default.go:429-439 | socket is allowed only when arg0 != AF_VSOCK |
| SeccompDefault.PersonalityRulesGuarded | contrib/seccomp/seccomp_default.go:440-494 | personality is allowed only for 0x0, 0x8, 0x20000, 0x20008 and 0xffffffff |
| SeccompDefault.BaseRulesGuarded | contrib/seccomp/seccomp_default.go:59-495 | in the base list socket and personality appear only in their guarded rules |
| SeccompDefault.KernelRulesGuarded | contrib/seccomp/seccomp_default.go:503-517 | the kernel rule does not name socket or personality |
| SeccompDefault.KernelRules | contrib/seccomp/seccomp_default.go:503-517 | one unconditional allow rule, with ptrace among its names, exactly when the kernel check says 4.8 or later; none when it is older or the check fails |
| SeccompDefault.ArchRules | contrib/seccomp/seccomp_default.go:519-579 | one unconditional allow rule for each of the eight architectures the switch names, none for any other |
| SeccompDefault.ArchRulesGuarded | contrib/seccomp/seccomp_default.go:519-579 | the architecture rules do not name socket or personality |
| SeccompDefault.CapRulesGuarded | contrib/seccomp/seccomp_default.go:581-718 | the capability rules do not name socket or personality |
| SeccompDefault.NonAdminRulesGuarded | contrib/seccomp/seccomp_default.go:720-762 | the clone and clone3 rules do not name socket or personality |
| SeccompDefault.NonAdminRules | contrib/seccomp/seccomp_default.go:720-762 | clone is allowed only when its flags argument (the second on s390 and s390x, the first elsewhere) has none of the namespace flags, and clone3 fails with ENOSYS |
| SeccompDefault.SocketAndPersonalityGuarded | contrib/seccomp/seccomp_default.go:57-765 | in the whole profile socket and personality are allowed only under their argument guards |
| SeccompDefault.GuardedAfter | contrib/seccomp/seccomp_default.go:503-762 | the rules appended after a guarded base keep it guarded |
| SeccompDefault.CloneRulesWithoutAdmin | contrib/seccomp/seccomp_default.go:720-762 | some rule has action ActErrno exactly when CAP_SYS_ADMIN is not in the bounding set; then the last rule is clone3 with ActErrno and ENOSYS, and the one before it allows clone only when the namespace flags are masked-equal to 0 on argument 1 (s390, s390x) or argument 0 (elsewhere) |
| SeccompDefault.ClonesAfterAllowRules | contrib/seccomp/seccomp_default.go:720-762 | the same after any all-allow base |
| SeccompDefault.CloneRulesAfter | contrib/seccomp/seccomp_default.go:720-762 | the same for the non-admin rules appended to any all-allow prefix |
| SeccompDefault.BaseRulesAllow | contrib/seccomp/seccomp_default.go:59-495 | every base rule is an allow |
| SeccompDefault.KernelCheckFailureAddsNothing | contrib/seccomp/seccomp_default.go:503-517 | a failed kernel check adds what kernel < 4.8 adds (nothing); kernel >= 4.8 adds exactly one rule |
| ConfigMigration.Copied | plugins/cri/images/plugin.go:200-211 | the listed keys present in src are copied over dst, and every other key of dst is kept |
| ConfigMigration.CopyPresent | plugins/cri/images/plugin.go:200-211 | the copying loop computes exactly that copy |
| ConfigMigration.MapOrEmpty | plugins/cri/images/plugin.go:223-228 | an absent entry is an empty map, a map entry is itself, and any other value panics (failed type assertion) |
| ConfigMigration.Platforms | plugins/cri/images/plugin.go:229-237 | each runtime with a non-empty snapshot gets an entry, and the earlier entries are kept |
| ConfigMigration.AddRuntimePlatforms | plugins/cri/images/plugin.go:229-237 | a runtime entry that is not a map panics; otherwise the loop computes those platform entries |
| ConfigMigration.MigrateRuntimes | plugins/cri/images/plugin.go:213-250 | the containerd part of the migration, as its specification function |
| ConfigMigration.MigrateConfig | plugins/cri/images/plugin.go:185-251 | migrateConfig, as its specification function |
| ConfigMigration.MigratedImages | plugins/cri/images/plugin.go:185-251 | migrateConfig fails only by panicking, and leaves every key other than pinned_images, runtime_platform, the image keys and the containerd keys as it was |
| ConfigMigration.RuntimesKeepOthers | plugins/cri/images/plugin.go:238-250 | the runtime step changes only runtime_platform and the three containerd keys |
| ConfigMigration.ImagesConfigMigration | plugins/cri/images/plugin.go:164-184 | a current version or no old cri entry leaves the configs unchanged; an entry that is not a map panics (failed type assertion); otherwise only the images entry changes |
| ConfigMigration.SandboxImagePinned | plugins/cri/images/plugin.go:186-198 | sandbox_image becomes pinned_images["sandbox"] and other pinned entries are kept |
| ConfigMigration.PinnedFirst | plugins/cri/images/plugin.go:186-211 | the same for the pinning and key-copy steps alone |
| ConfigMigration.ImageKeysCopied | plugins/cri/images/plugin.go:200-211 | each of the six image keys is copied when present in src, and otherwise dst's value is kept |
| ConfigMigration.NoRuntimesStopsEarly | plugins/cri/images/plugin.go:213-221 | with no containerd map or no runtimes, the migration stops after the key copy |
| ConfigMigration.RuntimeSnapshotterRecorded | plugins/cri/images/plugin.go:229-237 | a runtime with a non-empty snapshot gets {platform: default, snapshotter: snapshot} |
| ConfigMigration.ContainerdKeysCopied | plugins/cri/images/plugin.go:242-250 | with containerd runtimes, each of snapshotter, disable_snapshot_annotations and discard_unpacked_layers is copied from the old containerd config when present, and dst's value is kept otherwise |
| ConfigMigration.RuntimePlatformRecorded | plugins/cri/images/plugin.go:223-240 | in the migrated config, runtime_platform maps each runtime with a non-empty snapshot to {platform: default, snapshotter: snapshot} |
| ConfigMigration.RuntimesRecordPlatform | plugins/cri/images/plugin.go:223-250 | the runtime step records such a runtime's platform entry in runtime_platform, and the containerd key copy leaves it there |
| ConfigMigration.CriConfigMigration | plugins/cri/cri.go:239-265 | the cri migration, as its specification function |
| ConfigMigration.CriMigrationKeepsStreamingKeys | plugins/cri/cri.go:249-263 | the cri entry becomes exactly the six streaming keys that were present, with the same values, and other entries are untouched |
| ConfigMigration.MigratedCgroupsConfigs | core/metrics/cgroups/cgroups.go:51-64 | a current version or a missing old key changes nothing; otherwise the value moves to the task-monitor key, the old key is deleted, and other keys are untouched |
| ConfigMigration.CgroupsConfigMigration | core/metrics/cgroups/cgroups.go:51-64 | the closure computes exactly that rename |
| OciSpec.CgroupsPath | pkg/oci/spec.go:157-223 | "/" + ns + "/" + id, always absolute |
| OciSpec.UnixDefaultSpec | pkg/oci/spec.go:157-223 | fails with the namespace error when there is no namespace; otherwise the rootfs root, cwd "/", uid 0, NoNewPrivileges, the three default capability sets, NOFILE 1024/1024, the cgroups path, deny-all devices, the five namespaces, the default mounts, and the default masked and read-only paths |
| OciSpec.WindowsDefaultSpec | pkg/oci/spec.go:225-235 | the OCI version, an empty writable root, cwd "C:\\" with no capabilities, rlimits or NoNewPrivileges, no mounts, a Windows section and no Linux section |
| OciSpec.DarwinDefaultSpec | pkg/oci/spec.go:237-246 | the OCI version, an empty root, cwd "/" with no capabilities or rlimits, no mounts, and neither a Linux nor a Windows section |
| OciSpec.DefaultSpec | pkg/oci/spec.go:84-104 | a platform parse error passes through; windows and darwin get their defaults; other OSes get the Unix default, with the Windows section added on a Windows host |
| OciSpec.OnlyUnixNeedsNamespace | pkg/oci/spec.go:84-104 | building the default fails exactly for a Unix-like OS without a namespace |
| OciSpec.Bind | pkg/oci/spec.go:108-116 | one spec step per option, each closed over the container |
| OciSpec.ApplyOpts | pkg/oci/spec.go:108-116 | applies the options in order and stops at the first error, which is returned |
| OciSpec.GenerateSpecWithPlatform | pkg/oci/spec.go:75-82 | a default-spec error gives no spec; otherwise the options are applied to the default spec |
| OciSpec.DescriptorToProto | pkg/oci/spec.go:259-266 | copies the media type, digest, size and annotations |
| OciSpec.DescriptorFromProto | pkg/oci/spec.go:248-255 | inverts DescriptorToProto, with no URLs, platform or artifact type |
| OciSpec.DescriptorRoundTrip | pkg/oci/spec.go:248-266 | from-proto of to-proto keeps the media type, digest, size and annotations and drops the rest |
| ContainerOpts.ContainerRef.WithSandbox | client/container_opts.go:79-84 | sets only SandboxID |
| ContainerOpts.ContainerRef.WithImageName | client/container_opts.go:95-100 | sets only Image |
| ContainerOpts.ContainerRef.WithSnapshotter | client/container_opts.go:180-185 | sets only Snapshotter |
| ContainerOpts.ContainerRef.WithContainerLabels | client/container_opts.go:105-110 | replaces Labels entirely |
| ContainerOpts.ContainerRef.WithAdditionalContainerLabels | client/container_opts.go:147-158 | Labels becomes the merge of the old labels and the new ones |
| ContainerOpts.MergedLabels | client/container_opts.go:147-158 | nil labels become the argument; otherwise the new keys overwrite and every other existing key is kept |
| ContainerOpts.MergeIdempotent | client/container_opts.go:147-158 | merging the same labels twice is merging them once |
| ContainerOpts.ReplaceThenAdd | client/container_opts.go:105-158 | after a replace and a merge, each key holds the merged value, or else the replaced one |
| ContainerOpts.ContainerRef.WithContainerExtension | client/container_opts.go:278-298 | an empty name is InvalidArgument and a marshal error passes through, both with no change; otherwise Extensions[name] is set, creating the map if needed |
| ContainerOpts.SnapshotCleanup | client/container_opts.go:209-223 | no snapshot key is a no-op; no snapshotter is InvalidArgument; NotFound from Remove is swallowed, and other errors pass through |
| ContainerOpts.WithoutRefreshedMetadata | client/container_opts.go:329-331 | turns refresh off |
| ClientOpts.ClientOptions.WithDialOpts | client/client_opts.go:74-79 | replaces the dial options and leaves the extra ones alone |
| ClientOpts.ClientOptions.WithExtraDialOpts | client/client_opts.go:87-92 | appends to the extra dial options and leaves the others alone |
| ClientOpts.RemoteContext.WithPlatform | client/client_opts.go:126-140 | adds the platform (the default for "") unless present, and changes nothing else |
| ClientOpts.PlatformOrDefault | client/client_opts.go:127-130 | "" becomes the default platform, and a non-empty platform is kept |
| ClientOpts.PlatformAdded | client/client_opts.go:131-138 | the result extends the old list by at most the new platform, contains it, and stays duplicate-free |
| ClientOpts.PlatformAddedIdempotent | client/client_opts.go:131-138 | adding a platform twice is adding it once |
| ClientOpts.PlatformsInRequestOrder | client/client_opts.go:126-140 | a sequence of WithPlatform calls lists each requested platform exactly once, ordered by first request |
| ClientOpts.RemoteContext.WithPullUnpack | client/client_opts.go:155-158 | sets Unpack and nothing else |
| ClientOpts.RemoteContext.WithPullLabel | client/client_opts.go:178-187 | creates the map if nil and sets exactly that key |
| ClientOpts.RemoteContext.WithPullLabels | client/client_opts.go:190-201 | merges the labels, overwriting conflicting keys and keeping the others |
| ClientOpts.RemoteContext.WithImageHandler | client/client_opts.go:224-229 | appends exactly one handler to BaseHandlers |
| CheckpointOpts.WithCheckpointTaskExit | client/container_checkpoint_opts.go:142-145 | sets Exit, changes no other option and the index, and never fails |
| CheckpointOpts.WithCheckpointRuntime | client/container_checkpoint_opts.go:97-116 | no runtime options (or a nil value) leaves the index unchanged; marshal and write errors pass through unchanged; otherwise the written descriptor, with the host platform, is appended |
| CheckpointOpts.GetIndexByMediaType | client/container_checkpoint_opts.go:148-155 | the first manifest with the media type, or ErrMediaTypeNotFound when none has it |
| CheckpointOpts.FirstWithMediaType | client/container_checkpoint_opts.go:149-153 | the index of the first match, with no match before it |
| CheckpointOpts.LookupStableUnderAppend | client/container_checkpoint_opts.go:148-155 | appending manifests does not change a successful lookup |
| CheckpointOpts.AppendedRuntimeOptionsFound | client/container_checkpoint_opts.go:97-155 | after the runtime options are appended, the lookup for their media type succeeds |
| SnapshotterOpts.RemapperLabels | client/snapshotter_opts_unix.go:50-60 | exactly the uid- and gid-mapping labels, holding the encoded maps |
| SnapshotterOpts.WithUserNSRemapperLabels | client/snapshotter_opts_unix.go:50-60 | the option always leaves a label map holding the uid- and gid-mapping labels with the encoded maps, and keeps every other existing label |
| SnapshotterOpts.WithRemapperLabels | client/snapshotter_opts_unix.go:41-45 | the same as WithUserNSRemapperLabels with single-entry uid and gid maps of the given length |
| SnapshotterOpts.SortInPlace | client/snapshotter_opts_unix.go:145-156 | the in-place stable sort by container ID |
| SnapshotterOpts.ID | client/snapshotter_opts_unix.go:145-162 | sorts both maps, then hashes the sorted value |
| SnapshotterOpts.SortedIsStablePermutation | client/snapshotter_opts_unix.go:145-156 | each sorted map is sorted by container ID and is a stable permutation of the input |
| SnapshotterOpts.SortedSortedIsSorted | client/snapshotter_opts_unix.go:145-156 | sorting an already sorted map changes nothing |
| SnapshotterOpts.RemapOutcome | client/snapshotter_opts_unix.go:116-137 | an existing remapped snapshot is reused with no call; otherwise Prepare of "<id>-remap" on the parent comes first, success is Prepare then Commit and returns the id, and Remove of "<id>-remap" happens exactly when Prepare succeeded and the remap failed, whose error is returned |
| SnapshotterOpts.Resolved | client/snapshotter_opts_unix.go:62-138 | a capability error passes through; "remap-ids" or no mapping label keeps the parent; "only-remap-ids" is an error; any other result is the hash of the sorted parent and maps that passed the root-pair check; snapshotter calls happen only on that remap path |
| SnapshotterOpts.RemapDecision | client/snapshotter_opts_unix.go:68-101 | the capability loops and the label lookup: remapped exactly for "remap-ids", then the mapping labels and the only-remap flag |
| SnapshotterOpts.ResolveSnapshotOptions | client/snapshotter_opts_unix.go:62-138 | the decision sequence computes exactly that outcome and makes exactly that sequence of Prepare, Commit and Remove calls |
| ClientContainer.RefreshByDefault | client/container.go:114-121 | Info refreshes with no options, and WithoutRefreshedMetadata turns that off |
| ClientContainer.ContainerHandle.Info | client/container.go:114-130 | with refresh, a fetched record replaces and returns the cache, and a failed fetch returns the old cache and the error; without refresh, the cache is returned unchanged |
| ClientContainer.ContainerHandle.SetLabels | client/container.go:148-170 | sends a record holding only the ID and the labels, with exactly the "labels."+k paths, and returns the updated labels or the error |
| ClientContainer.LabelPathInjective | client/container.go:158-163 | different label keys give different paths |
| ClientContainer.LabelPaths | client/container.go:158-163 | exactly the "labels."+k paths of the label keys |
| ClientContainer.MaskPaths | client/container.go:158-163 | the loop builds one distinct path per label key, covering exactly those paths |
| ClientContainer.FirstFailingOpt | client/container.go:199-203 | the first delete option that fails, or the number of options |
| ClientContainer.Delete | client/container.go:187-205 | a task that loads is FailedPrecondition before any option runs; deletion happens exactly when the record loads and every option succeeds, and then returns the service's error |
| ClientContainer.Image | client/container.go:212-225 | a load error passes through; an empty Image is NotFound; otherwise the lookup of that name |
| ClientContainer.HandleMounts | client/container.go:327-367 | no snapshot key means no mounts; a key with no snapshotter is InvalidArgument; mounts come only from a valid pair |
| ClientContainer.CleanupAndMountsAgree | client/container.go:333-336 | WithSnapshotCleanup and handleMounts agree on the missing-snapshotter and no-key cases |

## Left out

- `images.Dispatch`, `SetChildrenLabels` and `ChildrenHandler`: Dispatch is concurrent (errgroup and semaphore), and the other two only wire a content provider into the modelled handlers.
- `WalkInfo` and bolt's bucket iteration order: the order belongs to bbolt, and the `filters` parser is not part of this model. `adaptSnapshot`, the filter's view of a snapshot, is modelled.
- Reading and writing labels and timestamps (`boltutil`), and the wall clock: timestamps are an opaque `now` parameter. `boltutil` is not part of this model, so labels are stored exactly as given, empty values included.
- `SnapshotStorage.MetaStore.UpdateInfo`: the write-through alias after a "labels" path is modelled (`ApplyFieldpaths`'s `aliased` flag), but two effects of it are not. The changes Go makes to the caller's `info.Labels` are not returned to the caller, even on the InvalidArgument path. A nil `info.Labels` is treated as an empty map: in Go, a "labels.<k>" path after "labels" then allocates a fresh map and ends the alias, so `["labels", "labels.k", "labels"]` with a nil request stores no labels, where the model stores {k: ""}.
- `SnapshotStorage.MetaStore`: links are kept as (parent id, child id) pairs. The byte keys, and the buffer overrun for ids of 2^56 or more, are proved separately in `BoltKeys` and not threaded through the store.
- `SnapshotStorage.MetaStore.CreateSnapshot`: a failing `NextSequence` and failing bolt writes are not modelled, because the in-memory buckets cannot fail.
- The metadata database, garbage collector, leases and migrations under `core/metadata` are not part of this model.
- `ContentPrune.IsInteger`: `unicode.IsDigit` is modelled as the ASCII digits '0'..'9', so non-ASCII Unicode digits are not accepted as in Go.
- `ShimUtil.BinaryName`: the `shimBinaryFormat` constant is not part of this model, so it is a format parameter.
- `SeccompDefault.DefaultProfile`: the kernel-version check is a parameter (`Result<bool>`). The `golang.org/x/sys/unix` constants AF_VSOCK, ENOSYS and CLONE_* take their Linux values. A nil `sp` itself is not modelled; only a nil Process or Capabilities (the panic of seccomp_default.go:582) is.
- `ConfigMigration.ImagesConfigMigration`: `version.ConfigVersion` is taken as 3, and `platforms.DefaultStrict()` is a parameter.
- `OciSpec.UnixDefaultSpec`: `specs.Version` and the default mounts (`mounts.go` is not part of this model) come from a `Host` parameter. The namespace from `pkg/namespaces` is a `Result` parameter. `filepath.Clean` in the cgroups path is not modelled.
- `OciSpec.DefaultSpec`: `platforms.Parse` is a parameter, and `GenerateSpec` (the host's default platform) is left out.
- `OciSpec.ApplyOpts`: spec options take the container by value, so an option that changes the container is not modelled.
- `SnapshotterOpts.ID`: JSON marshalling and the digest are a `hash` parameter.
- `SnapshotterOpts.Resolved`: the uid/gid label parsing, the root-pair lookup, the snapshotter's Stat, Prepare, Commit and Remove results and the remap of the root filesystem are parameters; the state-changing calls are recorded as a call trace. Error messages are kept as their class: `%q` quoting of the snapshotter name in the "only-remap-ids" message is written as plain double quotes without Go's escaping, and wrapped errors ("failed to remap snapshot", unmarshal failures) keep the class of the wrapped error.
- `CriContainerStore.Store`: truncated-id prefix resolution is a `resolve` parameter. Label Reserve/Release and closing the container IO are outside the model, and Reserve's error is a parameter of Add.
- `CriContainerStart.StartFailed`: the values of `errorStartExitCode` and `errorStartReason` are parameters, and `Status.Update` persistence and the state computed from timestamps are not modelled.
- `internal/cri/store/container/status.go` is not part of this model: the status is a record, and its state is a function parameter.
- The CRI `StartContainer` flow around the guard (task creation, IO, NRI) is not modelled.
- Locks and mutexes, `context.Context` cancellation and the status tracker's per-ref locks are not modelled.
- `PushJobs.PushJobsSet.Status`: only the in-memory tracker is modelled, not other `StatusTracker` implementations.
- `ClientContainer.Delete`: the snapshot and container service calls are parameters. The task lookup is a `loadTask` outcome.
- `CheckpointOpts`: `WithCheckpointImage`, `WithCheckpointTask` and `WithCheckpointRW` call the task and diff services and are left out.
- Client options not listed above (`WithRuntime`, `WithImage`, `WithNewSnapshot`, `WithNewSpec`, `WithDefaultNamespace` and the like) only forward to services or other packages.
- Go `nil` and empty slices are identified everywhere except labels and extensions. There, `nil` matters to WithAdditionalContainerLabels and WithContainerExtension.
- `StableSort`: Go's `sort.SliceStable` runs insertion sort on blocks of 20 and then merges them. The model is plain insertion sort. The two give the same stable order only when `less` is a strict weak order, which is what `sort.SliceStable` documents as its requirement; for other comparators the model fixes the insertion-sort result and does not capture Go's blocked merge.
- `pkg/shim/util.go`: `Command`, `WritePidFile`, `ReadAddress`, `ReadRuntimeOptions` and `Connect` do process and file I/O and are left out.
- `ContainerOpts.ContainerRef.WithContainerLabels`: Go stores the caller's map itself when it replaces the labels, so later writes through either reference are shared; the model copies the map by value and does not capture that aliasing.
- `ContainerOpts.ContainerRef.WithAdditionalContainerLabels`: when Labels is nil, Go stores the caller's map itself (client/container_opts.go:149-151); the model copies it by value and does not capture that aliasing.
- `ImageHandlers.WalkFrom`: the walk is modelled only for handlers whose descriptor graph is acyclic (the `Acyclic(h, rank)` requirement). On a cyclic graph Go's recursion never ends (core/images/handlers.go:89-107); content addressing rules such graphs out for real images.
- `ContentPrune.PruneRecord`: only the per-record callback is modelled. The content store's `Walk` over all records, which stops at the first callback error (cmd/ctr/commands/content/prune.go:78-103), and the lease `Create` and `Delete` that trigger garbage collection afterwards (cmd/ctr/commands/content/prune.go:105-110) are left out, because they are service calls whose order and results the model cannot see.
