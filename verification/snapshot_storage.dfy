/**
 * The snapshot metadata store of core/snapshots/storage/bolt.go.
 *
 * The bolt database holds a version bucket "v1" with two buckets: "snapshots", one sub-bucket
 * per snapshot key (id, kind, parent name, labels, timestamps, usage), and "parents", whose keys
 * link a parent id to a child id and whose values name the child. The store is a class whose
 * fields are those buckets; every operation runs inside a caller's bolt transaction, and a
 * transaction that returns an error is rolled back by its caller, so every failing operation
 * leaves the store unchanged.
 */
module SnapshotStorage {
  import opened Errdefs
  import opened Options
  import BoltKeys
  import Strconv

  /** snapshots.Kind, a uint8 in the database. */
  datatype Kind = KindUnknown | KindView | KindActive | KindCommitted

  /** The byte putSnapshot stores for a kind. */
  function KindByte(k: Kind): BoltKeys.byte
  {
    match k
    case KindUnknown => 0
    case KindView => 1
    case KindActive => 2
    case KindCommitted => 3
  }

  /** readKind: a one-byte value is the kind; anything else reads as KindUnknown. */
  function ReadKind(b: seq<BoltKeys.byte>): (k: Kind)
    ensures |b| != 1 ==> k == KindUnknown
  {
    if |b| == 1 then
      if b[0] == 1 then KindView
      else if b[0] == 2 then KindActive
      else if b[0] == 3 then KindCommitted
      else KindUnknown
    else KindUnknown
  }

  /** readKind reads back the kind putSnapshot wrote. */
  lemma KindRoundTrip(k: Kind)
    ensures ReadKind([KindByte(k)]) == k
  {
  }

  datatype Usage = Usage(inodes: int, size: int)

  /** snapshots.Info; times are opaque instants. */
  datatype Info = Info(name: string, kind: Kind, parent: string, labels: map<string, string>, created: int, updated: int)

  /** storage.Snapshot: the kind, the decimal id and the decimal ids of the parent chain. */
  datatype Snapshot = Snapshot(kind: Kind, id: string, parentIDs: seq<string>)

  /** The contents of one snapshot bucket. */
  datatype Record = Record(id: nat, kind: Kind, parent: string, labels: map<string, string>,
                           created: int, updated: int, usage: Usage)

  /** What the context carries: no bolt transaction, a read-only one or a writable one. */
  datatype Tx = NoTx | ReadOnly | Writable

  const EmptyInfo: Info := Info("", KindUnknown, "", map[], 0, 0)

  function InfoOf(name: string, r: Record): Info
  {
    Info(name, r.kind, r.parent, r.labels, r.created, r.updated)
  }

  // ------------------------------------------------------------------ store invariant

  /** The parent a snapshot names exists and has a smaller id, so parent chains end. */
  ghost predicate ParentOk(snaps: map<string, Record>, k: string)
    requires k in snaps
  {
    snaps[k].parent != "" ==> snaps[k].parent in snaps && snaps[snaps[k].parent].id < snaps[k].id
  }

  ghost predicate ParentsExist(snaps: map<string, Record>)
  {
    forall k {:trigger ParentOk(snaps, k)} :: k in snaps ==> ParentOk(snaps, k)
  }

  /**
   * One snapshot bucket is well formed: its id was handed out by the sequence, its kind is
   * known, and a parent it names is committed and linked to it in the parents bucket.
   */
  ghost predicate RecordOk(snaps: map<string, Record>, links: map<(nat, nat), string>, sequence: nat, k: string)
    requires k in snaps
  {
    var r := snaps[k];
    1 <= r.id <= sequence && r.kind != KindUnknown &&
    (r.parent != "" ==>
       r.parent in snaps && snaps[r.parent].kind == KindCommitted &&
       (snaps[r.parent].id, r.id) in links && links[(snaps[r.parent].id, r.id)] == k)
  }

  /** A link names a stored child whose parent has the link's parent id. */
  ghost predicate LinkOk(snaps: map<string, Record>, links: map<(nat, nat), string>, l: (nat, nat))
    requires l in links
  {
    var c := links[l];
    c in snaps && snaps[c].id == l.1 && snaps[c].parent != "" &&
    snaps[c].parent in snaps && snaps[snaps[c].parent].id == l.0
  }

  ghost predicate StoreInvariant(initialized: bool, snaps: map<string, Record>,
                                 links: map<(nat, nat), string>, sequence: nat)
  {
    (!initialized ==> snaps == map[] && links == map[] && sequence == 0) &&
    "" !in snaps &&
    ParentsExist(snaps) &&
    (forall k {:trigger RecordOk(snaps, links, sequence, k)} :: k in snaps ==> RecordOk(snaps, links, sequence, k)) &&
    (forall l {:trigger LinkOk(snaps, links, l)} :: l in links ==> LinkOk(snaps, links, l)) &&
    (forall k1, k2 :: k1 in snaps && k2 in snaps && k1 != k2 ==> snaps[k1].id != snaps[k2].id)
  }

  /** The ids of a snapshot and of all its ancestors, nearest first (what `parents` walks). */
  function ParentChain(snaps: map<string, Record>, name: string): (ids: seq<nat>)
    requires ParentsExist(snaps) && name in snaps
    ensures |ids| >= 1 && ids[0] == snaps[name].id
    decreases snaps[name].id
  {
    var r := snaps[name];
    assert ParentOk(snaps, name);
    [r.id] + (if r.parent == "" then [] else ParentChain(snaps, r.parent))
  }

  /** The parents-bucket key of the link from a snapshot's parent to it. */
  function LinkOf(snaps: map<string, Record>, k: string): (nat, nat)
    requires ParentsExist(snaps) && k in snaps && snaps[k].parent != ""
  {
    assert ParentOk(snaps, k);
    (snaps[snaps[k].parent].id, snaps[k].id)
  }

  /** The ids of a parent chain as the decimal strings ParentIDs reports. */
  function FormatChain(ids: seq<nat>): (s: seq<string>)
    ensures |s| == |ids|
    ensures forall i :: 0 <= i < |ids| ==> s[i] == Strconv.FormatUint(ids[i])
  {
    if ids == [] then [] else [Strconv.FormatUint(ids[0])] + FormatChain(ids[1..])
  }

  /** The reported strings determine the chain: different chains are reported differently. */
  lemma FormatChainInjective(ids1: seq<nat>, ids2: seq<nat>)
    requires FormatChain(ids1) == FormatChain(ids2)
    ensures ids1 == ids2
  {
    forall i | 0 <= i < |ids1|
      ensures ids1[i] == ids2[i]
    {
      Strconv.FormatUintInjective(ids1[i], ids2[i]);
    }
  }

  /** Some snapshot names `name` as its parent. */
  ghost predicate HasChildNamed(snaps: map<string, Record>, name: string)
  {
    exists k :: k in snaps && snaps[k].parent == name
  }

  /** Some link in the parents bucket has parent id `id`. */
  predicate HasChildLink(links: map<(nat, nat), string>, id: nat)
  {
    exists l :: l in links && l.0 == id
  }

  /** The parent ids of a chain strictly decrease, so a chain never repeats a snapshot. */
  lemma {:induction false} ChainDecreasing(snaps: map<string, Record>, name: string)
    requires ParentsExist(snaps) && name in snaps
    ensures forall i, j :: 0 <= i < j < |ParentChain(snaps, name)| ==> ParentChain(snaps, name)[i] > ParentChain(snaps, name)[j]
    ensures |ParentChain(snaps, name)| <= snaps[name].id + 1
    decreases snaps[name].id
  {
    var r := snaps[name];
    assert ParentOk(snaps, name);
    if r.parent != "" {
      ChainDecreasing(snaps, r.parent);
    }
  }

  /** Every id in a chain is the id of a stored snapshot; every one after the first is committed. */
  /** Some committed snapshot has id x. */
  ghost predicate CommittedId(snaps: map<string, Record>, x: nat)
  {
    exists k :: k in snaps && snaps[k].id == x && snaps[k].kind == KindCommitted
  }

  /** Every id after the first in a chain is the id of a stored, committed snapshot. */
  lemma {:induction false} ChainCommitted(initialized: bool, snaps: map<string, Record>,
                                          links: map<(nat, nat), string>, sequence: nat, name: string)
    requires StoreInvariant(initialized, snaps, links, sequence) && name in snaps
    ensures forall i :: 0 < i < |ParentChain(snaps, name)| ==> CommittedId(snaps, ParentChain(snaps, name)[i])
    decreases snaps[name].id
  {
    var r := snaps[name];
    assert ParentOk(snaps, name);
    assert RecordOk(snaps, links, sequence, name);
    if r.parent != "" {
      ChainCommitted(initialized, snaps, links, sequence, r.parent);
      var ids := ParentChain(snaps, name);
      var rest := ParentChain(snaps, r.parent);
      assert ids == [r.id] + rest;
      forall i | 0 < i < |ids|
        ensures CommittedId(snaps, ids[i])
      {
        if i == 1 {
          var p := r.parent;
          assert p in snaps && snaps[p].id == ids[i] && snaps[p].kind == KindCommitted;
        } else {
          var j := i - 1;
          assert 0 < j < |rest| && ids[i] == rest[j];
          assert CommittedId(snaps, rest[j]);
        }
      }
    }
  }

  /** Under the invariant, a child link for a snapshot's id exists exactly when some snapshot names it as parent. */
  lemma ChildLinkIffChild(initialized: bool, snaps: map<string, Record>,
                          links: map<(nat, nat), string>, sequence: nat, name: string)
    requires StoreInvariant(initialized, snaps, links, sequence) && name in snaps
    ensures HasChildLink(links, snaps[name].id) <==> HasChildNamed(snaps, name)
  {
    if HasChildLink(links, snaps[name].id) {
      var l :| l in links && l.0 == snaps[name].id;
      assert LinkOk(snaps, links, l);
      var c := links[l];
      assert snaps[c].parent == name;
    }
    if HasChildNamed(snaps, name) {
      var c :| c in snaps && snaps[c].parent == name;
      assert RecordOk(snaps, links, sequence, c);
    }
  }

  /** A snapshot that is not committed is nobody's parent. */
  lemma OnlyCommittedHaveChildren(initialized: bool, snaps: map<string, Record>,
                                  links: map<(nat, nat), string>, sequence: nat, name: string)
    requires StoreInvariant(initialized, snaps, links, sequence) && name in snaps
    requires snaps[name].kind != KindCommitted
    ensures !HasChildNamed(snaps, name)
  {
    forall c | c in snaps ensures snaps[c].parent != name {
      assert RecordOk(snaps, links, sequence, c);
    }
  }

  /** CreateSnapshot's change keeps the store well formed: the new id is fresh and its parent link is added. */
  lemma CreateKeepsInvariant(initialized: bool, snaps: map<string, Record>, links: map<(nat, nat), string>,
                             sequence: nat, key: string, kind: Kind, parent: string,
                             labels: map<string, string>, now: int)
    requires StoreInvariant(initialized, snaps, links, sequence)
    requires key != "" && key !in snaps && kind != KindUnknown
    requires parent != "" ==> parent in snaps && snaps[parent].kind == KindCommitted
    ensures var id := sequence + 1;
            StoreInvariant(true, snaps[key := Record(id, kind, parent, labels, now, now, Usage(0, 0))],
                           if parent == "" then links else links[(snaps[parent].id, id) := key], id)
  {
    CreateParentsOk(initialized, snaps, links, sequence, key, kind, parent, labels, now);
    CreateRecordsOk(initialized, snaps, links, sequence, key, kind, parent, labels, now);
    CreateLinksOk(initialized, snaps, links, sequence, key, kind, parent, labels, now);
    var id := sequence + 1;
    var snaps' := snaps[key := Record(id, kind, parent, labels, now, now, Usage(0, 0))];
    forall k1, k2 | k1 in snaps' && k2 in snaps' && k1 != k2
      ensures snaps'[k1].id != snaps'[k2].id
    {
      if k1 != key && k2 != key {
      } else if k1 == key {
        assert RecordOk(snaps, links, sequence, k2);
      } else {
        assert RecordOk(snaps, links, sequence, k1);
      }
    }
  }

  lemma CreateParentsOk(initialized: bool, snaps: map<string, Record>, links: map<(nat, nat), string>,
                             sequence: nat, key: string, kind: Kind, parent: string,
                             labels: map<string, string>, now: int)
    requires StoreInvariant(initialized, snaps, links, sequence)
    requires key != "" && key !in snaps && kind != KindUnknown
    requires parent != "" ==> parent in snaps && snaps[parent].kind == KindCommitted
    ensures var snaps' := snaps[key := Record(sequence + 1, kind, parent, labels, now, now, Usage(0, 0))];
            forall k :: k in snaps' ==> ParentOk(snaps', k)
  {
    var id := sequence + 1;
    var snaps' := snaps[key := Record(id, kind, parent, labels, now, now, Usage(0, 0))];
    forall k | k in snaps' ensures ParentOk(snaps', k) {
      if k == key {
        if parent != "" { assert RecordOk(snaps, links, sequence, parent); }
      } else {
        assert ParentOk(snaps, k);
        if snaps[k].parent != "" { assert snaps[k].parent != key; }
      }
    }
  }

  lemma CreateRecordsOk(initialized: bool, snaps: map<string, Record>, links: map<(nat, nat), string>,
                             sequence: nat, key: string, kind: Kind, parent: string,
                             labels: map<string, string>, now: int)
    requires StoreInvariant(initialized, snaps, links, sequence)
    requires key != "" && key !in snaps && kind != KindUnknown
    requires parent != "" ==> parent in snaps && snaps[parent].kind == KindCommitted
    ensures var id := sequence + 1;
            var snaps' := snaps[key := Record(id, kind, parent, labels, now, now, Usage(0, 0))];
            var links' := if parent == "" then links else links[(snaps[parent].id, id) := key];
            forall k :: k in snaps' ==> RecordOk(snaps', links', id, k)
  {
    var id := sequence + 1;
    var snaps' := snaps[key := Record(id, kind, parent, labels, now, now, Usage(0, 0))];
    var links' := if parent == "" then links else links[(snaps[parent].id, id) := key];
    forall k | k in snaps' ensures RecordOk(snaps', links', id, k) {
      if k != key {
        assert RecordOk(snaps, links, sequence, k);
        var r := snaps[k];
        if r.parent != "" && parent != "" {
          assert (snaps[r.parent].id, r.id) != (snaps[parent].id, id);
        }
      }
    }
  }

  lemma CreateLinksOk(initialized: bool, snaps: map<string, Record>, links: map<(nat, nat), string>,
                             sequence: nat, key: string, kind: Kind, parent: string,
                             labels: map<string, string>, now: int)
    requires StoreInvariant(initialized, snaps, links, sequence)
    requires key != "" && key !in snaps && kind != KindUnknown
    requires parent != "" ==> parent in snaps && snaps[parent].kind == KindCommitted
    ensures var id := sequence + 1;
            var snaps' := snaps[key := Record(id, kind, parent, labels, now, now, Usage(0, 0))];
            var links' := if parent == "" then links else links[(snaps[parent].id, id) := key];
            forall l :: l in links' ==> LinkOk(snaps', links', l)
  {
    var id := sequence + 1;
    var snaps' := snaps[key := Record(id, kind, parent, labels, now, now, Usage(0, 0))];
    var links' := if parent == "" then links else links[(snaps[parent].id, id) := key];
    forall l | l in links' ensures LinkOk(snaps', links', l) {
      if l in links && (parent == "" || l != (snaps[parent].id, id)) {
        assert LinkOk(snaps, links, l);
      }
    }
  }

  /** Remove's change keeps the store well formed when no snapshot has the removed one as parent. */
  lemma RemoveKeepsInvariant(initialized: bool, snaps: map<string, Record>, links: map<(nat, nat), string>,
                             sequence: nat, key: string)
    requires StoreInvariant(initialized, snaps, links, sequence)
    requires key in snaps && !HasChildNamed(snaps, key)
    ensures var r := snaps[key];
            r.parent != "" ==> r.parent in snaps
    ensures var r := snaps[key];
            StoreInvariant(initialized, snaps - {key},
                           if r.parent == "" then links else links - {(snaps[r.parent].id, r.id)}, sequence)
  {
    var r := snaps[key];
    assert RecordOk(snaps, links, sequence, key);
    var snaps' := snaps - {key};
    var links' := if r.parent == "" then links else links - {(snaps[r.parent].id, r.id)};
    forall k | k in snaps' ensures ParentOk(snaps', k) {
      assert ParentOk(snaps, k);
    }
    forall k | k in snaps' ensures RecordOk(snaps', links', sequence, k) {
      assert RecordOk(snaps, links, sequence, k);
    }
    forall l | l in links' ensures LinkOk(snaps', links', l) {
      assert LinkOk(snaps, links, l);
    }
  }

  /** CommitActive's change keeps the store well formed: the record moves to the new name, keeping its id and link. */
  lemma CommitKeepsInvariant(initialized: bool, snaps: map<string, Record>, links: map<(nat, nat), string>,
                             sequence: nat, key: string, name: string, labels: map<string, string>,
                             now: int, usage: Usage)
    requires StoreInvariant(initialized, snaps, links, sequence)
    requires key in snaps && snaps[key].kind == KindActive && name != "" && name !in snaps
    ensures var r := snaps[key];
            r.parent != "" ==> r.parent in snaps
    ensures var r := snaps[key];
            StoreInvariant(initialized, (snaps - {key})[name := Record(r.id, KindCommitted, r.parent, labels, now, now, usage)],
                           if r.parent == "" then links else links[(snaps[r.parent].id, r.id) := name], sequence)
  {
    var r := snaps[key];
    assert RecordOk(snaps, links, sequence, key);
    assert ParentOk(snaps, key);
    OnlyCommittedHaveChildren(initialized, snaps, links, sequence, key);
    var snaps' := (snaps - {key})[name := Record(r.id, KindCommitted, r.parent, labels, now, now, usage)];
    var links' := if r.parent == "" then links else links[(snaps[r.parent].id, r.id) := name];
    forall k | k in snaps' ensures ParentOk(snaps', k) {
      if k != name { assert ParentOk(snaps, k); }
    }
    forall k | k in snaps' ensures RecordOk(snaps', links', sequence, k) {
      if k != name { assert RecordOk(snaps, links, sequence, k); }
    }
    forall l | l in links' ensures LinkOk(snaps', links', l) {
      if r.parent == "" || l != (snaps[r.parent].id, r.id) {
        assert LinkOk(snaps, links, l);
      }
    }
  }

  /** UpdateInfo's change (labels and update time) keeps the store well formed. */
  lemma UpdateKeepsInvariant(initialized: bool, snaps: map<string, Record>, links: map<(nat, nat), string>,
                             sequence: nat, name: string, labels: map<string, string>, now: int)
    requires StoreInvariant(initialized, snaps, links, sequence) && name in snaps
    ensures StoreInvariant(initialized, snaps[name := snaps[name].(labels := labels, updated := now)], links, sequence)
  {
    var snaps' := snaps[name := snaps[name].(labels := labels, updated := now)];
    forall k | k in snaps' ensures ParentOk(snaps', k) {
      assert ParentOk(snaps, k);
    }
    forall k | k in snaps' ensures RecordOk(snaps', links, sequence, k) {
      assert RecordOk(snaps, links, sequence, k);
    }
    forall l | l in links ensures LinkOk(snaps', links, l) {
      assert LinkOk(snaps, links, l);
    }
  }

  // ------------------------------------------------------------------ fieldpaths of UpdateInfo

  predicate HasPrefix(s: string, p: string)
  {
    |p| <= |s| && s[..|p|] == p
  }

  /** A fieldpath UpdateInfo accepts: "labels" or "labels.<key>". */
  predicate IsLabelPath(p: string)
  {
    p == "labels" || HasPrefix(p, "labels.")
  }

  /** info.Labels[key]: the empty string for a missing key. */
  function Lookup(m: map<string, string>, key: string): string
  {
    if key in m then m[key] else ""
  }

  /**
   * The labels after UpdateInfo's fieldpath loop: "labels.<key>" copies one requested label
   * (the empty string when the request lacks it), "labels" takes the requested map whole,
   * anything else is an invalid argument. After a "labels" path the stored labels ARE the
   * caller's map (`aliased`), so a later "labels.<key>" write lands in the request as well.
   */
  function ApplyFieldpaths(labels: map<string, string>, requested: map<string, string>, aliased: bool, paths: seq<string>)
    : Result<map<string, string>>
    decreases |paths|
  {
    if paths == [] then Ok(labels)
    else if HasPrefix(paths[0], "labels.") then
      var key := paths[0][7..];
      var labels' := labels[key := Lookup(requested, key)];
      ApplyFieldpaths(labels', if aliased then labels' else requested, aliased, paths[1..])
    else if paths[0] == "labels" then ApplyFieldpaths(requested, requested, true, paths[1..])
    else Err(InvalidArgument)
  }

  /** The fieldpaths fail exactly when one of them is not a label path, and then with InvalidArgument. */
  lemma {:induction false} FieldpathsError(labels: map<string, string>, requested: map<string, string>, aliased: bool, paths: seq<string>)
    ensures ApplyFieldpaths(labels, requested, aliased, paths).Err? <==> exists i :: 0 <= i < |paths| && !IsLabelPath(paths[i])
    ensures ApplyFieldpaths(labels, requested, aliased, paths).Err? ==> ApplyFieldpaths(labels, requested, aliased, paths).error == InvalidArgument
    decreases |paths|
  {
    if paths != [] {
      if HasPrefix(paths[0], "labels.") {
        var key := paths[0][7..];
        var labels' := labels[key := Lookup(requested, key)];
        FieldpathsError(labels', if aliased then labels' else requested, aliased, paths[1..]);
        AnyInTail(paths);
      } else if paths[0] == "labels" {
        FieldpathsError(requested, requested, true, paths[1..]);
        AnyInTail(paths);
      }
    }
  }

  lemma AnyInTail(paths: seq<string>)
    requires paths != [] && IsLabelPath(paths[0])
    ensures (exists i :: 0 <= i < |paths| && !IsLabelPath(paths[i])) <==>
            (exists i :: 0 <= i < |paths[1..]| && !IsLabelPath(paths[1..][i]))
  {
    if i :| 0 <= i < |paths| && !IsLabelPath(paths[i]) {
      assert paths[1..][i - 1] == paths[i];
    }
    if i :| 0 <= i < |paths[1..]| && !IsLabelPath(paths[1..][i]) {
      assert paths[i + 1] == paths[1..][i];
    }
  }

  /** The label keys a list of "labels.<key>" paths names. */
  function PathKeys(paths: seq<string>): set<string>
    requires forall i :: 0 <= i < |paths| ==> HasPrefix(paths[i], "labels.")
  {
    set i | 0 <= i < |paths| && HasPrefix(paths[i], "labels.") :: paths[i][7..]
  }

  /**
   * Selective update: with only "labels.<key>" paths, exactly the named keys take the requested
   * values (empty when absent from the request) and every other stored label is kept.
   */
  lemma {:induction false} FieldpathsSelective(labels: map<string, string>, requested: map<string, string>, paths: seq<string>)
    requires forall i :: 0 <= i < |paths| ==> HasPrefix(paths[i], "labels.")
    ensures var r := ApplyFieldpaths(labels, requested, false, paths);
            r.Ok? &&
            r.value.Keys == labels.Keys + PathKeys(paths) &&
            (forall k :: k in PathKeys(paths) ==> r.value[k] == Lookup(requested, k)) &&
            (forall k :: k in labels && k !in PathKeys(paths) ==> r.value[k] == labels[k])
    decreases |paths|
  {
    if paths != [] {
      var key := paths[0][7..];
      var labels' := labels[key := Lookup(requested, key)];
      FieldpathsSelective(labels', requested, paths[1..]);
      PathKeysCons(paths);
    } else {
      assert PathKeys(paths) == {};
    }
  }

  lemma PathKeysCons(paths: seq<string>)
    requires paths != [] && forall i :: 0 <= i < |paths| ==> HasPrefix(paths[i], "labels.")
    ensures PathKeys(paths) == {paths[0][7..]} + PathKeys(paths[1..])
  {
    var key := paths[0][7..];
    assert PathKeys(paths) == {key} + PathKeys(paths[1..]) by {
        forall k | k in PathKeys(paths) ensures k in {key} + PathKeys(paths[1..]) {
          var i :| 0 <= i < |paths| && paths[i][7..] == k;
          if i > 0 { assert paths[1..][i - 1] == paths[i]; }
        }
        forall k | k in PathKeys(paths[1..]) ensures k in PathKeys(paths) {
          var i :| 0 <= i < |paths[1..]| && paths[1..][i][7..] == k;
          assert paths[i + 1] == paths[1..][i];
        }
      }
  }

  /**
   * Once the stored labels alias the request, "labels.<key>" paths only add the named keys
   * that are missing, with the empty string, and keep every present label: the write reads
   * back the value it overwrites.
   */
  lemma {:induction false} FieldpathsAliased(labels: map<string, string>, paths: seq<string>)
    requires forall i :: 0 <= i < |paths| ==> HasPrefix(paths[i], "labels.")
    ensures var r := ApplyFieldpaths(labels, labels, true, paths);
            r.Ok? &&
            r.value.Keys == labels.Keys + PathKeys(paths) &&
            (forall k :: k in labels ==> r.value[k] == labels[k]) &&
            (forall k :: k in PathKeys(paths) && k !in labels ==> r.value[k] == "")
    decreases |paths|
  {
    if paths != [] {
      var key := paths[0][7..];
      var labels' := labels[key := Lookup(labels, key)];
      FieldpathsAliased(labels', paths[1..]);
      PathKeysCons(paths);
    } else {
      assert PathKeys(paths) == {};
    }
  }

  /**
   * The alias at work: after "labels", the write of a missing key reaches the request, so a
   * second "labels" path takes the request back with that key in it.
   */
  lemma AliasedRequestKeepsWrite()
    ensures ApplyFieldpaths(map["a" := "1"], map["a" := "1"], false, ["labels", "labels.k", "labels"])
      == Ok(map["a" := "1", "k" := ""])
  {
    var m := map["a" := "1"];
    var m' := m["k" := ""];
    assert HasPrefix("labels.k", "labels.") && "labels.k"[7..] == "k";
    assert !HasPrefix("labels", "labels.");
    assert ["labels", "labels.k", "labels"][1..] == ["labels.k", "labels"];
    assert ["labels.k", "labels"][1..] == ["labels"];
    assert ApplyFieldpaths(m, m, true, ["labels.k", "labels"]) == ApplyFieldpaths(m', m', true, ["labels"]);
  }

  // ------------------------------------------------------------------ filter adaptor

  /** strings.Join(parts, "."). */
  function JoinDot(parts: seq<string>): string
  {
    if parts == [] then "" else if |parts| == 1 then parts[0] else parts[0] + "." + JoinDot(parts[1..])
  }

  /**
   * adaptSnapshot: the value a filter sees for a fieldpath, and whether it is present. An
   * empty or unknown fieldpath, and an absent value, read as ("", false).
   */
  function Adapt(info: Info, fieldpath: seq<string>): (r: (string, bool))
    ensures fieldpath == [] ==> r == ("", false)
    ensures fieldpath != [] && fieldpath[0] !in {"kind", "name", "parent", "labels"} ==> r == ("", false)
    ensures fieldpath != [] && fieldpath[0] == "name" ==> r == (info.name, true)
    ensures fieldpath != [] && fieldpath[0] == "parent" ==> r == (info.parent, true)
    ensures !r.1 ==> r.0 == ""
  {
    if fieldpath == [] then ("", false)
    else if fieldpath[0] == "kind" then
      match info.kind
      case KindActive => ("active", true)
      case KindView => ("view", true)
      case KindCommitted => ("committed", true)
      case KindUnknown => ("", false)
    else if fieldpath[0] == "name" then (info.name, true)
    else if fieldpath[0] == "parent" then (info.parent, true)
    else if fieldpath[0] == "labels" then
      if |info.labels| == 0 then ("", false)
      else
        var key := JoinDot(fieldpath[1..]);
        if key in info.labels then (info.labels[key], true) else ("", false)
    else ("", false)
  }

  /**
   * The adaptor answers a label query with the stored value exactly when the key, rejoined
   * with dots from the remaining segments, is present; a record without labels answers no
   * label query.
   */
  lemma AdaptLabels(info: Info, parts: seq<string>)
    ensures var key := JoinDot(parts);
      Adapt(info, ["labels"] + parts) == (if key in info.labels then (info.labels[key], true) else ("", false))
  {
    assert (["labels"] + parts)[1..] == parts;
    if |info.labels| == 0 {
      assert JoinDot(parts) !in info.labels;
    }
  }

  /** "labels.a.b" reaches the label whose key is "a.b": segments after "labels" are one key. */
  lemma AdaptDottedLabel(info: Info, a: string, b: string)
    ensures Adapt(info, ["labels", a, b]) == Adapt(info, ["labels", a + "." + b])
  {
    AdaptLabels(info, [a, b]);
    AdaptLabels(info, [a + "." + b]);
    assert JoinDot([a, b]) == a + "." + JoinDot([b]);
  }

  /**
   * The kind reads as "active", "view" or "committed" for the three known kinds and is absent
   * otherwise; so it is present exactly for those kinds, and each has its own name.
   */
  lemma AdaptKind(info: Info, other: Info)
    ensures info.kind == KindActive ==> Adapt(info, ["kind"]) == ("active", true)
    ensures info.kind == KindView ==> Adapt(info, ["kind"]) == ("view", true)
    ensures info.kind == KindCommitted ==> Adapt(info, ["kind"]) == ("committed", true)
    ensures info.kind == KindUnknown ==> Adapt(info, ["kind"]) == ("", false)
    ensures Adapt(info, ["kind"]).1 <==> info.kind != KindUnknown
    ensures info.kind != KindUnknown && Adapt(info, ["kind"]) == Adapt(other, ["kind"]) ==> info.kind == other.kind
  {
  }

  // ------------------------------------------------------------------ the store

  class MetaStore {
    /** The "v1" bucket with its "snapshots" and "parents" buckets exists. */
    var initialized: bool
    /** The "snapshots" bucket: one record per snapshot key. */
    var snapshots: map<string, Record>
    /** The "parents" bucket: (parent id, child id) -> child key. */
    var links: map<(nat, nat), string>
    /** The NextSequence counter of the "snapshots" bucket. */
    var sequence: nat

    ghost predicate Valid()
      reads this
    {
      StoreInvariant(initialized, snapshots, links, sequence)
    }

    /** An empty database. */
    constructor ()
      ensures Valid() && !initialized
    {
      initialized := false;
      snapshots := map[];
      links := map[];
      sequence := 0;
    }

    /** parents: the decimal ids of `start` and of its ancestors, nearest first. */
    method Parents(start: string) returns (ids: seq<string>)
      requires Valid() && start in snapshots
      ensures ids == FormatChain(ParentChain(snapshots, start))
    {
      var cur := start;
      ids := [];
      while true
        invariant cur in snapshots
        invariant FormatChain(ParentChain(snapshots, start)) == ids + FormatChain(ParentChain(snapshots, cur))
        decreases snapshots[cur].id
      {
        var r := snapshots[cur];
        assert ParentOk(snapshots, cur);
        ids := ids + [Strconv.FormatUint(r.id)];
        if r.parent == "" {
          return;
        }
        // a missing parent would be reported as NotFound; the invariant rules it out
        cur := r.parent;
      }
    }

    /** GetInfo: id, Info and Usage of one snapshot. */
    method GetInfo(tx: Tx, key: string) returns (id: string, info: Info, usage: Usage, err: MaybeError)
      requires Valid()
      ensures tx == NoTx ==> err == Some(NoTransaction)
      ensures tx != NoTx && key !in snapshots ==> err == Some(NotFound)
      ensures err.None? <==> tx != NoTx && key in snapshots
      ensures err.None? ==> id == Strconv.FormatUint(snapshots[key].id) &&
                            info == InfoOf(key, snapshots[key]) && usage == snapshots[key].usage
    {
      id, info, usage := "", EmptyInfo, Usage(0, 0);
      if tx == NoTx {
        return id, info, usage, Some(NoTransaction);
      }
      if !initialized || key !in snapshots {
        return id, info, usage, Some(NotFound);
      }
      var r := snapshots[key];
      id, info, usage, err := Strconv.FormatUint(r.id), InfoOf(key, r), r.usage, None;
    }

    /** UpdateInfo: change the labels of a snapshot as the fieldpaths say, and stamp it. */
    method UpdateInfo(tx: Tx, info: Info, fieldpaths: seq<string>, now: int) returns (updated: Info, err: MaybeError)
      requires Valid()
      modifies this
      ensures Valid()
      ensures err == (
        if tx == NoTx then Some(NoTransaction)
        else if info.name !in old(snapshots) then Some(NotFound)
        else if |fieldpaths| > 0 && ApplyFieldpaths(old(snapshots)[info.name].labels, info.labels, false, fieldpaths).Err? then
          Some(InvalidArgument)
        else if tx == ReadOnly then Some(TxNotWritable)
        else None)
      ensures err.Some? ==> snapshots == old(snapshots)
      ensures err.None? ==>
        var r := old(snapshots)[info.name];
        var labels := if |fieldpaths| > 0 then ApplyFieldpaths(r.labels, info.labels, false, fieldpaths).value else info.labels;
        snapshots == old(snapshots)[info.name := r.(labels := labels, updated := now)] &&
        updated == Info(info.name, r.kind, r.parent, labels, r.created, now)
      ensures initialized == old(initialized) && links == old(links) && sequence == old(sequence)
    {
      updated := EmptyInfo;
      if tx == NoTx {
        return updated, Some(NoTransaction);
      }
      if !initialized || info.name !in snapshots {
        return updated, Some(NotFound);
      }
      var r := snapshots[info.name];
      var labels := r.labels;
      if |fieldpaths| > 0 {
        // `requested` is the caller's map as the loop sees it; once `aliased`, it is `labels`.
        var requested, aliased := info.labels, false;
        var i := 0;
        while i < |fieldpaths|
          invariant 0 <= i <= |fieldpaths|
          invariant ApplyFieldpaths(r.labels, info.labels, false, fieldpaths)
            == ApplyFieldpaths(labels, requested, aliased, fieldpaths[i..])
        {
          assert fieldpaths[i..][1..] == fieldpaths[i + 1..];
          var path := fieldpaths[i];
          if HasPrefix(path, "labels.") {
            var key := path[7..];
            labels := labels[key := Lookup(requested, key)];
            if aliased {
              requested := labels;
            }
          } else if path == "labels" {
            labels, aliased := requested, true;
          } else {
            return updated, Some(InvalidArgument);
          }
          i := i + 1;
        }
        assert fieldpaths[i..] == [];
      } else {
        labels := info.labels;
      }
      if tx == ReadOnly {
        return updated, Some(TxNotWritable);
      }
      UpdateKeepsInvariant(initialized, snapshots, links, sequence, info.name, labels, now);
      snapshots := snapshots[info.name := r.(labels := labels, updated := now)];
      updated := Info(info.name, r.kind, r.parent, labels, r.created, now);
      err := None;
    }

    /** GetSnapshot: kind, id and parent chain of an active or view snapshot. */
    method GetSnapshot(tx: Tx, key: string) returns (s: Snapshot, err: MaybeError)
      requires Valid()
      ensures err == (
        if tx == NoTx then Some(NoTransaction)
        else if key !in snapshots then Some(NotFound)
        else if snapshots[key].kind != KindActive && snapshots[key].kind != KindView then Some(FailedPrecondition)
        else None)
      ensures err.None? ==>
        var r := snapshots[key];
        (r.parent != "" ==> r.parent in snapshots) &&
        s == Snapshot(r.kind, Strconv.FormatUint(r.id),
                      if r.parent == "" then [] else FormatChain(ParentChain(snapshots, r.parent)))
    {
      s := Snapshot(KindUnknown, "", []);
      if tx == NoTx {
        return s, Some(NoTransaction);
      }
      if !initialized || key !in snapshots {
        return s, Some(NotFound);
      }
      var r := snapshots[key];
      if r.kind != KindActive && r.kind != KindView {
        return s, Some(FailedPrecondition);
      }
      var parentIDs := [];
      assert ParentOk(snapshots, key);
      if r.parent != "" {
        parentIDs := Parents(r.parent);
      }
      s, err := Snapshot(r.kind, Strconv.FormatUint(r.id), parentIDs), None;
    }

    /** CreateSnapshot: a new active or view snapshot on top of a committed parent (or none). */
    method CreateSnapshot(tx: Tx, kind: Kind, key: string, parent: string,
                          opts: seq<Info -> Applied<Info>>, now: int) returns (s: Snapshot, err: MaybeError)
      requires Valid()
      modifies this
      ensures Valid()
      ensures err == (
        if kind != KindActive && kind != KindView then Some(InvalidArgument)
        else if ApplyAll(opts, EmptyInfo).err.Some? then ApplyAll(opts, EmptyInfo).err
        else if tx == NoTx then Some(NoTransaction)
        else if tx == ReadOnly then Some(TxNotWritable)
        else if parent != "" && parent !in old(snapshots) then Some(NotFound)
        else if parent != "" && old(snapshots)[parent].kind != KindCommitted then Some(InvalidArgument)
        else if key == "" then Some(BucketNameRequired)
        else if key in old(snapshots) then Some(AlreadyExists)
        else None)
      ensures err.Some? ==>
        initialized == old(initialized) && snapshots == old(snapshots) && links == old(links) && sequence == old(sequence)
      ensures err.None? ==>
        var id := old(sequence) + 1;
        initialized && sequence == id &&
        snapshots == old(snapshots)[key := Record(id, kind, parent, ApplyAll(opts, EmptyInfo).state.labels, now, now, Usage(0, 0))] &&
        links == (if parent == "" then old(links) else old(links)[(old(snapshots)[parent].id, id) := key]) &&
        s == Snapshot(kind, Strconv.FormatUint(id),
                      if parent == "" then [] else FormatChain(ParentChain(old(snapshots), parent)))
    {
      s := Snapshot(KindUnknown, "", []);
      if kind != KindActive && kind != KindView {
        return s, Some(InvalidArgument);
      }
      var base, optErr := RunOpts(opts, EmptyInfo);
      if optErr.Some? {
        return s, optErr;
      }
      if tx == NoTx {
        return s, Some(NoTransaction);
      }
      if tx == ReadOnly {
        return s, Some(TxNotWritable);
      }
      if parent != "" {
        if parent !in snapshots {
          return s, Some(NotFound);
        }
        if snapshots[parent].kind != KindCommitted {
          return s, Some(InvalidArgument);
        }
      }
      if key == "" {
        return s, Some(BucketNameRequired);
      }
      if key in snapshots {
        return s, Some(AlreadyExists);
      }
      var parentIDs := [];
      if parent != "" {
        parentIDs := Parents(parent);
      }
      var id := sequence + 1;
      var oldSnaps := snapshots;
      CreateKeepsInvariant(initialized, snapshots, links, sequence, key, kind, parent, base.labels, now);
      initialized := true;
      sequence := id;
      snapshots := snapshots[key := Record(id, kind, parent, base.labels, now, now, Usage(0, 0))];
      if parent != "" {
        links := links[(oldSnaps[parent].id, id) := key];
      }
      s, err := Snapshot(kind, Strconv.FormatUint(id), parentIDs), None;
    }

    /** Remove: delete a snapshot that no other snapshot has as parent. */
    method Remove(tx: Tx, key: string) returns (id: string, kind: Kind, err: MaybeError)
      requires Valid()
      modifies this
      ensures Valid()
      ensures err == (
        if tx == NoTx then Some(NoTransaction)
        else if key !in old(snapshots) then Some(NotFound)
        else if HasChildNamed(old(snapshots), key) then Some(FailedPrecondition)
        else if tx == ReadOnly then Some(TxNotWritable)
        else None)
      ensures err.Some? ==> snapshots == old(snapshots) && links == old(links)
      ensures err.None? ==>
        var r := old(snapshots)[key];
        id == Strconv.FormatUint(r.id) && kind == r.kind &&
        snapshots == old(snapshots) - {key} &&
        links == (if r.parent == "" then old(links) else old(links) - {LinkOf(old(snapshots), key)})
      ensures initialized == old(initialized) && sequence == old(sequence)
    {
      id, kind := "", KindUnknown;
      if tx == NoTx {
        return id, kind, Some(NoTransaction);
      }
      if !initialized || key !in snapshots {
        return id, kind, Some(NotFound);
      }
      var r := snapshots[key];
      // Cursor.Seek(parentPrefixKey(id)) finds a link with this parent exactly when one exists
      // (BoltKeys.SeekFindsChild); under the invariant that is "some snapshot has this parent".
      ChildLinkIffChild(initialized, snapshots, links, sequence, key);
      if HasChildLink(links, r.id) {
        return id, kind, Some(FailedPrecondition);
      }
      if tx == ReadOnly {
        return id, kind, Some(TxNotWritable);
      }
      RemoveKeepsInvariant(initialized, snapshots, links, sequence, key);
      if r.parent != "" {
        links := links - {(snapshots[r.parent].id, r.id)};
      }
      snapshots := snapshots - {key};
      id, kind, err := Strconv.FormatUint(r.id), r.kind, None;
    }

    /** CommitActive: turn active snapshot `key` into committed snapshot `name`, keeping its id. */
    method CommitActive(tx: Tx, key: string, name: string, usage: Usage,
                        opts: seq<Info -> Applied<Info>>, now: int) returns (id: string, err: MaybeError)
      requires Valid()
      modifies this
      ensures Valid()
      ensures err == (
        if ApplyAll(opts, EmptyInfo).err.Some? then ApplyAll(opts, EmptyInfo).err
        else if tx == NoTx then Some(NoTransaction)
        else if !old(initialized) then Some(NotFound)
        else if tx == ReadOnly then Some(TxNotWritable)
        else if name == "" then Some(BucketNameRequired)
        else if name in old(snapshots) then Some(AlreadyExists)
        else if key !in old(snapshots) then Some(NotFound)
        else if old(snapshots)[key].kind != KindActive then Some(FailedPrecondition)
        else None)
      ensures err.Some? ==> snapshots == old(snapshots) && links == old(links)
      ensures err.None? ==>
        var r := old(snapshots)[key];
        id == Strconv.FormatUint(r.id) &&
        snapshots == (old(snapshots) - {key})[name := Record(r.id, KindCommitted, r.parent,
                                                           ApplyAll(opts, EmptyInfo).state.labels, now, now, usage)] &&
        links == (if r.parent == "" then old(links) else old(links)[LinkOf(old(snapshots), key) := name])
      ensures initialized == old(initialized) && sequence == old(sequence)
    {
      id := "";
      var base, optErr := RunOpts(opts, EmptyInfo);
      if optErr.Some? {
        return id, optErr;
      }
      if tx == NoTx {
        return id, Some(NoTransaction);
      }
      if !initialized {
        return id, Some(NotFound);
      }
      if tx == ReadOnly {
        return id, Some(TxNotWritable);
      }
      if name == "" {
        return id, Some(BucketNameRequired);
      }
      if name in snapshots {
        return id, Some(AlreadyExists);
      }
      if key !in snapshots {
        return id, Some(NotFound);
      }
      var r := snapshots[key];
      if r.kind != KindActive {
        return id, Some(FailedPrecondition);
      }
      var oldSnaps := snapshots;
      CommitKeepsInvariant(initialized, snapshots, links, sequence, key, name, base.labels, now, usage);
      snapshots := (snapshots - {key})[name := Record(r.id, KindCommitted, r.parent, base.labels, now, now, usage)];
      if r.parent != "" {
        links := links[(oldSnaps[r.parent].id, r.id) := name];
      }
      id, err := Strconv.FormatUint(r.id), None;
    }

    /** IDMap: every snapshot's decimal id mapped to its key. */
    method IDMap(tx: Tx) returns (m: map<string, string>, err: MaybeError)
      requires Valid()
      ensures err == (if tx == NoTx then Some(NoTransaction) else if !initialized then Some(NotFound) else None)
      ensures err.None? ==>
        m.Keys == set k | k in snapshots :: Strconv.FormatUint(snapshots[k].id)
      ensures err.None? ==> forall k :: k in snapshots ==> m[Strconv.FormatUint(snapshots[k].id)] == k
      ensures err.None? ==> |m| == |snapshots|
    {
      m := map[];
      if tx == NoTx {
        return m, Some(NoTransaction);
      }
      if !initialized {
        return m, Some(NotFound);
      }
      var snaps := snapshots;
      var todo := snaps.Keys;
      while todo != {}
        invariant IdMapInv(snaps, todo, m)
        decreases todo
      {
        var k :| k in todo;
        IdMapStep(snaps, todo, m, k);
        m := m[Strconv.FormatUint(snaps[k].id) := k];
        todo := todo - {k};
      }
      err := None;
      IdMapDone(snaps, m);
    }
  }

  /**
   * The state of MetaStore.IDMap: m maps the decimal id of every snapshot already visited
   * (those not in todo) to its key, and nothing else.
   */
  ghost predicate IdMapInv(snaps: map<string, Record>, todo: set<string>, m: map<string, string>)
  {
    && (forall k1, k2 :: k1 in snaps && k2 in snaps && k1 != k2 ==> snaps[k1].id != snaps[k2].id)
    && todo <= snaps.Keys
    && (forall s :: s in m ==> m[s] in snaps && m[s] !in todo && Strconv.FormatUint(snaps[m[s]].id) == s)
    && (forall k :: k in snaps && k !in todo ==> Strconv.FormatUint(snaps[k].id) in m && m[Strconv.FormatUint(snaps[k].id)] == k)
  }

  lemma IdMapStep(snaps: map<string, Record>, todo: set<string>, m: map<string, string>, k: string)
    requires IdMapInv(snaps, todo, m) && k in todo
    ensures IdMapInv(snaps, todo - {k}, m[Strconv.FormatUint(snaps[k].id) := k])
  {
    var s := Strconv.FormatUint(snaps[k].id);
    if s in m {
      Strconv.FormatUintInjective(snaps[m[s]].id, snaps[k].id);
    }
    var m' := m[s := k];
    forall x | x in m'
      ensures m'[x] in snaps && m'[x] !in todo - {k} && Strconv.FormatUint(snaps[m'[x]].id) == x
    {
      if x != s {
        assert m'[x] == m[x];
      }
    }
  }

  lemma IdMapDone(snaps: map<string, Record>, m: map<string, string>)
    requires IdMapInv(snaps, {}, m)
    ensures m.Keys == set k | k in snaps :: Strconv.FormatUint(snaps[k].id)
    ensures forall k :: k in snaps ==> m[Strconv.FormatUint(snaps[k].id)] == k
    ensures |m| == |snaps|
  {
    var ids := set k | k in snaps :: Strconv.FormatUint(snaps[k].id);
    forall s | s in m ensures s in ids {
      assert m[s] in snaps;
    }
    assert m.Keys == ids;
    IdCount(snaps, m);
  }

  /** A key set mapped injectively has as many images as elements. */
  lemma IdCount(snaps: map<string, Record>, m: map<string, string>)
    requires forall k :: k in snaps ==> Strconv.FormatUint(snaps[k].id) in m && m[Strconv.FormatUint(snaps[k].id)] == k
    requires m.Keys == set k | k in snaps :: Strconv.FormatUint(snaps[k].id)
    ensures |m| == |snaps|
  {
    var vals := set s | s in m :: m[s];
    assert vals == snaps.Keys;
    InjectiveCard(m);
  }

  /** A map whose values are pairwise distinct has as many values as keys. */
  lemma {:induction false} InjectiveCard(m: map<string, string>)
    requires forall a, b :: a in m && b in m && a != b ==> m[a] != m[b]
    ensures |set s | s in m :: m[s]| == |m|
    decreases |m|
  {
    if m != map[] {
      var a :| a in m;
      var m' := m - {a};
      InjectiveCard(m');
      ValuesWithout(m, a);
      assert |m| == |m'| + 1;
    }
  }

  /** Removing one key of an injective map removes exactly its value. */
  lemma ValuesWithout(m: map<string, string>, a: string)
    requires forall a, b :: a in m && b in m && a != b ==> m[a] != m[b]
    requires a in m
    ensures var m' := m - {a};
      (set s | s in m :: m[s]) == (set s | s in m' :: m'[s]) + {m[a]} &&
      m[a] !in (set s | s in m' :: m'[s])
  {
    var m' := m - {a};
    var vs := set s | s in m :: m[s];
    var vs' := set s | s in m' :: m'[s];
    forall v | v in vs ensures v in vs' + {m[a]} {
      var s :| s in m && m[s] == v;
      if s != a { assert m'[s] == v; }
    }
  }
}
