/**
 * The push progress set of `ctr images push` (cmd/ctr/commands/images/push.go): refs are
 * recorded once, in the order they were first added, and their progress is read back from
 * the status tracker. The mutex only serialises access and is not modelled.
 */
module PushJobs {
  import opened Errdefs
  import DockerStatus

  /** content.StatusInfo's Status values. */
  datatype TransferState = Waiting | Uploading | Committing | Done

  datatype StatusInfo = StatusInfo(ref: string, status: TransferState, offset: int, total: int, startedAt: int, updatedAt: int)

  /** The first occurrence of each element, in order. */
  function FirstOccurrences(s: seq<string>): (d: seq<string>)
    ensures forall x :: x in d <==> x in s
    ensures forall i, j :: 0 <= i < j < |d| ==> d[i] != d[j]
  {
    if s == [] then []
    else
      var d := FirstOccurrences(s[..|s| - 1]);
      if s[|s| - 1] in d then d else d + [s[|s| - 1]]
  }

  /**
   * The StatusInfo reported for one ref: Waiting when the tracker has no status for it;
   * otherwise the transfer figures with Done or Committing once the offset reaches the
   * total (Committing while an upload UUID is still set) and Uploading before that.
   */
  function Classify(ref: string, tracked: (DockerStatus.Status, MaybeError)): (si: StatusInfo)
    ensures si.ref == ref
    ensures tracked.1.Some? ==> si == StatusInfo(ref, Waiting, 0, 0, 0, 0)
    ensures tracked.1.None? ==>
      si.offset == tracked.0.offset && si.total == tracked.0.total &&
      si.startedAt == tracked.0.startedAt && si.updatedAt == tracked.0.updatedAt
  {
    var (s, err) := tracked;
    if err.Some? then StatusInfo(ref, Waiting, 0, 0, 0, 0)
    else
      var state :=
        if s.offset >= s.total then (if s.uploadUUID == "" then Done else Committing)
        else Uploading;
      StatusInfo(ref, state, s.offset, s.total, s.startedAt, s.updatedAt)
  }

  /** The four outcomes of the classification, each with its exact condition. */
  lemma ClassifyStates(ref: string, statuses: map<string, DockerStatus.Status>)
    ensures var si := Classify(ref, DockerStatus.StatusOf(statuses, ref));
      (si.status == Waiting <==> ref !in statuses) &&
      (si.status == Done <==> ref in statuses && statuses[ref].offset >= statuses[ref].total && statuses[ref].uploadUUID == "") &&
      (si.status == Committing <==> ref in statuses && statuses[ref].offset >= statuses[ref].total && statuses[ref].uploadUUID != "") &&
      (si.status == Uploading <==> ref in statuses && statuses[ref].offset < statuses[ref].total)
  {
  }

  class PushJobsSet {
    var jobs: set<string>
    var ordered: seq<string>
    var tracker: DockerStatus.MemoryStatusTracker
    /** Every ref passed to Add, in call order. */
    ghost var added: seq<string>

    /** `ordered` lists each added ref once, in first-insertion order, and `jobs` holds the same refs. */
    ghost predicate Valid()
      reads this
    {
      ordered == FirstOccurrences(added) && (forall r :: r in jobs <==> r in ordered)
    }

    /** newPushJobs: no jobs yet. */
    constructor (tracker: DockerStatus.MemoryStatusTracker)
      ensures Valid() && jobs == {} && ordered == [] && added == [] && this.tracker == tracker
    {
      jobs := {};
      ordered := [];
      this.tracker := tracker;
      added := [];
    }

    /** add: a known ref changes nothing; a new one is appended to `ordered` and put in `jobs`. */
    method Add(ref: string)
      requires Valid()
      modifies this
      ensures Valid() && added == old(added) + [ref] && tracker == old(tracker)
      ensures ref in old(jobs) ==> jobs == old(jobs) && ordered == old(ordered)
      ensures ref !in old(jobs) ==> jobs == old(jobs) + {ref} && ordered == old(ordered) + [ref]
    {
      ghost var next := added + [ref];
      assert next[..|next| - 1] == added;
      assert FirstOccurrences(next) == if ref in ordered then ordered else ordered + [ref];
      added := next;
      if ref in jobs {
        return;
      }
      ordered := ordered + [ref];
      jobs := jobs + {ref};
    }

    /** status: one entry per job, in `ordered` order, classified from the tracker. */
    method Status() returns (statuses: seq<StatusInfo>)
      requires Valid()
      ensures |statuses| == |ordered|
      ensures forall i :: 0 <= i < |ordered| ==>
        statuses[i] == Classify(ordered[i], DockerStatus.StatusOf(tracker.statuses, ordered[i]))
    {
      statuses := [];
      var i := 0;
      while i < |ordered|
        invariant i <= |ordered|
        invariant |statuses| == i
        invariant forall k :: 0 <= k < i ==>
          statuses[k] == Classify(ordered[k], DockerStatus.StatusOf(tracker.statuses, ordered[k]))
      {
        var name := ordered[i];
        var status, err := tracker.GetStatus(name);
        statuses := statuses + [Classify(name, (status, err))];
        i := i + 1;
      }
    }
  }

  /** Adding a ref already added leaves the ordered job list as it was (add is idempotent). */
  lemma AddIdempotent(added: seq<string>, ref: string)
    requires ref in added
    ensures FirstOccurrences(added + [ref]) == FirstOccurrences(added)
  {
    var next := added + [ref];
    assert next[..|next| - 1] == added;
  }

  /** A ref's position in the job list is fixed by its first add: later adds only append. */
  lemma {:induction false} FirstOccurrencesPrefix(s: seq<string>, t: seq<string>)
    ensures |FirstOccurrences(s)| <= |FirstOccurrences(s + t)|
    ensures FirstOccurrences(s + t)[..|FirstOccurrences(s)|] == FirstOccurrences(s)
    decreases |t|
  {
    if t == [] {
      assert s + t == s;
    } else {
      var t' := t[..|t| - 1];
      FirstOccurrencesPrefix(s, t');
      assert (s + t)[..|s + t| - 1] == s + t';
    }
  }
}
