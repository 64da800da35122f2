/**
 * The in-memory status tracker of the Docker remote (core/remotes/docker/status.go):
 * a map from ref to the latest status of a content transfer. The mutex and the per-ref
 * locker only serialise access and are not modelled.
 */
module DockerStatus {
  import opened Errdefs

  /** content.Status plus the Docker-specific fields; timestamps are opaque numbers. */
  datatype Status = Status(
    ref: string,
    offset: int,
    total: int,
    expected: string,
    startedAt: int,
    updatedAt: int,
    committed: bool,
    errClosed: MaybeError,
    uploadUUID: string,
    mountedFrom: string,
    alreadyExists: bool)

  /** Go's zero Status{}. */
  const ZeroStatus := Status("", 0, 0, "", 0, 0, false, None, "", "", false)

  /** What GetStatus reports for ref: the stored status, or NotFound with the zero status. */
  function StatusOf(statuses: map<string, Status>, ref: string): (r: (Status, MaybeError))
    ensures r.1.None? <==> ref in statuses
    ensures r.1.Some? ==> r == (ZeroStatus, Some(NotFound))
    ensures r.1.None? ==> r.0 == statuses[ref]
  {
    if ref in statuses then (statuses[ref], None) else (ZeroStatus, Some(NotFound))
  }

  class MemoryStatusTracker {
    var statuses: map<string, Status>

    /** NewInMemoryTracker: an empty tracker. */
    constructor ()
      ensures statuses == map[]
    {
      statuses := map[];
    }

    method GetStatus(ref: string) returns (s: Status, err: MaybeError)
      ensures (s, err) == StatusOf(statuses, ref)
    {
      if ref in statuses {
        return statuses[ref], None;
      }
      return ZeroStatus, Some(NotFound);
    }

    method SetStatus(ref: string, status: Status)
      modifies this
      ensures statuses == old(statuses)[ref := status]
    {
      statuses := statuses[ref := status];
    }
  }

  /** A new tracker knows no ref. */
  lemma EmptyTrackerNotFound(ref: string)
    ensures StatusOf(map[], ref) == (ZeroStatus, Some(NotFound))
  {
  }

  /** SetStatus(r, s) then GetStatus(r) returns s, and leaves every other ref's answer unchanged. */
  lemma SetThenGet(statuses: map<string, Status>, ref: string, status: Status, other: string)
    requires other != ref
    ensures StatusOf(statuses[ref := status], ref) == (status, None)
    ensures StatusOf(statuses[ref := status], other) == StatusOf(statuses, other)
  {
  }

  /** A later SetStatus of the same ref overwrites the earlier one. */
  lemma SetOverwrites(statuses: map<string, Status>, ref: string, s1: Status, s2: Status)
    ensures statuses[ref := s1][ref := s2] == statuses[ref := s2]
  {
  }
}
