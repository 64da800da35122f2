/**
 * The "starting" guard of the CRI StartContainer call (internal/cri/server/container_start.go):
 * status-update functions that mark a container as being started, undo that mark, and
 * record a failed start. Each maps the old status to a new status or an error.
 */
module CriContainerStart {
  import opened Errdefs

  /** runtime.ContainerState. */
  datatype ContainerState = Created | Running | Exited | Unknown

  /** containerstore.Status; times are opaque numbers. */
  datatype Status = Status(
    pid: nat,
    createdAt: int,
    startedAt: int,
    finishedAt: int,
    exitCode: int,
    reason: string,
    message: string,
    starting: bool,
    removing: bool,
    unknown: bool)

  function StateName(s: ContainerState): string
  {
    match s
    case Created => "CONTAINER_CREATED"
    case Running => "CONTAINER_RUNNING"
    case Exited => "CONTAINER_EXITED"
    case Unknown => "CONTAINER_UNKNOWN"
  }

  /**
   * setContainerStarting's update function. `state` is Status.State(), which derives the
   * state from the status fields. Only a created container that is neither being removed
   * nor already starting may start; then exactly the Starting flag is set.
   */
  function SetContainerStarting(state: Status -> ContainerState, status: Status): (r: Result<Status>)
    ensures r.Ok? <==> state(status) == Created && !status.removing && !status.starting
    ensures r.Ok? ==> r.value == status.(starting := true)
  {
    if state(status) != Created then Err(Other("container is in " + StateName(state(status)) + " state"))
    else if status.removing then Err(Other("container is in removing state, can't be started"))
    else if status.starting then Err(Other("container is already in starting state"))
    else Ok(status.(starting := true))
  }

  /** resetContainerStarting's update function: clear the Starting flag; it never fails. */
  function ResetContainerStarting(status: Status): (r: Result<Status>)
    ensures r.Ok? && r.value.starting == false
    ensures r.value.(starting := status.starting) == status
  {
    Ok(status.(starting := false))
  }

  /**
   * The update applied when the start fails: the container is marked as exited with the
   * start-error exit code and reason, pid 0, the finish time and the error message.
   */
  function StartFailed(status: Status, finishedAt: int, errorStartExitCode: int, errorStartReason: string, message: string): (r: Result<Status>)
    ensures r.Ok? && r.value.pid == 0 && r.value.exitCode == errorStartExitCode
    ensures r.value.reason == errorStartReason && r.value.message == message && r.value.finishedAt == finishedAt
    ensures r.value.(pid := status.pid, finishedAt := status.finishedAt, exitCode := status.exitCode,
                     reason := status.reason, message := status.message) == status
  {
    Ok(status.(pid := 0, finishedAt := finishedAt, exitCode := errorStartExitCode, reason := errorStartReason, message := message))
  }

  /** Once marked as starting, a container cannot be marked again: a second start is refused. */
  lemma StartingExcludesSecondStart(state: Status -> ContainerState, status: Status)
    requires SetContainerStarting(state, status).Ok?
    ensures SetContainerStarting(state, SetContainerStarting(state, status).value).Err?
  {
  }

  /** Resetting after a successful mark gives back the original status. */
  lemma ResetUndoesSet(state: Status -> ContainerState, status: Status)
    requires SetContainerStarting(state, status).Ok?
    ensures ResetContainerStarting(SetContainerStarting(state, status).value) == Ok(status)
  {
  }

  /** After the failure bookkeeping and the reset, the container is no longer starting, so removal is not blocked by it. */
  lemma FailedStartClearsStarting(state: Status -> ContainerState, status: Status, finishedAt: int, code: int, reason: string, message: string)
    requires SetContainerStarting(state, status).Ok?
    ensures var failed := StartFailed(SetContainerStarting(state, status).value, finishedAt, code, reason, message).value;
      !ResetContainerStarting(failed).value.starting &&
      ResetContainerStarting(failed).value.removing == status.removing
  {
  }
}
