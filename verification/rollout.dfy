/** A model deployment's row, and the rollout checker that reads its status. */
module Rollout {

  datatype Phase = Pending | RollingOut | Active | Failed | Paused | OtherPhase(text: string)

  datatype DeploymentStatus = DeploymentStatus(desired: int, ready: int, failed: int, phase: Phase)

  /** A status column; from a text that does not decode, the decoder still keeps what it read so far. */
  datatype StatusJson = Parsed(status: DeploymentStatus) | Malformed(partial: DeploymentStatus)

  datatype RolloutJson = RolloutParsed(maxUnavailable: int) | RolloutMalformed

  datatype TargetJson = TargetParsed(gateways: seq<string>, labels: map<string, string>) | TargetMalformed

  datatype DeploymentRow = DeploymentRow(
    modelName: string, modelVersion: string, target: TargetJson, runtime: string, rollout: RolloutJson,
    status: StatusJson)

  /** The status as read by code that ignores the decoder's error. */
  function Decoded(j: StatusJson): DeploymentStatus {
    match j
    case Parsed(st) => st
    case Malformed(partial) => partial
  }

  function CanProceed(row: DeploymentRow): (bool, int) {
    if row.status.Malformed? || row.rollout.RolloutMalformed? then (false, 0)
    else
      var st := row.status.status;
      var limit := if row.rollout.maxUnavailable <= 0 then 1 else row.rollout.maxUnavailable;
      var unavailable := if st.desired - st.ready < 0 then 0 else st.desired - st.ready;
      if unavailable >= limit then (false, 0)
      else
        var remaining := if st.desired - st.ready - st.failed < 0 then 0 else st.desired - st.ready - st.failed;
        var batch := if limit - unavailable > remaining then remaining else limit - unavailable;
        (batch > 0, batch)
  }

  predicate IsComplete(row: DeploymentRow) {
    row.status.Parsed? && row.status.status.ready + row.status.status.failed >= row.status.status.desired
  }

  function SuggestPhase(row: DeploymentRow): Phase {
    match row.status
    case Malformed(_) => Failed
    case Parsed(st) =>
      if st.ready >= st.desired then Active
      else if st.failed > 0 && st.ready + st.failed >= st.desired then Failed
      else RollingOut
  }

  /** At most this many nodes may be down at once; a missing or non-positive setting means one. */
  function UnavailableLimit(rollout: RolloutJson): int {
    if rollout.RolloutMalformed? || rollout.maxUnavailable <= 0 then 1 else rollout.maxUnavailable
  }

  /**
   `n` more nodes may start: with them no more than the limit are down, and no more than desired are accounted
   for.
   */
  predicate BatchFits(row: DeploymentRow, n: int) {
    && row.status.Parsed? && row.rollout.RolloutParsed?
    && var st := row.status.status;
       && n <= UnavailableLimit(row.rollout)
       && (st.desired - st.ready) + n <= UnavailableLimit(row.rollout)
       && st.ready + st.failed + n <= st.desired
  }

  /** The checker allows exactly the batches that fit, and names the largest. */
  lemma CanProceedExactly(row: DeploymentRow, n: int)
    requires n >= 1
    ensures var (ok, batch) := CanProceed(row);
            && (BatchFits(row, n) <==> ok && n <= batch)
            && (ok ==> BatchFits(row, batch))
            && (!ok ==> batch == 0)
  {
  }

  /** A status that does not decode counts as failed, and nothing more is started for it. */
  lemma MalformedRefuses(row: DeploymentRow)
    requires row.status.Malformed?
    ensures SuggestPhase(row) == Failed && !IsComplete(row) && CanProceed(row) == (false, 0)
  {
  }

  /** A deployment that is complete starts no further node. */
  lemma CompleteRefuses(row: DeploymentRow)
    requires IsComplete(row)
    ensures CanProceed(row) == (false, 0)
  {
  }

  /** What the checker makes of a stored status is what the status says of itself. */
  ghost predicate Agrees(row: DeploymentRow) {
    && row.status.Parsed?
    && SuggestPhase(row) == row.status.status.phase
    && (IsComplete(row) <==> row.status.status.phase != RollingOut)
  }
}
