/** A training request and its status machine (`Training::updateStatus`). */
module TrainingStatus {
  import opened Php
  import opened Members

  /** The two lifecycle timestamps, in seconds. */
  datatype Stamps = Stamps(startedAt: Option<int>, finishedAt: Option<int>)

  /** The timestamp rule a status change fires; the conditions of the rules are
      pairwise exclusive, so at most one fires. */
  datatype Rule = BackToQueue | Begin | Reopen | Complete | NoRule

  function FiredRule(oldStatus: int, newStatus: int): Rule {
    if (newStatus == 0 || newStatus == -1) && newStatus < oldStatus then BackToQueue
    else if newStatus == 1 && newStatus > oldStatus then Begin
    else if newStatus == 1 && newStatus < oldStatus then Reopen
    else if newStatus == 3 && newStatus > oldStatus then Complete
    else NoRule
  }

  /** The timestamps after changing the status from `oldStatus` to `newStatus` at time `now`. */
  function Transition(oldStatus: int, newStatus: int, s: Stamps, now: int): Stamps {
    match FiredRule(oldStatus, newStatus)
    case BackToQueue => Stamps(None, None)
    case Begin => s.(startedAt := Some(now))
    case Reopen => s.(finishedAt := None)
    case Complete => if s.startedAt.None? then Stamps(Some(now), Some(now)) else s.(finishedAt := Some(now))
    case NoRule => s
  }

  /** Sent back to the queue (0) or to the waiting state (-1) from a later status. */
  lemma BackToQueueClearsStamps(oldStatus: int, newStatus: int, s: Stamps, now: int)
    requires newStatus == 0 || newStatus == -1
    requires newStatus < oldStatus
    ensures Transition(oldStatus, newStatus, s, now) == Stamps(None, None)
  {
  }

  lemma BeginSetsStart(oldStatus: int, s: Stamps, now: int)
    requires oldStatus < 1
    ensures Transition(oldStatus, 1, s, now) == Stamps(Some(now), s.finishedAt)
  {
  }

  lemma ReopenClearsFinish(oldStatus: int, s: Stamps, now: int)
    requires oldStatus > 1
    ensures Transition(oldStatus, 1, s, now) == Stamps(s.startedAt, None)
  {
  }

  lemma CompleteUnstartedSetsBoth(oldStatus: int, s: Stamps, now: int)
    requires oldStatus < 3 && s.startedAt.None?
    ensures Transition(oldStatus, 3, s, now) == Stamps(Some(now), Some(now))
  {
  }

  lemma CompleteStartedSetsFinish(oldStatus: int, s: Stamps, now: int)
    requires oldStatus < 3 && s.startedAt.Some?
    ensures Transition(oldStatus, 3, s, now) == Stamps(s.startedAt, Some(now))
  {
  }

  /** Re-applying the stored status, or moving to a status no rule names
      (2, the closing codes -2 .. -4, ...), leaves both timestamps alone. */
  lemma UnruledStatusKeepsStamps(oldStatus: int, newStatus: int, s: Stamps, now: int)
    requires newStatus == oldStatus || newStatus !in {-1, 0, 1, 3}
    ensures Transition(oldStatus, newStatus, s, now) == s
  {
  }

  /** No transition produces a finish time without a start time. */
  lemma TransitionKeepsStartBeforeFinish(oldStatus: int, newStatus: int, s: Stamps, now: int)
    requires s.finishedAt.Some? ==> s.startedAt.Some?
    ensures var r := Transition(oldStatus, newStatus, s, now); r.finishedAt.Some? ==> r.startedAt.Some?
  {
  }

  /** A training. `kind` is the `type` column. */
  class Training {
    const id: nat
    const trainee: User
    const areaId: nat
    const kind: int
    const createdAt: Option<int>
    const pausedLength: int
    const ratings: seq<nat>
    var status: int
    var startedAt: Option<int>
    var finishedAt: Option<int>
    var closedReason: Option<string>

    constructor (id: nat, trainee: User, areaId: nat, kind: int, createdAt: Option<int>,
                 pausedLength: int, ratings: seq<nat>, status: int,
                 startedAt: Option<int>, finishedAt: Option<int>)
      ensures this.id == id && this.trainee == trainee && this.areaId == areaId
      ensures this.kind == kind && this.createdAt == createdAt
      ensures this.pausedLength == pausedLength && this.ratings == ratings
      ensures this.status == status && this.startedAt == startedAt && this.finishedAt == finishedAt
      ensures this.closedReason.None?
    {
      this.id := id;
      this.trainee := trainee;
      this.areaId := areaId;
      this.kind := kind;
      this.createdAt := createdAt;
      this.pausedLength := pausedLength;
      this.ratings := ratings;
      this.status := status;
      this.startedAt := startedAt;
      this.finishedAt := finishedAt;
      this.closedReason := None;
    }

    function Timestamps(): Stamps
      reads this
    {
      Stamps(startedAt, finishedAt)
    }

    /** Sets the status to `newStatus` at time `now`, comparing against `persistedStatus`,
        the status of the stored row, which differs from `status` when this copy is stale.
        The test for a missing start time reads this copy. */
    method UpdateStatus(newStatus: int, persistedStatus: int, now: int)
      modifies this
      ensures status == newStatus
      ensures Timestamps() == Transition(persistedStatus, newStatus, old(Timestamps()), now)
      ensures closedReason == old(closedReason)
    {
      if (newStatus == 0 || newStatus == -1) && newStatus < persistedStatus {
        startedAt, finishedAt := None, None;
      }
      if newStatus == 1 {
        if newStatus > persistedStatus {
          startedAt := Some(now);
        } else if newStatus < persistedStatus {
          finishedAt := None;
        }
      }
      if newStatus == 3 && newStatus > persistedStatus {
        if startedAt.None? {
          startedAt, finishedAt := Some(now), Some(now);
        } else {
          finishedAt := Some(now);
        }
      }
      status := newStatus;
    }
  }
}
