/** The member sweep (`update:members`): mentors outside the allowed subdivisions lose
    their mentor role, and open trainings of trainees outside them are closed. */
module MemberDetails {
  import opened Php
  import opened Members
  import opened TrainingStatus

  /** The status code of a training closed because its trainee left the subdivision. */
  const LeftSubdivision: int := -4
  /** The training type that the sweep never closes. */
  const ExcludedKind: int := 5
  const ClosedReason: string := "The student has left or is no longer part of our subdivision."
  const ClosedMessage: string := "Student has left the subdivision."

  /** A closure notification sent to a trainee. */
  datatype Notification = TrainingClosed(userId: nat, trainingId: nat, status: int, message: string)

  /** The allow-list: the comma-separated setting, each entry trimmed. */
  function AllowList(setting: string): (r: seq<string>)
    ensures |r| == |Explode(setting)| >= 1
    ensures forall k :: 0 <= k < |r| ==> Trimmed(r[k])
  {
    seq(|Explode(setting)|, k requires 0 <= k < |Explode(setting)| => Trim(Explode(setting)[k]))
  }

  /** Padding around an entry of the setting, at any position, does not keep a member out. */
  lemma AllowListIgnoresPadding(left: string, code: string, right: string, setting: string, k: nat)
    requires AllTrimmable(left) && AllTrimmable(right) && Trimmed(code)
    requires k < |Explode(setting)| && Explode(setting)[k] == left + code + right
    ensures AllowList(setting)[k] == code
    ensures InArray(Some(code), AllowList(setting))
  {
    TrimStripsPadding(left, code, right);
    assert LooseEquals(Some(code), AllowList(setting)[k]);
  }

  /** A member without a subdivision passes the sweep's trimmed allow-list whenever the
      setting is empty or ends with a comma. */
  lemma NullPassesSweep(setting: string)
    requires setting == "" || setting[|setting| - 1] == ','
    ensures InArray(None, AllowList(setting))
  {
    NullMatchesEmptyEntry(setting);
    var k :| 0 <= k < |Explode(setting)| && LooseEquals(None, Explode(setting)[k]);
    assert Trim("") == "";
    assert LooseEquals(None, AllowList(setting)[k]);
  }

  /** A mentor the sweep leaves alone: in an allowed subdivision, or visiting. */
  predicate KeepsMentor(m: User, allowed: seq<string>) {
    InArray(m.subdivision, allowed) || m.visitingController
  }

  /** How many entries of `mentors` the sweep demotes. */
  function CountDemoted(mentors: seq<User>, allowed: seq<string>): (n: nat)
    ensures n <= |mentors|
    ensures n == 0 <==> forall k :: 0 <= k < |mentors| ==> KeepsMentor(mentors[k], allowed)
  {
    if mentors == [] then 0
    else
      CountDemoted(mentors[..|mentors| - 1], allowed)
        + (if KeepsMentor(mentors[|mentors| - 1], allowed) then 0 else 1)
  }

  /** One more step of the first loop adds one exactly when that mentor is not kept. */
  lemma CountDemotedStep(mentors: seq<User>, i: nat, allowed: seq<string>)
    requires i < |mentors|
    ensures CountDemoted(mentors[..i + 1], allowed)
      == CountDemoted(mentors[..i], allowed) + (if KeepsMentor(mentors[i], allowed) then 0 else 1)
  {
    assert mentors[..i + 1][..i] == mentors[..i];
  }

  /** The body of the first loop for a mentor who is not kept: the training
      associations, the group memberships and the primary group are removed. */
  method Demote(mentor: User)
    modifies mentor
    ensures mentor.group.None? && mentor.groups == {} && mentor.teaches == {}
  {
    mentor.teaches := {};
    mentor.groups := {};
    mentor.group := None;
  }

  /** The first loop of the sweep. */
  method DetachMentors(mentors: seq<User>, allowed: seq<string>) returns (count: nat)
    modifies mentors
    ensures count == CountDemoted(mentors, allowed)
    ensures forall m :: m in mentors ==>
      if KeepsMentor(m, allowed)
      then m.group == old(m.group) && m.groups == old(m.groups) && m.teaches == old(m.teaches)
      else m.group.None? && m.groups == {} && m.teaches == {}
  {
    count := 0;
    var i := 0;
    while i < |mentors|
      invariant i <= |mentors|
      invariant count == CountDemoted(mentors[..i], allowed)
      invariant forall m :: m in mentors ==>
        if m in mentors[..i] && !KeepsMentor(m, allowed)
        then m.group.None? && m.groups == {} && m.teaches == {}
        else m.group == old(m.group) && m.groups == old(m.groups) && m.teaches == old(m.teaches)
    {
      var mentor := mentors[i];
      CountDemotedStep(mentors, i, allowed);
      if !KeepsMentor(mentor, allowed) {
        Demote(mentor);
        count := count + 1;
      }
      i := i + 1;
    }
    assert mentors[..i] == mentors;
  }

  /** A training the sweep looks at: still open (status at least 0) and not of the
      excluded type. */
  predicate IsOpen(t: Training)
    reads t
  {
    t.status >= 0 && t.kind != ExcludedKind
  }

  /** The query for open trainings, in table order. */
  function OpenTrainings(all: seq<Training>): (r: seq<Training>)
    reads all
    ensures forall t :: t in r ==> t in all && IsOpen(t)
    ensures forall t :: t in all && IsOpen(t) ==> t in r
  {
    if all == [] then []
    else
      OpenTrainings(all[..|all| - 1]) + (if IsOpen(all[|all| - 1]) then [all[|all| - 1]] else [])
  }

  /** Whether the trainee of `t` has left the allowed subdivisions. */
  predicate TraineeLeft(t: Training, allowed: seq<string>) {
    !InArray(t.trainee.subdivision, allowed)
  }

  /** The trainings among `open` that the sweep closes, one entry per closure. */
  function Leaving(open: seq<Training>, allowed: seq<string>): (r: seq<Training>)
    ensures forall t :: t in r ==> t in open && TraineeLeft(t, allowed)
    ensures forall t :: t in open && TraineeLeft(t, allowed) ==> t in r
  {
    if open == [] then []
    else
      var t := open[|open| - 1];
      Leaving(open[..|open| - 1], allowed) + (if TraineeLeft(t, allowed) then [t] else [])
  }

  function NoticeOf(t: Training): Notification {
    TrainingClosed(t.trainee.id, t.id, LeftSubdivision, ClosedMessage)
  }

  /** One closure notice per closed training, in order. */
  function NoticesFor(closed: seq<Training>): seq<Notification> {
    seq(|closed|, k requires 0 <= k < |closed| => NoticeOf(closed[k]))
  }

  /** The state of a training the sweep closed: its timestamps are those it had. */
  ghost predicate ClosedWith(t: Training, stamps: Stamps)
    reads t
  {
    t.status == LeftSubdivision && t.closedReason == Some(ClosedReason) && t.Timestamps() == stamps
  }

  /** The body of the second loop for a departed trainee: status -4 through
      `updateStatus`, then the closing reason. */
  method CloseOne(training: Training, now: int)
    modifies training
    ensures ClosedWith(training, old(training.Timestamps()))
  {
    ghost var stamps := training.Timestamps();
    training.UpdateStatus(LeftSubdivision, training.status, now);
    UnruledStatusKeepsStamps(old(training.status), LeftSubdivision, stamps, now);
    training.closedReason := Some(ClosedReason);
  }

  /** The second loop of the sweep, over the result `open` of the query. */
  method CloseTrainings(open: seq<Training>, allowed: seq<string>, now: int)
    returns (count: nat, notices: seq<Notification>)
    modifies open
    ensures count == |Leaving(open, allowed)|
    ensures notices == NoticesFor(Leaving(open, allowed))
    ensures forall t :: t in open ==>
      if TraineeLeft(t, allowed) then ClosedWith(t, old(t.Timestamps()))
      else t.status == old(t.status) && t.closedReason == old(t.closedReason) && t.Timestamps() == old(t.Timestamps())
  {
    count, notices := 0, [];
    var i := 0;
    while i < |open|
      invariant i <= |open|
      invariant count == |notices|
      invariant notices == NoticesFor(Leaving(open[..i], allowed))
      invariant forall t :: t in open ==>
        if t in open[..i] && TraineeLeft(t, allowed) then ClosedWith(t, old(t.Timestamps()))
        else t.status == old(t.status) && t.closedReason == old(t.closedReason) && t.Timestamps() == old(t.Timestamps())
    {
      var training := open[i];
      LeavingStep(open, i, allowed);
      if TraineeLeft(training, allowed) {
        CloseOne(training, now);
        notices := notices + [NoticeOf(training)];
        count := count + 1;
      }
      i := i + 1;
    }
    assert open[..i] == open;
  }

  /** One more step of the second loop adds at most the training at `i` to the closings. */
  lemma LeavingStep(open: seq<Training>, i: nat, allowed: seq<string>)
    requires i < |open|
    ensures Leaving(open[..i + 1], allowed)
      == Leaving(open[..i], allowed) + (if TraineeLeft(open[i], allowed) then [open[i]] else [])
    ensures NoticesFor(Leaving(open[..i + 1], allowed))
      == NoticesFor(Leaving(open[..i], allowed)) + (if TraineeLeft(open[i], allowed) then [NoticeOf(open[i])] else [])
  {
    assert open[..i + 1][..i] == open[..i];
  }

  /** The sweep. `now` is the clock; the closing status fires no timestamp rule, so
      it is never read. */
  method Handle(mentors: seq<User>, all: seq<Training>, setting: string, now: int)
    returns (mentorsAffected: nat, trainingsClosed: nat, notices: seq<Notification>)
    modifies mentors, set t | t in all
    ensures mentorsAffected == CountDemoted(mentors, AllowList(setting))
    ensures forall m :: m in mentors ==>
      if KeepsMentor(m, AllowList(setting))
      then m.group == old(m.group) && m.groups == old(m.groups) && m.teaches == old(m.teaches)
      else m.group.None? && m.groups == {} && m.teaches == {}
    ensures trainingsClosed == |Leaving(old(OpenTrainings(all)), AllowList(setting))|
    ensures notices == NoticesFor(Leaving(old(OpenTrainings(all)), AllowList(setting)))
    ensures forall t :: t in all ==>
      if old(IsOpen(t)) && TraineeLeft(t, AllowList(setting)) then ClosedWith(t, old(t.Timestamps()))
      else t.status == old(t.status) && t.closedReason == old(t.closedReason) && t.Timestamps() == old(t.Timestamps())
    // A second sweep over the same data closes nothing.
    ensures Leaving(OpenTrainings(all), AllowList(setting)) == []
  {
    var allowed := AllowList(setting);
    mentorsAffected := DetachMentors(mentors, allowed);
    var open := OpenTrainings(all);
    trainingsClosed, notices := CloseTrainings(open, allowed, now);
    NothingLeftToClose(all, allowed);
  }

  lemma NothingLeftToClose(all: seq<Training>, allowed: seq<string>)
    requires forall t :: t in all ==> !(IsOpen(t) && TraineeLeft(t, allowed))
    ensures Leaving(OpenTrainings(all), allowed) == []
  {
    if all != [] {
      var init, last := all[..|all| - 1], all[|all| - 1];
      NothingLeftToClose(init, allowed);
      var tail := if IsOpen(last) then [last] else [];
      LeavingAppend(OpenTrainings(init), tail, allowed);
      assert tail != [] ==> Leaving(tail, allowed) == Leaving([], allowed) + [];
    }
  }

  lemma {:induction false} LeavingAppend(a: seq<Training>, b: seq<Training>, allowed: seq<string>)
    ensures Leaving(a + b, allowed) == Leaving(a, allowed) + Leaving(b, allowed)
  {
    if b == [] {
      assert a + b == a;
    } else {
      var b' := b[..|b| - 1];
      assert (a + b)[..|a + b| - 1] == a + b';
      LeavingAppend(a, b', allowed);
    }
  }
}
