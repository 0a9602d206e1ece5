/** The authorization rules for trainings (`TrainingPolicy`). Each rule decides from facts
    about the requesting user and the training; how the user model answers its role
    questions is not part of this model, so the answers are inputs. */
module Policy {
  import opened Php
  import MemberDetails

  /** What the rules know about the requesting user. */
  datatype Requester = Requester(
    id: nat,
    moderatorOrAboveIn: set<nat>,   // areas `a` with isModeratorOrAbove(a)
    moderatorOrAbove: bool,         // isModeratorOrAbove() without an area
    moderatorIn: set<nat>,          // areas `a` with isModerator(a)
    mentorIn: set<nat>,             // areas `a` with isMentor(a)
    admin: bool,                    // isAdmin()
    handoverSubdivision: Option<string>,
    rating: int,
    active: bool,
    hasActiveTrainings: bool)

  /** What the rules know about a training. */
  datatype TrainingFacts = TrainingFacts(id: nat, traineeId: nat, areaId: nat, mentorIds: set<nat>, status: int)

  /** A stored one-time link; `trainingAreaId` is the area of the training it points to. */
  datatype OneTimeLink = OneTimeLink(trainingId: nat, key: string, trainingAreaId: nat)

  datatype Response = Allow | Deny(message: string)

  const DisabledMessage: string := "We are currently not accepting new training requests"
  const SubdivisionMessage: string := "You must join Scandinavia subdivision to apply for training. You currently belong to "
  const InactiveMessage: string := "Your ATC rating is inactive in Scandinavia"
  const ActiveRequestMessage: string := "You have an active training request"

  predicate MentorsTraining(u: Requester, t: TrainingFacts) {
    u.id in t.mentorIds
  }

  predicate IsTrainee(u: Requester, t: TrainingFacts) {
    u.id == t.traineeId
  }

  predicate ViewReports(u: Requester, t: TrainingFacts)
    ensures u.admin ==> ViewReports(u, t)
  {
    MentorsTraining(u, t) || IsTrainee(u, t) || t.areaId in u.moderatorOrAboveIn || u.admin
  }

  predicate View(u: Requester, t: TrainingFacts)
    ensures IsTrainee(u, t) ==> View(u, t)
    ensures View(u, t) ==> ViewReports(u, t)
  {
    MentorsTraining(u, t) || t.areaId in u.moderatorOrAboveIn || IsTrainee(u, t)
  }

  predicate Update(u: Requester, t: TrainingFacts)
    ensures MentorsTraining(u, t) ==> Update(u, t)
    ensures Update(u, t) ==> View(u, t)
  {
    MentorsTraining(u, t) || t.areaId in u.moderatorOrAboveIn
  }

  predicate Delete(u: Requester, t: TrainingFacts)
    ensures Delete(u, t) ==> Update(u, t)
  {
    t.areaId in u.moderatorOrAboveIn
  }

  /** The trainee may close a training while it is queued (status 0), and nobody else may. */
  predicate Close(u: Requester, t: TrainingFacts)
    ensures Close(u, t) ==> View(u, t) && t.status == 0
  {
    IsTrainee(u, t) && t.status == 0
  }

  predicate Create(u: Requester) {
    u.moderatorOrAbove
  }

  predicate ViewActiveRequests(u: Requester) {
    u.moderatorOrAbove
  }

  predicate ViewHistoricRequests(u: Requester) {
    u.moderatorOrAbove
  }

  /** Creating a training by hand and listing active or historic requests ask only the
      moderator-or-above question: two users who answer it alike are treated alike,
      whatever else differs between them. */
  lemma ModeratorGates(u: Requester, u': Requester)
    requires u.moderatorOrAbove == u'.moderatorOrAbove
    ensures Create(u) == Create(u')
    ensures ViewActiveRequests(u) == ViewActiveRequests(u')
    ensures ViewHistoricRequests(u) == ViewHistoricRequests(u')
  {
  }

  /** Deleting asks only about the training's area: its mentors, trainee and status do
      not matter, and neither does any other role of the user. */
  lemma DeleteDependsOnlyOnArea(u: Requester, u': Requester, t: TrainingFacts, t': TrainingFacts)
    requires t.areaId == t'.areaId
    requires (t.areaId in u.moderatorOrAboveIn) == (t'.areaId in u'.moderatorOrAboveIn)
    ensures Delete(u, t) == Delete(u', t')
  {
  }

  /** PHP's loose `$array != null`: false only for the empty array. */
  predicate NotNull(a: seq<string>) {
    |a| != 0
  }

  function SubdivisionName(s: Option<string>): string {
    match s
    case None => "none"
    case Some(name) => name
  }

  /** Whether the user may apply for a training; the checks run in order and the first
      that fails gives the reason. `subdivisionSetting` is split but not trimmed. */
  function Apply(u: Requester, trainingEnabled: bool, subdivisionSetting: string): (r: Response)
    ensures !trainingEnabled ==> r == Deny(DisabledMessage)
    ensures r == Allow <==>
      && trainingEnabled && InArray(u.handoverSubdivision, Explode(subdivisionSetting))
      && !u.hasActiveTrainings && (u.rating <= 2 || u.active)
  {
    var allowedSubDivisions := Explode(subdivisionSetting);
    if !trainingEnabled then Deny(DisabledMessage)
    else if !InArray(u.handoverSubdivision, allowedSubDivisions) && NotNull(allowedSubDivisions) then
      Deny(SubdivisionMessage + SubdivisionName(u.handoverSubdivision))
    else if !u.hasActiveTrainings && u.rating > 2 && !u.active then Deny(InactiveMessage)
    else if !u.hasActiveTrainings then Allow
    else Deny(ActiveRequestMessage)
  }

  /** The subdivision check is never switched off: the split always has an entry. */
  lemma ApplyChecksSubdivision(u: Requester, subdivisionSetting: string)
    requires !InArray(u.handoverSubdivision, Explode(subdivisionSetting))
    ensures Apply(u, true, subdivisionSetting) == Deny(SubdivisionMessage + SubdivisionName(u.handoverSubdivision))
  {
  }

  lemma ApplyChecksActivity(u: Requester, subdivisionSetting: string)
    requires InArray(u.handoverSubdivision, Explode(subdivisionSetting))
    ensures !u.hasActiveTrainings && u.rating > 2 && !u.active ==> Apply(u, true, subdivisionSetting) == Deny(InactiveMessage)
    ensures u.hasActiveTrainings ==> Apply(u, true, subdivisionSetting) == Deny(ActiveRequestMessage)
  {
  }

  /** The application check reads the setting untrimmed while the member sweep trims it:
      with a setting such as "NOR, SCA" a member of SCA cannot apply, yet the sweep keeps
      them and their trainings. */
  lemma ApplyAndSweepReadSettingDifferently(u: Requester, other: string, code: string)
    requires ',' !in other && ',' !in code && Trimmed(code) && code != "" && code != other
    requires u.handoverSubdivision == Some(code)
    ensures InArray(Some(code), MemberDetails.AllowList(other + ", " + code))
    ensures Apply(u, true, other + ", " + code) == Deny(SubdivisionMessage + code)
  {
    var setting := other + ", " + code;
    var parts := [other, " " + code];
    assert Join(parts) == setting;
    ExplodeJoin(parts);
    assert !InArray(Some(code), parts) by {
      assert |parts[1]| != |code|;
    }
    assert [' '] + code + [] == " " + code;
    TrimStripsPadding([' '], code, []);
    assert LooseEquals(Some(code), MemberDetails.AllowList(setting)[1]);
  }

  /** `getOneTimeLink`: the first stored link for this training whose key is the one the
      session holds. PHP's `$key != null` is false for an empty key, so none is looked up. */
  function FindOneTimeLink(links: seq<OneTimeLink>, sessionKey: Option<string>, trainingId: nat): (r: Option<OneTimeLink>)
    ensures r.Some? ==>
      r.value in links && r.value.trainingId == trainingId && sessionKey == Some(r.value.key) && r.value.key != ""
    ensures r.None? && sessionKey.Some? && sessionKey.value != "" ==>
      forall k :: 0 <= k < |links| ==> !(links[k].trainingId == trainingId && links[k].key == sessionKey.value)
  {
    match sessionKey
    case None => None
    case Some(key) => if key == "" then None else FirstLink(links, key, trainingId)
  }

  function FirstLink(links: seq<OneTimeLink>, key: string, trainingId: nat): (r: Option<OneTimeLink>)
    ensures r.Some? ==> r.value in links && r.value.trainingId == trainingId && r.value.key == key
    ensures r.None? ==> forall k :: 0 <= k < |links| ==> !(links[k].trainingId == trainingId && links[k].key == key)
  {
    if links == [] then None
    else if links[0].trainingId == trainingId && links[0].key == key then Some(links[0])
    else FirstLink(links[1..], key, trainingId)
  }

  /** Writing a report: through a one-time link, moderators and mentors of the link's area;
      otherwise moderators of the area and the training's mentors, except on their own
      training. */
  predicate CreateReport(u: Requester, t: TrainingFacts, link: Option<OneTimeLink>)
    ensures link.None? && IsTrainee(u, t) && t.areaId !in u.moderatorIn ==> !CreateReport(u, t, link)
  {
    match link
    case Some(l) => l.trainingAreaId in u.moderatorIn || l.trainingAreaId in u.mentorIn
    case None => t.areaId in u.moderatorIn || (MentorsTraining(u, t) && !IsTrainee(u, t))
  }

  /** Writing an examination: through a one-time link, mentors of the link's area;
      otherwise the training's mentors, except on their own training. */
  predicate CreateExamination(u: Requester, t: TrainingFacts, link: Option<OneTimeLink>)
    ensures CreateExamination(u, t, link) ==> CreateReport(u, t, link)
  {
    match link
    case Some(l) => l.trainingAreaId in u.mentorIn
    case None => MentorsTraining(u, t) && !IsTrainee(u, t)
  }
}
