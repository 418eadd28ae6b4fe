/** The challenge screen (screens/challenges/ChallengeDetailScreen.tsx): the
    creation form with its validation chain and payload, joining an existing
    challenge with a stake, and creating a group on the spot. The backend
    calls are left out: whether they succeed, and the id of a group created,
    are parameters. */
module ChallengeDetail {
  import opened Wrappers
  import opened Text
  import opened Numbers

  const SelectGroupMessage: string := "Select or create a group."
  const TitleMessage: string := "Enter a challenge title."
  const TargetMessage: string := "Enter a positive target value."
  const StakeMessage: string := "Enter a valid stake amount (in cents)."
  const JoinStakeMessage: string := "Enter a valid stake (cents)."
  const GroupNameMessage: string := "Enter a group name."

  /** The form state, every field as typed. */
  datatype GoalForm = GoalForm(
    groupId: Option<string>,
    title: string,
    goalType: string,
    metricUnit: string,
    targetValue: string,
    stakeCents: string,
    verificationMode: string,
    distributionMode: string,
    startDate: string,
    endDate: string,
    quickGroupName: string)

  /** The form when the screen opens; the two dates are today's and the one
      six days later, as ISO calendar dates. */
  function InitialForm(startDate: string, endDate: string): GoalForm {
    GoalForm(None, "", "screen_time", "minutes", "", "0", "honor", "redistribute",
             startDate, endDate, "")
  }

  /** A `Partial<GoalForm>`: `Some` for each key the patch names. */
  datatype FormPatch = FormPatch(
    groupId: Option<Option<string>>,
    title: Option<string>,
    goalType: Option<string>,
    metricUnit: Option<string>,
    targetValue: Option<string>,
    stakeCents: Option<string>,
    verificationMode: Option<string>,
    distributionMode: Option<string>,
    startDate: Option<string>,
    endDate: Option<string>,
    quickGroupName: Option<string>)

  const NoChange: FormPatch := FormPatch(None, None, None, None, None, None, None, None, None, None, None)

  /** `{ ...f, ...patch }` */
  function ApplyPatch(f: GoalForm, p: FormPatch): GoalForm {
    GoalForm(
      p.groupId.GetOr(f.groupId),
      p.title.GetOr(f.title),
      p.goalType.GetOr(f.goalType),
      p.metricUnit.GetOr(f.metricUnit),
      p.targetValue.GetOr(f.targetValue),
      p.stakeCents.GetOr(f.stakeCents),
      p.verificationMode.GetOr(f.verificationMode),
      p.distributionMode.GetOr(f.distributionMode),
      p.startDate.GetOr(f.startDate),
      p.endDate.GetOr(f.endDate),
      p.quickGroupName.GetOr(f.quickGroupName))
  }

  /** One patch after another: the later patch's keys win. */
  function Then(p: FormPatch, q: FormPatch): FormPatch {
    FormPatch(
      if q.groupId.Some? then q.groupId else p.groupId,
      if q.title.Some? then q.title else p.title,
      if q.goalType.Some? then q.goalType else p.goalType,
      if q.metricUnit.Some? then q.metricUnit else p.metricUnit,
      if q.targetValue.Some? then q.targetValue else p.targetValue,
      if q.stakeCents.Some? then q.stakeCents else p.stakeCents,
      if q.verificationMode.Some? then q.verificationMode else p.verificationMode,
      if q.distributionMode.Some? then q.distributionMode else p.distributionMode,
      if q.startDate.Some? then q.startDate else p.startDate,
      if q.endDate.Some? then q.endDate else p.endDate,
      if q.quickGroupName.Some? then q.quickGroupName else p.quickGroupName)
  }

  /** A patch naming no key changes nothing, a patch applied twice is
      applied once, and two patches in a row are their combination. */
  lemma PatchLaws(f: GoalForm, p: FormPatch, q: FormPatch)
    ensures ApplyPatch(f, NoChange) == f
    ensures ApplyPatch(ApplyPatch(f, p), p) == ApplyPatch(f, p)
    ensures ApplyPatch(ApplyPatch(f, p), q) == ApplyPatch(f, Then(p, q))
  {
  }

  /** Any patch changes exactly the fields it names: a named field takes
      the patch's value, every other field keeps the form's. */
  lemma PatchFrame(f: GoalForm, p: FormPatch)
    ensures var g := ApplyPatch(f, p);
            && (p.groupId.None? ==> g.groupId == f.groupId)
            && (p.title.None? ==> g.title == f.title)
            && (p.goalType.None? ==> g.goalType == f.goalType)
            && (p.metricUnit.None? ==> g.metricUnit == f.metricUnit)
            && (p.targetValue.None? ==> g.targetValue == f.targetValue)
            && (p.stakeCents.None? ==> g.stakeCents == f.stakeCents)
            && (p.verificationMode.None? ==> g.verificationMode == f.verificationMode)
            && (p.distributionMode.None? ==> g.distributionMode == f.distributionMode)
            && (p.startDate.None? ==> g.startDate == f.startDate)
            && (p.endDate.None? ==> g.endDate == f.endDate)
            && (p.quickGroupName.None? ==> g.quickGroupName == f.quickGroupName)
    ensures var g := ApplyPatch(f, p);
            && (p.groupId.Some? ==> g.groupId == p.groupId.value)
            && (p.title.Some? ==> g.title == p.title.value)
            && (p.goalType.Some? ==> g.goalType == p.goalType.value)
            && (p.metricUnit.Some? ==> g.metricUnit == p.metricUnit.value)
            && (p.targetValue.Some? ==> g.targetValue == p.targetValue.value)
            && (p.stakeCents.Some? ==> g.stakeCents == p.stakeCents.value)
            && (p.verificationMode.Some? ==> g.verificationMode == p.verificationMode.value)
            && (p.distributionMode.Some? ==> g.distributionMode == p.distributionMode.value)
            && (p.startDate.Some? ==> g.startDate == p.startDate.value)
            && (p.endDate.Some? ==> g.endDate == p.endDate.value)
            && (p.quickGroupName.Some? ==> g.quickGroupName == p.quickGroupName.value)
  {
  }

  /** A patch that names only the title changes nothing else. */
  lemma TitlePatchKeepsRest(f: GoalForm, t: string)
    ensures ApplyPatch(f, NoChange.(title := Some(t))) == f.(title := t)
  {
  }

  /** The patch applied after a challenge is created. */
  const ResetPatch: FormPatch := NoChange.(title := Some(""), targetValue := Some(""), stakeCents := Some("0"))

  /** The reset clears the title and the target, sets the stake to "0", and
      keeps every other field. */
  lemma ResetKeepsRest(f: GoalForm)
    ensures ApplyPatch(f, ResetPatch) == f.(title := "", targetValue := "", stakeCents := "0")
  {
  }

  /** `!form.groupId`: no group, or the empty id. */
  predicate GroupChosen(f: GoalForm) {
    f.groupId.Some? && f.groupId.value != ""
  }

  predicate TargetOk(n: JsNumber) {
    IsFinite(n) && n.value > 0.0
  }

  predicate StakeOk(n: JsNumber) {
    IsFinite(n) && n.value >= 0.0
  }

  /** What `createChallenge` is sent. */
  datatype ChallengePayload = ChallengePayload(
    groupId: string,
    title: string,
    goalType: string,
    metricUnit: string,
    targetValue: real,
    stakeAmountCents: int,
    distributionMode: string,
    verificationMode: string,
    startDate: string,
    endDate: string,
    charityId: Option<string>,
    mixedWinnersPercent: Option<int>)

  /** `onCreate`'s checks, in order, and the payload they let through. */
  function ValidateCreate(f: GoalForm, toNumber: string -> JsNumber): (r: Result<ChallengePayload, string>)
    ensures !GroupChosen(f) ==> r == Err(SelectGroupMessage)
    ensures GroupChosen(f) && AllWhitespace(f.title) ==> r == Err(TitleMessage)
    ensures (GroupChosen(f) && !AllWhitespace(f.title) && !TargetOk(toNumber(f.targetValue)))
            ==> r == Err(TargetMessage)
    ensures (GroupChosen(f) && !AllWhitespace(f.title) && TargetOk(toNumber(f.targetValue))
             && !StakeOk(toNumber(f.stakeCents))) ==> r == Err(StakeMessage)
    ensures r.Ok? <==> GroupChosen(f) && !AllWhitespace(f.title)
                       && TargetOk(toNumber(f.targetValue)) && StakeOk(toNumber(f.stakeCents))
    ensures r.Ok? ==> && r.value.groupId == f.groupId.value
                      && r.value.title == Trim(f.title) && r.value.title != []
                      && r.value.targetValue == toNumber(f.targetValue).value > 0.0
                      && r.value.stakeAmountCents == Round(toNumber(f.stakeCents).value) >= 0
                      && r.value.charityId.None? && r.value.mixedWinnersPercent.None?
    ensures r.Ok? ==> && r.value.goalType == f.goalType && r.value.metricUnit == f.metricUnit
                      && r.value.distributionMode == f.distributionMode
                      && r.value.verificationMode == f.verificationMode
                      && r.value.startDate == f.startDate && r.value.endDate == f.endDate
  {
    var title := Trim(f.title);
    var target := toNumber(f.targetValue);
    var stake := toNumber(f.stakeCents);
    if !GroupChosen(f) then Err(SelectGroupMessage)
    else if title == [] then Err(TitleMessage)
    else if !IsFinite(target) || target.value <= 0.0 then Err(TargetMessage)
    else if !IsFinite(stake) || stake.value < 0.0 then Err(StakeMessage)
    else
      RoundWithin(stake.value, 0, stake.value.Floor + 1);
      Ok(ChallengePayload(f.groupId.value, title, f.goalType, f.metricUnit, target.value,
                          Round(stake.value), f.distributionMode, f.verificationMode,
                          f.startDate, f.endDate, None, None))
  }

  /** After a successful creation the reset form is refused at the title
      check, so the same challenge is not sent twice by a second press. */
  lemma ResetBlocksResubmit(f: GoalForm, toNumber: string -> JsNumber)
    requires GroupChosen(f)
    ensures ValidateCreate(ApplyPatch(f, ResetPatch), toNumber) == Err(TitleMessage)
  {
    var g := ApplyPatch(f, ResetPatch);
    assert g.title == "";
  }

  /** The join button: `Number(form.stakeCents || existing.stake_amount_cents)`
      must be finite and not negative; the rounded amount is sent. An empty
      field falls back to the challenge's stored stake. */
  function JoinStake(stakeCents: string, storedStake: int, toNumber: string -> JsNumber): (r: Result<int, string>)
    ensures r.Err? ==> r.error == JoinStakeMessage
    ensures stakeCents != "" ==> (r.Ok? <==> StakeOk(toNumber(stakeCents)))
    ensures stakeCents != "" && r.Ok? ==> r.value == Round(toNumber(stakeCents).value)
    ensures stakeCents == "" ==> (r.Ok? <==> storedStake >= 0)
    ensures stakeCents == "" && r.Ok? ==> r.value == storedStake
    ensures r.Ok? ==> r.value >= 0
  {
    var cents := if stakeCents != "" then toNumber(stakeCents) else Finite(storedStake as real);
    if !IsFinite(cents) || cents.value < 0.0 then Err(JoinStakeMessage)
    else
      RoundWithin(cents.value, 0, cents.value.Floor + 1);
      Ok(Round(cents.value))
  }

  /** The quick-create guard: the trimmed name, or the alert when it is
      blank. */
  function QuickGroupName(f: GoalForm): (r: Result<string, string>)
    ensures r.Err? <==> AllWhitespace(f.quickGroupName)
    ensures r.Err? ==> r.error == GroupNameMessage
    ensures r.Ok? ==> r.value == Trim(f.quickGroupName) && r.value != []
  {
    var name := Trim(f.quickGroupName);
    if name == [] then Err(GroupNameMessage) else Ok(name)
  }

  class ChallengeDetailScreen {
    var form: GoalForm

    constructor (startDate: string, endDate: string)
      ensures form == InitialForm(startDate, endDate)
    {
      form := InitialForm(startDate, endDate);
    }

    /** `set(patch)` */
    method Set(patch: FormPatch)
      modifies this
      ensures form == ApplyPatch(old(form), patch)
    {
      form := ApplyPatch(form, patch);
    }

    /** `onCreate`: validate, send the payload, and on success reset the
        title, target and stake. `created` says whether `createChallenge`
        succeeded; a failed join after it is ignored, as in the screen. */
    method OnCreate(toNumber: string -> JsNumber, created: bool) returns (r: Result<ChallengePayload, string>)
      modifies this
      ensures r == ValidateCreate(old(form), toNumber)
      ensures form == if r.Ok? && created then ApplyPatch(old(form), ResetPatch) else old(form)
    {
      r := ValidateCreate(form, toNumber);
      if r.Ok? && created {
        Set(ResetPatch);
      }
    }

    /** `onQuickCreateGroup`: on a blank name the alert; otherwise, once
        the group `createdId` exists, select it and clear the name field.
        `createdId` is `None` when the backend fails. */
    method OnQuickCreateGroup(createdId: Option<string>) returns (r: Result<string, string>)
      modifies this
      ensures r == QuickGroupName(old(form))
      ensures form == if r.Ok? && createdId.Some?
                      then ApplyPatch(old(form), NoChange.(groupId := Some(createdId), quickGroupName := Some("")))
                      else old(form)
    {
      r := QuickGroupName(form);
      if r.Ok? && createdId.Some? {
        Set(NoChange.(groupId := Some(createdId), quickGroupName := Some("")));
      }
    }
  }
}
