/** The payout settings screen (screens/group/GroupSettingsScreen.tsx): the
    form of the selected group (distribution mode, winners' percent in mixed
    mode, charity), how selecting or loading a group fills it, and the
    update a save sends. */
module GroupSettings {
  import opened Wrappers
  import opened Text
  import opened Numbers

  const SelectGroupMessage: string := "Select a group"
  const PercentMessage: string := "Mixed winners percent must be between 0 and 100."

  /** A group as the backend lists it; `None` is a null column. */
  datatype GroupRow = GroupRow(
    id: string,
    name: string,
    distributionMode: Option<string>,
    charityId: Option<string>,
    mixedWinnersPercent: Option<int>)

  /** The four state variables the form consists of. */
  datatype SettingsForm = SettingsForm(
    selected: Option<string>,
    distributionMode: string,
    mixedPercent: string,
    charityId: string)

  /** The form before any group is known. */
  const InitialSettings: SettingsForm := SettingsForm(None, "redistribute", "50", "")

  /** A stored string column that is neither null nor empty. */
  predicate Truthy(s: Option<string>) {
    s.Some? && s.value != ""
  }

  /** Selecting a group: its id, and its stored mode, percent and charity,
      with 'redistribute', '50' and '' for the ones it lacks. */
  function Selected(g: GroupRow): (f: SettingsForm)
    ensures f.selected == Some(g.id)
    ensures Truthy(g.distributionMode) ==> f.distributionMode == g.distributionMode.value
    ensures !Truthy(g.distributionMode) ==> f.distributionMode == "redistribute"
    ensures g.mixedWinnersPercent.None? ==> f.mixedPercent == "50"
    ensures g.mixedWinnersPercent.Some? ==> f.mixedPercent == IntToString(g.mixedWinnersPercent.value)
    ensures f.charityId == g.charityId.GetOr("")
  {
    SettingsForm(
      Some(g.id),
      if Truthy(g.distributionMode) then g.distributionMode.value else "redistribute",
      if g.mixedWinnersPercent.Some? then IntToString(g.mixedWinnersPercent.value) else "50",
      g.charityId.GetOr(""))
  }

  /** Loading: the first group is selected, but each field is set only when
      the group has a value for it, and otherwise keeps what it held. */
  function Loaded(f: SettingsForm, g: GroupRow): SettingsForm {
    SettingsForm(
      Some(g.id),
      if Truthy(g.distributionMode) then g.distributionMode.value else f.distributionMode,
      if g.mixedWinnersPercent.Some? then IntToString(g.mixedWinnersPercent.value) else f.mixedPercent,
      if Truthy(g.charityId) then g.charityId.value else f.charityId)
  }

  /** On a fresh form, loading a group fills the form exactly as selecting
      it does: the defaults of the two paths agree. */
  lemma LoadedAgreesWithSelected(g: GroupRow)
    ensures Loaded(InitialSettings, g) == Selected(g)
  {
  }

  /** The percent test of mixed mode. */
  predicate PercentOk(n: JsNumber) {
    IsFinite(n) && 0.0 <= n.value <= 100.0
  }

  datatype SettingsUpdate = SettingsUpdate(
    distributionMode: string,
    charityId: Option<string>,
    mixedWinnersPercent: Option<int>)

  datatype SaveRequest = SaveRequest(groupId: string, update: SettingsUpdate)

  /** `onSave` on values: the update sent for the selected group, or the
      alert shown. */
  function SaveSettings(f: SettingsForm, toNumber: string -> JsNumber): (r: Result<SaveRequest, string>)
    ensures !Truthy(f.selected) ==> r == Err(SelectGroupMessage)
    ensures (Truthy(f.selected) && f.distributionMode == "mixed" && !PercentOk(toNumber(f.mixedPercent)))
            ==> r == Err(PercentMessage)
    ensures r.Ok? <==> Truthy(f.selected) && (f.distributionMode == "mixed" ==> PercentOk(toNumber(f.mixedPercent)))
    ensures r.Ok? ==> && r.value.groupId == f.selected.value
                      && r.value.update.distributionMode == f.distributionMode
                      && (f.charityId == "" ==> r.value.update.charityId.None?)
                      && (f.charityId != "" ==> r.value.update.charityId == Some(f.charityId))
                      && (r.value.update.mixedWinnersPercent.Some? <==> f.distributionMode == "mixed")
                      && (f.distributionMode == "mixed" ==>
                            var p := r.value.update.mixedWinnersPercent.value;
                            p == Round(toNumber(f.mixedPercent).value) && 0 <= p <= 100)
  {
    if !Truthy(f.selected) then Err(SelectGroupMessage)
    else if f.distributionMode == "mixed" && !PercentOk(toNumber(f.mixedPercent)) then Err(PercentMessage)
    else
      var percent: Option<int> :=
        if f.distributionMode == "mixed" then
          RoundWithin(toNumber(f.mixedPercent).value, 0, 100);
          Some(Round(toNumber(f.mixedPercent).value))
        else None;
      Ok(SaveRequest(f.selected.value,
                     SettingsUpdate(f.distributionMode, if f.charityId == "" then None else Some(f.charityId), percent)))
  }

  /** A stored row of the shape a save writes: a mode, no empty charity,
      and a percent within [0, 100] exactly in mixed mode. */
  predicate SavedShape(g: GroupRow) {
    && g.id != ""
    && Truthy(g.distributionMode)
    && g.charityId != Some("")
    && (g.mixedWinnersPercent.Some? <==> g.distributionMode.value == "mixed")
    && (g.mixedWinnersPercent.Some? ==> 0 <= g.mixedWinnersPercent.value <= 100)
  }

  /** Selecting such a group and saving without edits writes back what is
      stored, given that `Number` reads the printed percent back. */
  lemma SelectThenSave(g: GroupRow, toNumber: string -> JsNumber)
    requires SavedShape(g)
    requires g.mixedWinnersPercent.Some? ==>
               toNumber(IntToString(g.mixedWinnersPercent.value)) == Finite(g.mixedWinnersPercent.value as real)
    ensures SaveSettings(Selected(g), toNumber)
         == Ok(SaveRequest(g.id, SettingsUpdate(g.distributionMode.value, g.charityId, g.mixedWinnersPercent)))
  {
    if g.mixedWinnersPercent.Some? {
      RoundUnique(g.mixedWinnersPercent.value as real, g.mixedWinnersPercent.value);
    }
  }

  class GroupSettingsScreen {
    var groups: seq<GroupRow>
    var selected: Option<string>
    var distributionMode: string
    var mixedPercent: string
    var charityId: string

    /** The form the four state variables make up. */
    function Form(): SettingsForm
      reads this
    {
      SettingsForm(selected, distributionMode, mixedPercent, charityId)
    }

    constructor ()
      ensures groups == [] && Form() == InitialSettings
    {
      groups := [];
      selected := None;
      distributionMode := "redistribute";
      mixedPercent := "50";
      charityId := "";
    }

    /** The load effect: keep the list and fill the form from its first
        group, if any. */
    method Load(data: seq<GroupRow>)
      modifies this
      ensures groups == data
      ensures Form() == if data == [] then old(Form()) else Loaded(old(Form()), data[0])
    {
      groups := data;
      if |data| > 0 {
        var g := data[0];
        selected := Some(g.id);
        if Truthy(g.distributionMode) {
          distributionMode := g.distributionMode.value;
        }
        if g.mixedWinnersPercent.Some? {
          mixedPercent := IntToString(g.mixedWinnersPercent.value);
        }
        if Truthy(g.charityId) {
          charityId := g.charityId.value;
        }
      }
    }

    /** Pressing a group's pill sets the four fields in turn. */
    method SelectGroup(g: GroupRow)
      modifies this
      ensures Form() == Selected(g) && groups == old(groups)
    {
      selected := Some(g.id);
      distributionMode := if Truthy(g.distributionMode) then g.distributionMode.value else "redistribute";
      mixedPercent := if g.mixedWinnersPercent.Some? then IntToString(g.mixedWinnersPercent.value) else "50";
      charityId := g.charityId.GetOr("");
    }

    /** `onSave`: the request sent, or the alert; the form is kept. */
    method OnSave(toNumber: string -> JsNumber) returns (r: Result<SaveRequest, string>)
      ensures r == SaveSettings(Form(), toNumber)
    {
      if !Truthy(selected) {
        return Err(SelectGroupMessage);
      }
      if distributionMode == "mixed" {
        var n := toNumber(mixedPercent);
        if !IsFinite(n) || n.value < 0.0 || n.value > 100.0 {
          return Err(PercentMessage);
        }
      }
      var percent: Option<int> := None;
      if distributionMode == "mixed" {
        percent := Some(Round(toNumber(mixedPercent).value));
      }
      r := Ok(SaveRequest(selected.value,
                          SettingsUpdate(distributionMode, if charityId == "" then None else Some(charityId), percent)));
    }
  }
}
