/**
 * The campaign editor: the submit action with its target selection, the
 * active/paused toggle and the delay inputs.
 */
module Campaigns {
  import opened Wrappers
  import opened Seqs
  import opened Text
  import opened DataStore

  /** The fields of the campaign dialog; `selectedTargets` holds target ids. */
  datatype CampaignForm = CampaignForm(
    name: string,
    templateId: Id,
    delayMin: int,
    delayMax: int,
    startTime: string,
    endTime: string,
    selectedTargets: seq<Id>)

  /** `handleSubmit`'s guard: a name and a template are required. */
  predicate FormComplete(f: CampaignForm)
  {
    f.name != "" && f.templateId != ""
  }

  /** Whether a target goes into the campaign: every target when nothing is selected, else the selected ones. */
  predicate Selected(t: Target, selected: seq<Id>)
  {
    |selected| == 0 || t.id in selected
  }

  /** `campaignTargets`: the store's targets that are selected, in store order. */
  function SelectTargets(ts: seq<Target>, selected: seq<Id>): (r: seq<Target>)
    ensures forall i :: 0 <= i < |r| ==> r[i] in ts && Selected(r[i], selected)
    ensures forall i :: 0 <= i < |ts| && Selected(ts[i], selected) ==> ts[i] in r
  {
    Filter(ts, t => Selected(t, selected))
  }

  /**
   * An empty selection means every target, in store order; otherwise the
   * result is the order-preserving sub-list of targets whose id was selected.
   */
  lemma SelectTargetsSpec(ts: seq<Target>, selected: seq<Id>)
    ensures selected == [] ==> SelectTargets(ts, selected) == ts
    ensures IsSubsequence(SelectTargets(ts, selected), ts)
    ensures selected != [] ==> forall t :: t in SelectTargets(ts, selected) <==> t in ts && t.id in selected
  {
    FilterIsSubsequence(ts, t => Selected(t, selected));
    if selected == [] {
      FilterAll(ts, t => Selected(t, selected));
    } else {
      forall t ensures t in SelectTargets(ts, selected) <==> t in ts && t.id in selected {
        FilterMembership(ts, t => Selected(t, selected), t);
      }
    }
  }

  /** What a new campaign is created from: the form's fields, the selected targets, paused. */
  function NewCampaignDraft(f: CampaignForm, ts: seq<Target>): (d: CampaignDraft)
    ensures d.status == Paused
    ensures d.name == f.name && d.templateId == f.templateId
    ensures d.delayMin == f.delayMin && d.delayMax == f.delayMax
    ensures d.startTime == Some(f.startTime) && d.endTime == Some(f.endTime)
    ensures d.targets == SelectTargets(ts, f.selectedTargets)
  {
    CampaignDraft(f.name, f.templateId, SelectTargets(ts, f.selectedTargets), Paused,
                  f.delayMin, f.delayMax, Some(f.startTime), Some(f.endTime))
  }

  /** The patch an edit applies: name, template, delays, times and targets. */
  function EditPatch(f: CampaignForm, ts: seq<Target>): CampaignPatch
  {
    CampaignPatch(None, Some(f.name), Some(f.templateId), Some(SelectTargets(ts, f.selectedTargets)),
                  None, Some(f.delayMin), Some(f.delayMax), Some(Some(f.startTime)), Some(Some(f.endTime)),
                  None, None, None)
  }

  /** Editing overwrites the form's fields and keeps the id, status, creation time and counters. */
  lemma EditKeepsStatusAndCounters(c: Campaign, f: CampaignForm, ts: seq<Target>)
    ensures var e := MergeCampaign(c, EditPatch(f, ts));
      && e.id == c.id && e.status == c.status && e.createdAt == c.createdAt
      && e.totalSent == c.totalSent && e.totalReplied == c.totalReplied
      && e.name == f.name && e.templateId == f.templateId
      && e.delayMin == f.delayMin && e.delayMax == f.delayMax
      && e.startTime == Some(f.startTime) && e.endTime == Some(f.endTime)
      && e.targets == SelectTargets(ts, f.selectedTargets)
  {
  }

  /**
   * `handleSubmit`: an incomplete form changes nothing; otherwise the
   * campaign being edited is patched, or a new paused campaign is appended.
   */
  method HandleSubmit(store: Store, f: CampaignForm, editing: Option<Id>, newId: Id, now: Time)
    returns (accepted: bool)
    modifies store`campaigns
    ensures accepted == FormComplete(f)
    ensures !accepted ==> store.campaigns == old(store.campaigns)
    ensures accepted && editing.Some? ==>
      store.campaigns == UpdateCampaigns(old(store.campaigns), editing.value, EditPatch(f, store.targets))
    ensures accepted && editing.None? ==>
      store.campaigns == old(store.campaigns) + [NewCampaign(NewCampaignDraft(f, store.targets), newId, now)]
  {
    if !FormComplete(f) {
      return false;
    }
    match editing {
      case Some(id) => store.UpdateCampaign(id, EditPatch(f, store.targets));
      case None => store.AddCampaign(NewCampaignDraft(f, store.targets), newId, now);
    }
    return true;
  }

  /** `toggleStatus`'s new status: an active campaign is paused, any other one (paused or completed) becomes active. */
  function ToggledStatus(s: CampaignStatus): (r: CampaignStatus)
    ensures r == Active <==> s != Active
    ensures r == Paused <==> s == Active
  {
    if s == Active then Paused else Active
  }

  /** Toggling twice gives back an active or paused status, but turns a completed campaign into a paused one. */
  lemma ToggleTwice(s: CampaignStatus)
    ensures s != Completed ==> ToggledStatus(ToggledStatus(s)) == s
    ensures s == Completed ==> ToggledStatus(ToggledStatus(s)) == Paused
  {
  }

  /** `toggleStatus`: patches the campaign's status and nothing else. */
  method ToggleStatus(store: Store, c: Campaign)
    modifies store`campaigns
    ensures store.campaigns == UpdateCampaigns(old(store.campaigns), c.id, CampaignStatusPatch(ToggledStatus(c.status)))
  {
    store.UpdateCampaign(c.id, CampaignStatusPatch(ToggledStatus(c.status)));
  }

  /** A delay input: `Number.parseInt(value) || 1`, so NaN and 0 both fall back to 1; negative values pass through. */
  function DelayInput(s: string): (r: int)
    ensures r != 0
    ensures ParseInt(s).None? ==> r == 1
    ensures ParseInt(s).Some? ==> r == (if ParseInt(s).value == 0 then 1 else ParseInt(s).value)
  {
    match ParseInt(s)
    case None => 1
    case Some(v) => if v == 0 then 1 else v
  }

  /**
   * Typing a number gives that number, except that 0 reads as 1; a
   * negative number is kept, so nothing makes the delays positive or ordered.
   */
  lemma DelayInputOfNumber(n: nat)
    ensures DelayInput(NatToString(n)) == if n == 0 then 1 else n
    ensures n > 0 ==> DelayInput("-" + NatToString(n)) == -(n as int)
  {
    ParseIntOfDecimal(n);
  }

  /** Text that is not a number falls back to 1. */
  lemma DelayInputNotNumber(s: string)
    requires s == [] || (!IsSpace(s[0]) && !IsDecimalDigit(s[0]) && s[0] != '-' && s[0] != '+')
    ensures DelayInput(s) == 1
  {
    if s != [] {
      assert TrimStart(s) == s;
      assert DigitValue(s[0], 10).None?;
    }
  }
}
