/**
 * The dashboard's data model and its global store. Each store action
 * computes the new list with spread, `map`, `filter` or `slice` and
 * replaces one field; here the list computations are functions and the
 * store is a class whose methods assign exactly the fields they replace.
 * Ids (`crypto.randomUUID()`) and timestamps (`new Date()`) are parameters.
 */
module DataStore {
  import opened Wrappers
  import opened Seqs

  type Id = string

  /** A timestamp, in milliseconds. */
  type Time = int

  /** A JavaScript number produced by `Number.parseInt`: an integer or NaN. */
  datatype Number = NaN | Int(value: int)

  datatype TargetStatus = Pending | Sent | Replied | Failed
  datatype TargetKind = Specific | Random

  /** A prospective recipient; `kind` is the source's `type` field. */
  datatype Target = Target(
    id: Id,
    username: string,
    fullName: Option<string>,
    followers: Option<Number>,
    status: TargetStatus,
    sentAt: Option<Time>,
    kind: TargetKind)

  datatype Template = Template(
    id: Id,
    name: string,
    content: string,
    variables: seq<string>,
    createdAt: Time)

  datatype CampaignStatus = Active | Paused | Completed

  datatype Campaign = Campaign(
    id: Id,
    name: string,
    templateId: Id,
    targets: seq<Target>,
    status: CampaignStatus,
    delayMin: int,
    delayMax: int,
    startTime: Option<string>,
    endTime: Option<string>,
    createdAt: Time,
    totalSent: int,
    totalReplied: int)

  datatype LogStatus = LogSent | LogFailed | LogQueued {
    /** The status as the string the log filter compares against. */
    function Name(): string
    {
      match this
      case LogSent => "sent"
      case LogFailed => "failed"
      case LogQueued => "queued"
    }
  }

  datatype Log = Log(
    id: Id,
    campaignId: Id,
    targetUsername: string,
    message: string,
    status: LogStatus,
    timestamp: Time,
    error: Option<string>)

  // ---------------------------------------------------------------------
  // What the `add*` actions receive: the record without the fields the
  // store fills in itself (`Omit<...>` in the source).

  datatype CampaignDraft = CampaignDraft(
    name: string,
    templateId: Id,
    targets: seq<Target>,
    status: CampaignStatus,
    delayMin: int,
    delayMax: int,
    startTime: Option<string>,
    endTime: Option<string>)

  datatype TemplateDraft = TemplateDraft(name: string, content: string, variables: seq<string>)

  datatype TargetDraft = TargetDraft(
    username: string,
    fullName: Option<string>,
    followers: Option<Number>,
    status: TargetStatus,
    sentAt: Option<Time>,
    kind: TargetKind)

  datatype LogDraft = LogDraft(
    campaignId: Id,
    targetUsername: string,
    message: string,
    status: LogStatus,
    error: Option<string>)

  // ---------------------------------------------------------------------
  // What the `update*` actions receive (`Partial<...>`): a field is
  // overwritten when present. For a field that is itself optional, the
  // inner `None` is an explicit `undefined`.

  datatype CampaignPatch = CampaignPatch(
    id: Option<Id>,
    name: Option<string>,
    templateId: Option<Id>,
    targets: Option<seq<Target>>,
    status: Option<CampaignStatus>,
    delayMin: Option<int>,
    delayMax: Option<int>,
    startTime: Option<Option<string>>,
    endTime: Option<Option<string>>,
    createdAt: Option<Time>,
    totalSent: Option<int>,
    totalReplied: Option<int>)

  datatype TemplatePatch = TemplatePatch(
    id: Option<Id>,
    name: Option<string>,
    content: Option<string>,
    variables: Option<seq<string>>,
    createdAt: Option<Time>)

  datatype TargetPatch = TargetPatch(
    id: Option<Id>,
    username: Option<string>,
    fullName: Option<Option<string>>,
    followers: Option<Option<Number>>,
    status: Option<TargetStatus>,
    sentAt: Option<Option<Time>>,
    kind: Option<TargetKind>)

  /** `{ status }` */
  function CampaignStatusPatch(s: CampaignStatus): CampaignPatch
  {
    CampaignPatch(None, None, None, None, Some(s), None, None, None, None, None, None, None)
  }

  /** `{ totalSent }` */
  function TotalSentPatch(n: int): CampaignPatch
  {
    CampaignPatch(None, None, None, None, None, None, None, None, None, None, Some(n), None)
  }

  /** `{ status }` */
  function TargetStatusPatch(s: TargetStatus): TargetPatch
  {
    TargetPatch(None, None, None, None, Some(s), None, None)
  }

  /** `{ status, sentAt }` */
  function TargetSentPatch(now: Time): TargetPatch
  {
    TargetPatch(None, None, None, None, Some(Sent), Some(Some(now)), None)
  }

  /** `{ ...c, ...p }` */
  function MergeCampaign(c: Campaign, p: CampaignPatch): Campaign
  {
    Campaign(
      p.id.GetOr(c.id), p.name.GetOr(c.name), p.templateId.GetOr(c.templateId),
      p.targets.GetOr(c.targets), p.status.GetOr(c.status),
      p.delayMin.GetOr(c.delayMin), p.delayMax.GetOr(c.delayMax),
      p.startTime.GetOr(c.startTime), p.endTime.GetOr(c.endTime),
      p.createdAt.GetOr(c.createdAt), p.totalSent.GetOr(c.totalSent),
      p.totalReplied.GetOr(c.totalReplied))
  }

  /** `{ ...t, ...p }` */
  function MergeTemplate(t: Template, p: TemplatePatch): Template
  {
    Template(
      p.id.GetOr(t.id), p.name.GetOr(t.name), p.content.GetOr(t.content),
      p.variables.GetOr(t.variables), p.createdAt.GetOr(t.createdAt))
  }

  /** `{ ...t, ...p }` */
  function MergeTarget(t: Target, p: TargetPatch): Target
  {
    Target(
      p.id.GetOr(t.id), p.username.GetOr(t.username), p.fullName.GetOr(t.fullName),
      p.followers.GetOr(t.followers), p.status.GetOr(t.status),
      p.sentAt.GetOr(t.sentAt), p.kind.GetOr(t.kind))
  }

  function CampaignIdOf(c: Campaign): Id { c.id }
  function TemplateIdOf(t: Template): Id { t.id }
  function TargetIdOf(t: Target): Id { t.id }

  // ---------------------------------------------------------------------
  // The new field values the actions compute

  /** The campaign `addCampaign` appends: counters start at zero. */
  function NewCampaign(d: CampaignDraft, id: Id, now: Time): (c: Campaign)
    ensures c.id == id && c.createdAt == now
    ensures c.totalSent == 0 && c.totalReplied == 0
    ensures c.name == d.name && c.templateId == d.templateId && c.targets == d.targets
    ensures c.status == d.status && c.delayMin == d.delayMin && c.delayMax == d.delayMax
    ensures c.startTime == d.startTime && c.endTime == d.endTime
  {
    Campaign(id, d.name, d.templateId, d.targets, d.status, d.delayMin, d.delayMax,
             d.startTime, d.endTime, now, 0, 0)
  }

  function NewTemplate(d: TemplateDraft, id: Id, now: Time): Template
  {
    Template(id, d.name, d.content, d.variables, now)
  }

  function NewTarget(d: TargetDraft, id: Id): Target
  {
    Target(id, d.username, d.fullName, d.followers, d.status, d.sentAt, d.kind)
  }

  /** `targets.map(t => ({ ...t, id: crypto.randomUUID() }))`, the ids given in order. */
  function NewTargets(ds: seq<TargetDraft>, ids: seq<Id>): (r: seq<Target>)
    requires |ids| == |ds|
    ensures |r| == |ds|
    ensures forall i :: 0 <= i < |ds| ==> r[i] == NewTarget(ds[i], ids[i])
  {
    if ds == [] then [] else [NewTarget(ds[0], ids[0])] + NewTargets(ds[1..], ids[1..])
  }

  function NewLog(d: LogDraft, id: Id, now: Time): Log
  {
    Log(id, d.campaignId, d.targetUsername, d.message, d.status, now, d.error)
  }

  /** `campaigns.map(c => c.id === id ? { ...c, ...p } : c)` */
  function UpdateCampaigns(cs: seq<Campaign>, id: Id, p: CampaignPatch): seq<Campaign>
  {
    UpdateWhere(cs, CampaignIdOf, id, c => MergeCampaign(c, p))
  }

  /** `templates.map(t => t.id === id ? { ...t, ...p } : t)` */
  function UpdateTemplates(ts: seq<Template>, id: Id, p: TemplatePatch): seq<Template>
  {
    UpdateWhere(ts, TemplateIdOf, id, t => MergeTemplate(t, p))
  }

  /** `targets.map(t => t.id === id ? { ...t, ...p } : t)` */
  function UpdateTargets(ts: seq<Target>, id: Id, p: TargetPatch): seq<Target>
  {
    UpdateWhere(ts, TargetIdOf, id, t => MergeTarget(t, p))
  }

  /** The most logs the store keeps. */
  const LogCap := 500

  /** `[x, ...xs].slice(0, cap)` */
  function PrependCapped<T>(x: T, xs: seq<T>, cap: nat): (r: seq<T>)
    requires cap >= 1
    ensures |r| == if |xs| + 1 < cap then |xs| + 1 else cap
    ensures r[0] == x
    ensures r[1..] == xs[..|r| - 1]
  {
    ([x] + xs)[..if |xs| + 1 < cap then |xs| + 1 else cap]
  }

  /**
   * The log list after `addLog` of each entry of `entries` in turn,
   * starting from `logs`.
   */
  function AddLogs<T>(logs: seq<T>, entries: seq<T>, cap: nat): seq<T>
    requires cap >= 1
    decreases |entries|
  {
    if entries == [] then logs
    else AddLogs(PrependCapped(entries[0], logs, cap), entries[1..], cap)
  }

  function Reverse<T>(xs: seq<T>): (r: seq<T>)
    ensures |r| == |xs|
    ensures forall i :: 0 <= i < |xs| ==> r[i] == xs[|xs| - 1 - i]
  {
    if xs == [] then [] else Reverse(xs[1..]) + [xs[0]]
  }

  function Min(a: int, b: int): int { if a < b then a else b }

  /**
   * After any sequence of `addLog` calls the list holds the newest entries,
   * newest first, followed by the oldest survivors, and never more than
   * `cap` of them.
   */
  lemma {:induction false} AddLogsKeepsNewest<T>(logs: seq<T>, entries: seq<T>, cap: nat)
    requires cap >= 1 && |logs| <= cap
    ensures var all := Reverse(entries) + logs;
      AddLogs(logs, entries, cap) == all[..Min(|all|, cap)]
    decreases |entries|
  {
    if entries != [] {
      var l1 := PrependCapped(entries[0], logs, cap);
      AddLogsKeepsNewest(l1, entries[1..], cap);
      var all := Reverse(entries) + logs;
      var all1 := Reverse(entries[1..]) + l1;
      var n := Min(|all|, cap);
      assert Reverse(entries) == Reverse(entries[1..]) + [entries[0]];
      assert all == Reverse(entries[1..]) + ([entries[0]] + logs);
      assert |all1| <= |all|;
      assert AddLogs(logs, entries, cap) == all1[..Min(|all1|, cap)];
      assert all1[..Min(|all1|, cap)] == all[..n] by {
        // l1 is a prefix of [entries[0]] + logs of length min(|logs| + 1, cap)
        assert l1 == ([entries[0]] + logs)[..|l1|];
        var m := Min(|all1|, cap);
        assert m == n;
        forall i | 0 <= i < n ensures all1[i] == all[i] {
          var k := |entries| - 1;
          if i >= k {
            assert all1[i] == l1[i - k];
          }
        }
      }
    }
  }

  /** The log list never grows past the cap once any entry has been added. */
  lemma AddLogsBounded<T>(logs: seq<T>, entries: seq<T>, cap: nat)
    requires cap >= 1 && |logs| <= cap
    ensures |AddLogs(logs, entries, cap)| == Min(|entries| + |logs|, cap)
    ensures entries != [] ==> AddLogs(logs, entries, cap)[0] == entries[|entries| - 1]
  {
    AddLogsKeepsNewest(logs, entries, cap);
  }

  // ---------------------------------------------------------------------
  // Facts about the id-keyed updates

  /**
   * Updating an id changes the entries carrying that id exactly as the
   * patch says and leaves every other entry, the length and the order alone.
   */
  lemma UpdateTargetsSpec(ts: seq<Target>, id: Id, p: TargetPatch, i: int)
    requires 0 <= i < |ts|
    ensures |UpdateTargets(ts, id, p)| == |ts|
    ensures ts[i].id != id ==> UpdateTargets(ts, id, p)[i] == ts[i]
    ensures ts[i].id == id ==> var t := UpdateTargets(ts, id, p)[i];
      && (p.status.Some? ==> t.status == p.status.value)
      && (p.status.None? ==> t.status == ts[i].status)
      && (p.sentAt.Some? ==> t.sentAt == p.sentAt.value)
      && (p.sentAt.None? ==> t.sentAt == ts[i].sentAt)
      && (p.id.Some? ==> t.id == p.id.value)
      && (p.id.None? ==> t.id == id)
      && (p.username.Some? ==> t.username == p.username.value)
      && (p.username.None? ==> t.username == ts[i].username)
      && (p.fullName.Some? ==> t.fullName == p.fullName.value)
      && (p.fullName.None? ==> t.fullName == ts[i].fullName)
      && (p.followers.Some? ==> t.followers == p.followers.value)
      && (p.followers.None? ==> t.followers == ts[i].followers)
      && (p.kind.Some? ==> t.kind == p.kind.value)
      && (p.kind.None? ==> t.kind == ts[i].kind)
  {
  }

  /** A patch that leaves the id alone keeps every id in place. */
  lemma UpdateTargetsKeepsIds(ts: seq<Target>, id: Id, p: TargetPatch)
    requires p.id.None?
    ensures forall i :: 0 <= i < |ts| ==> UpdateTargets(ts, id, p)[i].id == ts[i].id
  {
  }

  /** Setting a campaign's status twice is the same as setting it once. */
  lemma {:induction false} SetCampaignStatusIdempotent(cs: seq<Campaign>, id: Id, s: CampaignStatus)
    ensures var p := CampaignStatusPatch(s);
      UpdateCampaigns(UpdateCampaigns(cs, id, p), id, p) == UpdateCampaigns(cs, id, p)
  {
    var p := CampaignStatusPatch(s);
    var once := UpdateCampaigns(cs, id, p);
    var twice := UpdateCampaigns(once, id, p);
    assert |twice| == |once|;
    forall i | 0 <= i < |cs| ensures twice[i] == once[i] {
      if cs[i].id == id {
        assert once[i] == MergeCampaign(cs[i], p);
      }
    }
  }

  // ---------------------------------------------------------------------
  // The store

  /** The content of the built-in "Intro Bisnis" template. */
  const IntroContent: string :=
    "Halo {name}! \U{1F44B}\n\nSaya melihat profil Anda dan sangat tertarik dengan bisnis Anda. Saya ingin berbagi bagaimana kami bisa membantu meningkatkan penjualan Anda hingga 3x lipat.\n\nApakah Anda tertarik untuk diskusi lebih lanjut?"

  /** The content of the built-in "Follow Up" template. */
  const FollowUpContent: string :=
    "Hai {name}! \U{1F60A}\n\nSaya harap kabar Anda baik. Saya ingin follow up mengenai pesan sebelumnya.\n\nKami sedang ada promo spesial bulan ini. Apakah ada waktu untuk chat sebentar?"

  /** The two templates a fresh store starts with. */
  function DefaultTemplates(now: Time): seq<Template>
  {
    [ Template("1", "Intro Bisnis", IntroContent, ["name"], now),
      Template("2", "Follow Up", FollowUpContent, ["name"], now) ]
  }

  class Store {
    var campaigns: seq<Campaign>
    var templates: seq<Template>
    var targets: seq<Target>
    var logs: seq<Log>
    var isRunning: bool
    var currentCampaignId: Option<Id>

    /** The store as first created, before anything is persisted. */
    constructor (now: Time)
      ensures campaigns == [] && templates == DefaultTemplates(now)
      ensures targets == [] && logs == []
      ensures !isRunning && currentCampaignId == None
    {
      campaigns := [];
      templates := DefaultTemplates(now);
      targets := [];
      logs := [];
      isRunning := false;
      currentCampaignId := None;
    }

    method AddCampaign(d: CampaignDraft, id: Id, now: Time)
      modifies this`campaigns
      ensures campaigns == old(campaigns) + [NewCampaign(d, id, now)]
    {
      campaigns := campaigns + [NewCampaign(d, id, now)];
    }

    method UpdateCampaign(id: Id, p: CampaignPatch)
      modifies this`campaigns
      ensures campaigns == UpdateCampaigns(old(campaigns), id, p)
    {
      campaigns := UpdateCampaigns(campaigns, id, p);
    }

    method DeleteCampaign(id: Id)
      modifies this`campaigns
      ensures campaigns == RemoveWhere(old(campaigns), CampaignIdOf, id)
    {
      campaigns := RemoveWhere(campaigns, CampaignIdOf, id);
    }

    method AddTemplate(d: TemplateDraft, id: Id, now: Time)
      modifies this`templates
      ensures templates == old(templates) + [NewTemplate(d, id, now)]
    {
      templates := templates + [NewTemplate(d, id, now)];
    }

    method UpdateTemplate(id: Id, p: TemplatePatch)
      modifies this`templates
      ensures templates == UpdateTemplates(old(templates), id, p)
    {
      templates := UpdateTemplates(templates, id, p);
    }

    method DeleteTemplate(id: Id)
      modifies this`templates
      ensures templates == RemoveWhere(old(templates), TemplateIdOf, id)
    {
      templates := RemoveWhere(templates, TemplateIdOf, id);
    }

    method AddTarget(d: TargetDraft, id: Id)
      modifies this`targets
      ensures targets == old(targets) + [NewTarget(d, id)]
    {
      targets := targets + [NewTarget(d, id)];
    }

    /** Appends the new targets at the end, in input order, one fresh id each. */
    method AddTargets(ds: seq<TargetDraft>, ids: seq<Id>)
      requires |ids| == |ds|
      modifies this`targets
      ensures targets == old(targets) + NewTargets(ds, ids)
      ensures |targets| == |old(targets)| + |ds|
    {
      targets := targets + NewTargets(ds, ids);
    }

    method UpdateTarget(id: Id, p: TargetPatch)
      modifies this`targets
      ensures targets == UpdateTargets(old(targets), id, p)
    {
      targets := UpdateTargets(targets, id, p);
    }

    method DeleteTarget(id: Id)
      modifies this`targets
      ensures targets == RemoveWhere(old(targets), TargetIdOf, id)
    {
      targets := RemoveWhere(targets, TargetIdOf, id);
    }

    method ClearTargets()
      modifies this`targets
      ensures targets == []
    {
      targets := [];
    }

    /** Puts the entry first and keeps at most `LogCap` entries. */
    method AddLog(d: LogDraft, id: Id, now: Time)
      modifies this`logs
      ensures logs == PrependCapped(NewLog(d, id, now), old(logs), LogCap)
    {
      logs := PrependCapped(NewLog(d, id, now), logs, LogCap);
    }

    method ClearLogs()
      modifies this`logs
      ensures logs == []
    {
      logs := [];
    }

    method SetRunning(running: bool)
      modifies this`isRunning
      ensures isRunning == running
    {
      isRunning := running;
    }

    method SetCurrentCampaign(id: Option<Id>)
      modifies this`currentCampaignId
      ensures currentCampaignId == id
    {
      currentCampaignId := id;
    }
  }
}
