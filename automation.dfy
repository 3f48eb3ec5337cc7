/**
 * The automation tab: the one-target-at-a-time dispatch loop, its start
 * and stop controls, the random delay and the clock display.
 *
 * The tab's callbacks close over the render in which they were created, so
 * each cycle works on a `View`, a snapshot of the store and of the tab's
 * settings, while its writes go to the live store and to the tab's fields.
 * `processNextTarget` is split at its `await`: `BeginCycle` is the part that
 * runs before it, `FinishCycle` the part that runs after it together with
 * the rest of `runAutomationCycle`. Timers are handle fields; the random
 * outcome, the random delay, ids and clock values are parameters.
 */
module Automation {
  import opened Wrappers
  import opened Seqs
  import opened Text
  import opened DataStore
  import Templates

  // ---------------------------------------------------------------------
  // The queue and the message

  predicate IsPending(t: Target)
  {
    t.status == Pending
  }

  /** `getPendingTargets`: the pending targets, in store order. */
  function PendingTargets(ts: seq<Target>): (r: seq<Target>)
    ensures forall i :: 0 <= i < |r| ==> r[i].status == Pending && r[i] in ts
    ensures forall i :: 0 <= i < |ts| && ts[i].status == Pending ==> ts[i] in r
  {
    Filter(ts, IsPending)
  }

  /** The queue is exactly the pending targets, in store order, and is empty exactly when no target is pending. */
  lemma PendingTargetsSpec(ts: seq<Target>)
    ensures IsSubsequence(PendingTargets(ts), ts)
    ensures forall t :: t in PendingTargets(ts) <==> t in ts && t.status == Pending
    ensures PendingTargets(ts) == [] <==> forall i :: 0 <= i < |ts| ==> ts[i].status != Pending
  {
    FilterIsSubsequence(ts, IsPending);
    forall t ensures t in PendingTargets(ts) <==> t in ts && t.status == Pending {
      FilterMembership(ts, IsPending, t);
    }
  }

  /** The value put in place of `{name}`: `target.fullName || target.username`. */
  function NameValue(t: Target): (v: string)
    ensures t.fullName.Some? && t.fullName.value != "" ==> v == t.fullName.value
    ensures (t.fullName.None? || t.fullName.value == "") ==> v == t.username
  {
    match t.fullName
    case Some(n) => if n != "" then n else t.username
    case None => t.username
  }

  /** The template content with every `{name}`, and then every `{username}`, replaced. */
  function RenderContent(content: string, t: Target): string
  {
    ReplaceAll(ReplaceAll(content, Templates.NamePattern, NameValue(t)), Templates.UsernamePattern, t.username)
  }

  /** The message of a cycle; without a template it is empty. */
  function RenderMessage(template: Option<Template>, t: Target): (m: string)
    ensures template.None? ==> m == ""
    ensures template.Some? ==> m == RenderContent(template.value.content, t)
  {
    match template
    case None => ""
    case Some(tp) => RenderContent(tp.content, t)
  }

  /** What a chunk of the content becomes in the message. */
  function Fill(c: string, t: Target): string
  {
    if c == Templates.NamePattern then NameValue(t)
    else if c == Templates.UsernamePattern then t.username
    else c
  }

  /**
   * A chunk, followed by `rest`, that both substitutions copy: neither
   * placeholder occurs where it starts in the text each substitution scans,
   * and no later character of it is a `{`.
   */
  predicate Kept(c: string, rest: string, t: Target)
  {
    && Copied(c, rest, Templates.NamePattern)
    && Copied(c, ReplaceAll(rest, Templates.NamePattern, NameValue(t)), Templates.UsernamePattern)
  }

  /**
   * The message, read chunk by chunk: brace-free text is kept, `{name}` and
   * `{username}` are filled in, and any other chunk, such as `{company}`,
   * is kept as it is. Where `{name}` is filled in, the name value must not
   * hold a `{` itself, because the `{username}` pass scans what the
   * `{name}` pass inserted.
   */
  lemma RenderChunk(x: string, c: string, rest: string, t: Target)
    requires '{' !in x
    requires c == Templates.NamePattern || c == Templates.UsernamePattern || Kept(c, rest, t)
    requires c == Templates.NamePattern ==> '{' !in NameValue(t)
    ensures RenderContent(x + c + rest, t) == x + Fill(c, t) + RenderContent(rest, t)
  {
    var np, up, v := Templates.NamePattern, Templates.UsernamePattern, NameValue(t);
    var r1 := ReplaceAll(rest, np, v);
    assert c == np || Copied(c, rest, np) by {
      if c == up {
        MismatchCopied(c, rest, np, 1);
      }
    }
    ReplaceAllStep(x, c, rest, np, v);
    var s1 := if c == np then v else c;
    assert s1 == up || s1 == [] || Copied(s1, r1, up) by {
      if c == np && s1 != [] {
        MismatchCopied(s1, r1, up, 0);
      }
    }
    ReplaceAllStep(x, s1, r1, up, t.username);
  }

  /**
   * Cutting the content before every `{` gives chunks the message keeps,
   * except those that start with `{name}` or `{username}`: a chunk that
   * starts with `{` and runs up to the end, or up to a `{` that does not
   * start `{name}`, is kept even when it is a lone `{` or an unfinished
   * placeholder.
   */
  lemma KeptChunk(c: string, rest: string, t: Target)
    requires c != [] && '{' !in c[1..]
    requires !StartsWith(c, Templates.NamePattern) && !StartsWith(c, Templates.UsernamePattern)
    requires rest == [] || (rest[0] == '{' && !StartsWith(rest, Templates.NamePattern))
    ensures Kept(c, rest, t)
  {
    var np, up, v := Templates.NamePattern, Templates.UsernamePattern, NameValue(t);
    var r1 := ReplaceAll(rest, np, v);
    if rest != [] {
      ReplaceAllFront(rest, np, v);
      assert r1 != [] && r1[0] == '{';
    }
    assert forall k :: 1 <= k < |np| ==> np[k] != '{';
    NextCharCopied(c, rest, np);
    assert forall k :: 1 <= k < |up| ==> up[k] != '{';
    NextCharCopied(c, r1, up);
  }

  /**
   * A doubled brace around `{name}` sends the name value between single
   * braces, unless that value is `username`, which the second pass then
   * reads as `{username}`.
   */
  lemma RenderDoubleBrace(t: Target)
    requires '{' !in NameValue(t) && '}' !in NameValue(t) && NameValue(t) != "username"
    ensures RenderContent("{{name}}", t) == "{" + NameValue(t) + "}"
  {
    RenderOuterBrace(t);
    RenderNameThenBrace(t);
  }

  /** The outer `{` of `{{name}}` is kept when the filled-in text after it cannot complete `{username}`. */
  lemma RenderOuterBrace(t: Target)
    requires '}' !in NameValue(t) && NameValue(t) != "username"
    ensures RenderContent("{{name}}", t) == "{" + RenderContent("{name}}", t)
  {
    var np, v := Templates.NamePattern, NameValue(t);
    var inner := "{name}}";
    assert inner == np + "}";
    ReplaceAllAtFront(np, "}", v);
    ReplaceAllShort("}", np, v);
    assert ReplaceAll(inner, np, v) == v + "}";
    NextCharCopied("{", inner, np);
    BracedNotUsername(v);
    RenderChunk("", "{", inner, t);
    assert "" + "{" + inner == "{{name}}";
  }

  /** `{name}` followed by a closing brace. */
  lemma RenderNameThenBrace(t: Target)
    requires '{' !in NameValue(t)
    ensures RenderContent("{name}}", t) == NameValue(t) + "}"
  {
    var np := Templates.NamePattern;
    RenderChunk("", np, "}", t);
    assert "" + np + "}" == "{name}}";
    RenderPlain("}", t);
  }

  /** A value without `}` that is not `username` does not make `{username}` between braces. */
  lemma BracedNotUsername(v: string)
    requires '}' !in v && v != "username"
    ensures Copied("{", v + "}", Templates.UsernamePattern)
  {
    var up, s := Templates.UsernamePattern, "{" + v + "}";
    assert "{" + (v + "}") == s;
    if |s| >= |up| {
      if |v| >= 9 {
        assert s[0..|up|][9] == v[8];
      } else {
        assert |v| == 8 && s[0..|up|] == s;
        assert s[1..9] == v;
        assert up[1..9] == "username";
      }
    }
  }

  /** An unfinished placeholder at the end is sent as it is. */
  lemma RenderTrailingBrace(t: Target)
    ensures RenderContent("Hi {", t) == "Hi {"
  {
    KeptChunk("{", "", t);
    RenderChunk("Hi ", "{", "", t);
    assert "Hi " + "{" + "" == "Hi {";
    RenderPlain("", t);
  }

  /** Content without any `{` is sent as it is. */
  lemma RenderPlain(x: string, t: Target)
    requires '{' !in x
    ensures RenderContent(x, t) == x
  {
    ReplaceAllPassesOver(x, "", Templates.NamePattern, NameValue(t));
    ReplaceAllPassesOver(x, "", Templates.UsernamePattern, t.username);
    assert x + "" == x;
  }

  /** A full name that is itself `{username}` is replaced again by the second pass. */
  lemma NameValueIsRescanned(t: Target)
    requires t.fullName == Some(Templates.UsernamePattern)
    ensures RenderContent(Templates.NamePattern, t) == t.username
  {
    var np, up := Templates.NamePattern, Templates.UsernamePattern;
    ReplaceAllAtFront(np, "", up);
    assert np + "" == np && up + "" == up;
    ReplaceAllAtFront(up, "", t.username);
    assert t.username + "" == t.username;
  }

  // ---------------------------------------------------------------------
  // Delay and clock

  /** `Math.ceil(d / 1000)` on an integer number of milliseconds. */
  function CeilSeconds(d: int): (s: int)
    ensures (s - 1) * 1000 < d <= s * 1000
  {
    (d + 999) / 1000
  }

  /** `Math.floor(x)` is within one below `x`, so `floor(r * w)` lies in `[0, w - 1]`. */
  lemma FloorOfFraction(r: real, w: int)
    requires 0.0 <= r < 1.0 && w >= 1
    ensures 0 <= (r * w as real).Floor <= w - 1
  {
    var x := r * w as real;
    assert 0.0 <= x;
    assert x < w as real by {
      assert (1.0 - r) * w as real > 0.0;
    }
  }

  /**
   * `getRandomDelay`, in milliseconds, for the random value `r` in [0, 1):
   * one minute without a campaign, otherwise a whole number of milliseconds
   * between the campaign's bounds, given in minutes.
   */
  function RandomDelay(c: Option<Campaign>, r: real): (d: int)
    requires 0.0 <= r < 1.0
    ensures c.None? ==> d == 60000
    ensures c.Some? && c.value.delayMin <= c.value.delayMax ==>
      c.value.delayMin * 60000 <= d <= c.value.delayMax * 60000
  {
    match c
    case None => 60000
    case Some(k) =>
      var lo := k.delayMin * 60 * 1000;
      var hi := k.delayMax * 60 * 1000;
      if lo <= hi then
        FloorOfFraction(r, hi - lo + 1);
        (r * (hi - lo + 1) as real).Floor + lo
      else
        (r * (hi - lo + 1) as real).Floor + lo
  }

  /** `n.toString().padStart(2, "0")` */
  function Pad2(n: nat): string
  {
    PadStart(NatToString(n), 2, '0')
  }

  /** `formatTime`: `m:ss` below an hour, `h:mm:ss` from an hour on. */
  function FormatTime(seconds: nat): string
  {
    var hrs := seconds / 3600;
    var mins := (seconds % 3600) / 60;
    var secs := seconds % 60;
    if hrs > 0 then NatToString(hrs) + ":" + Pad2(mins) + ":" + Pad2(secs)
    else NatToString(mins) + ":" + Pad2(secs)
  }

  /** The value of a non-empty string of decimal digits. */
  function ReadDigits(s: string): Option<nat>
  {
    if s != [] && forall i :: 0 <= i < |s| ==> DigitValue(s[i], 10).Some? then Some(DigitsValue(s, 10))
    else None
  }

  /** Reads a clock display back as a number of seconds: `m:ss` or `h:mm:ss`. */
  function ParseClock(c: string): Option<nat>
  {
    var parts := Split(c, ':');
    if |parts| == 2 then
      match (ReadDigits(parts[0]), ReadDigits(parts[1]))
      case (Some(m), Some(s)) => Some(m * 60 + s)
      case _ => None
    else if |parts| == 3 then
      match (ReadDigits(parts[0]), ReadDigits(parts[1]), ReadDigits(parts[2]))
      case (Some(h), Some(m), Some(s)) => Some(h * 3600 + m * 60 + s)
      case _ => None
    else None
  }

  lemma ReadNatToString(n: nat)
    ensures ReadDigits(NatToString(n)) == Some(n)
    ensures ':' !in NatToString(n)
  {
    NatToStringValue(n);
  }

  /** Two-digit padding is read back as the number, and takes exactly two digits below 100. */
  lemma ReadPad2(n: nat)
    requires n < 100
    ensures ReadDigits(Pad2(n)) == Some(n) && |Pad2(n)| == 2
    ensures ':' !in Pad2(n)
  {
    NatToStringValue(n);
    if n < 10 {
      var d := NatToString(n);
      assert Pad2(n) == ['0'] + d;
      var p := Pad2(n);
      assert p[..1] == "0";
      assert DigitsValue(p[..1], 10) == 0 by {
        assert p[..1][..0] == [];
      }
    }
  }

  /** Two colon-free fields joined by a colon split back into those fields. */
  lemma SplitTwoFields(a: string, b: string)
    requires ':' !in a && ':' !in b
    ensures Split(a + ":" + b, ':') == [a, b]
  {
    var ps := [a, b];
    assert ps[1..] == [b];
    assert Join(ps, ':') == a + ":" + b;
    SplitJoin(ps, ':');
  }

  /** Three colon-free fields joined by colons split back into those fields. */
  lemma SplitThreeFields(a: string, b: string, c: string)
    requires ':' !in a && ':' !in b && ':' !in c
    ensures Split(a + ":" + b + ":" + c, ':') == [a, b, c]
  {
    var ps := [a, b, c];
    assert ps[1..] == [b, c] && ps[1..][1..] == [c];
    assert Join(ps[1..], ':') == b + ":" + c;
    assert Join(ps, ':') == a + ":" + b + ":" + c;
    SplitJoin(ps, ':');
  }

  /** Hours, minutes and seconds recompose the number of seconds. */
  lemma ClockArithmetic(seconds: nat)
    ensures (seconds / 3600) * 3600 + ((seconds % 3600) / 60) * 60 + seconds % 60 == seconds
    ensures (seconds % 3600) / 60 < 60 && seconds % 60 < 60
  {
    var r := seconds % 3600;
    assert seconds == (seconds / 3600) * 3600 + r;
    assert r == (r / 60) * 60 + r % 60;
    assert r % 60 == seconds % 60 by {
      assert seconds == ((seconds / 3600) * 60 + r / 60) * 60 + r % 60;
    }
  }

  /** The clock shows its hours only from an hour on; minutes and seconds are below 60 and always take two digits after a colon. */
  lemma FormatTimeFields(seconds: nat)
    ensures var parts, hrs, mins, secs := Split(FormatTime(seconds), ':'), seconds / 3600, (seconds % 3600) / 60, seconds % 60;
      && hrs * 3600 + mins * 60 + secs == seconds && mins < 60 && secs < 60
      && (hrs > 0 ==> parts == [NatToString(hrs), Pad2(mins), Pad2(secs)] && |parts[1]| == 2 && |parts[2]| == 2)
      && (hrs == 0 ==> parts == [NatToString(mins), Pad2(secs)] && |parts[1]| == 2)
  {
    var hrs, mins, secs := seconds / 3600, (seconds % 3600) / 60, seconds % 60;
    ClockArithmetic(seconds);
    ReadNatToString(hrs);
    ReadNatToString(mins);
    ReadPad2(mins);
    ReadPad2(secs);
    if hrs > 0 {
      SplitThreeFields(NatToString(hrs), Pad2(mins), Pad2(secs));
    } else {
      SplitTwoFields(NatToString(mins), Pad2(secs));
    }
  }

  /** Reading the clock display back gives the number of seconds it was made from. */
  lemma FormatTimeRoundTrip(seconds: nat)
    ensures ParseClock(FormatTime(seconds)) == Some(seconds)
  {
    FormatTimeFields(seconds);
    ReadNatToString(seconds / 3600);
    ReadNatToString((seconds % 3600) / 60);
    ReadPad2((seconds % 3600) / 60);
    ReadPad2(seconds % 60);
  }

  // ---------------------------------------------------------------------
  // One cycle, as pure functions

  /** The settings and store contents a cycle's callbacks closed over. */
  datatype View = View(
    selectedCampaignId: Id,
    campaign: Option<Campaign>,
    targets: seq<Target>,
    templates: seq<Template>,
    todaySent: int,
    dailyLimit: int,
    infiniteMode: bool,
    autoRetry: bool)

  /** The template of the view's campaign, if both exist. */
  function TemplateOf(v: View): Option<Template>
  {
    match v.campaign
    case None => None
    case Some(c) => Find(v.templates, TemplateIdOf, c.templateId)
  }

  /**
   * How a cycle ends before or at its `await`: another cycle is still in
   * flight (the guard returns `undefined`), the daily quota is used up, the
   * queue is empty, or a message goes to the first pending target.
   */
  datatype Step = Busy | QuotaReached | QueueEmpty | Sending(target: Target, message: string)

  /** The decision `processNextTarget` takes before its `await`. */
  function Dispatch(v: View, processing: bool): (s: Step)
    ensures processing ==> s == Busy
    ensures !processing && v.todaySent >= v.dailyLimit ==> s == QuotaReached
    ensures !processing && v.todaySent < v.dailyLimit ==> (s == QueueEmpty <==> PendingTargets(v.targets) == [])
    ensures s.Sending? ==> s.target == PendingTargets(v.targets)[0] && s.message == RenderMessage(TemplateOf(v), s.target)
    ensures s.Sending? <==> !processing && v.todaySent < v.dailyLimit && PendingTargets(v.targets) != []
  {
    if processing then Busy
    else if v.todaySent >= v.dailyLimit then QuotaReached
    else if PendingTargets(v.targets) == [] then QueueEmpty
    else
      var t := PendingTargets(v.targets)[0];
      Sending(t, RenderMessage(TemplateOf(v), t))
  }

  /** The target a cycle sends to is the first pending target in store order. */
  lemma DispatchFirstPending(v: View, processing: bool) returns (k: nat)
    requires Dispatch(v, processing).Sending?
    ensures k < |v.targets| && v.targets[k] == Dispatch(v, processing).target
    ensures v.targets[k].status == Pending
    ensures forall j :: 0 <= j < k ==> v.targets[j].status != Pending
  {
    k := FilterHead(v.targets, IsPending);
  }

  /** Active hours are shown, not enforced: the campaign's start and end times never change what a cycle does. */
  lemma DispatchIgnoresActiveHours(v: View, processing: bool, startTime: Option<string>, endTime: Option<string>)
    requires v.campaign.Some?
    ensures var c := v.campaign.value;
      Dispatch(v.(campaign := Some(c.(startTime := startTime, endTime := endTime))), processing) == Dispatch(v, processing)
  {
  }

  /** Whether `runAutomationCycle` goes on: only an empty queue in infinite mode and a send do. */
  function Continues(s: Step, infiniteMode: bool): bool
  {
    match s
    case Busy => false
    case QuotaReached => false
    case QueueEmpty => infiniteMode
    case Sending(_, _) => true
  }

  /** The text of the error recorded for a failed send. */
  const FailureText := "Gagal mengirim DM"

  /** The update a cycle applies to its target: sent with a time, back to pending for a retry, or failed. */
  function ResolvePatch(success: bool, autoRetry: bool, now: Time): (p: TargetPatch)
    ensures p.id.None? && p.username.None? && p.fullName.None? && p.followers.None? && p.kind.None?
    ensures success ==> p.status == Some(Sent) && p.sentAt == Some(Some(now))
    ensures !success && autoRetry ==> p.status == Some(Pending) && p.sentAt.None?
    ensures !success && !autoRetry ==> p.status == Some(Failed) && p.sentAt.None?
  {
    if success then TargetSentPatch(now)
    else if autoRetry then TargetStatusPatch(Pending)
    else TargetStatusPatch(Failed)
  }

  /** The campaign id logged: `selectedCampaign?.id || ""`. */
  function LoggedCampaignId(v: View): Id
  {
    match v.campaign
    case None => ""
    case Some(c) => c.id
  }

  /** The log entry a cycle adds: one for a send, one for a failure without retry, none for a retry. */
  function OutcomeLog(v: View, t: Target, message: string, success: bool): (d: Option<LogDraft>)
    ensures d.Some? <==> success || !v.autoRetry
    ensures d.Some? ==> (d.value.targetUsername == t.username && d.value.message == message
      && d.value.campaignId == LoggedCampaignId(v))
    ensures success ==> d.value.status == LogSent && d.value.error.None?
    ensures !success && !v.autoRetry ==> d.value.status == LogFailed && d.value.error == Some(FailureText)
  {
    if success then Some(LogDraft(LoggedCampaignId(v), t.username, message, LogSent, None))
    else if v.autoRetry then None
    else Some(LogDraft(LoggedCampaignId(v), t.username, message, LogFailed, Some(FailureText)))
  }

  /** The log list after a cycle. */
  function LogsAfter(logs: seq<Log>, entry: Option<LogDraft>, id: Id, now: Time): (r: seq<Log>)
    ensures entry.None? ==> r == logs
    ensures entry.Some? ==> (|r| == Min(|logs| + 1, LogCap) && r[0] == NewLog(entry.value, id, now)
      && r[1..] == logs[..|r| - 1])
  {
    match entry
    case None => logs
    case Some(d) => PrependCapped(NewLog(d, id, now), logs, LogCap)
  }

  /** The campaign list after a cycle: a send sets the campaign's total to the snapshot's total plus one. */
  function CampaignsAfter(cs: seq<Campaign>, v: View, success: bool): seq<Campaign>
  {
    if success && v.campaign.Some? then
      UpdateCampaigns(cs, v.campaign.value.id, TotalSentPatch(v.campaign.value.totalSent + 1))
    else cs
  }

  /**
   * A send adds one to the campaign's total, counted from the snapshot, and
   * changes nothing else about that campaign or any other; a failure leaves
   * the campaigns alone.
   */
  lemma CampaignsAfterSend(cs: seq<Campaign>, v: View)
    requires v.campaign.Some?
    ensures var r, c := CampaignsAfter(cs, v, true), v.campaign.value;
      && |r| == |cs|
      && (forall i :: 0 <= i < |cs| && cs[i].id == c.id ==> r[i] == cs[i].(totalSent := c.totalSent + 1))
      && (forall i :: 0 <= i < |cs| && cs[i].id != c.id ==> r[i] == cs[i])
    ensures CampaignsAfter(cs, v, false) == cs
  {
  }

  /** Without a selected campaign a send changes no campaign. */
  lemma CampaignsAfterNoCampaign(cs: seq<Campaign>, v: View, success: bool)
    requires v.campaign.None?
    ensures CampaignsAfter(cs, v, success) == cs
  {
  }

  /** The session counters the tab shows. */
  datatype Stats = Stats(sent: int, failed: int, total: int, queued: int)

  /** The session counters after a cycle: a send counts as sent, a failure without retry as failed, a retry as nothing. */
  function Tally(s: Stats, success: bool, autoRetry: bool): (r: Stats)
    ensures r.total == s.total && r.queued == s.queued
    ensures r.sent == s.sent + (if success then 1 else 0)
    ensures r.failed == s.failed + (if !success && !autoRetry then 1 else 0)
  {
    if success then s.(sent := s.sent + 1)
    else if autoRetry then s
    else s.(failed := s.failed + 1)
  }

  /** Target ids are fresh UUIDs, so no two targets share one. */
  predicate UniqueIds(ts: seq<Target>)
  {
    forall i, j :: 0 <= i < j < |ts| ==> ts[i].id != ts[j].id
  }

  /**
   * A cycle changes only its target, at its own position: its status (and,
   * for a send, its time) is set and every other field and target is kept.
   * A retry sets a pending target back to pending, so nothing changes at all
   * and the same target stays at the head of the queue.
   */
  lemma OutcomeTouchesOnlyTarget(ts: seq<Target>, k: nat, success: bool, autoRetry: bool, now: Time)
    requires k < |ts| && UniqueIds(ts) && ts[k].status == Pending
    ensures var r := UpdateTargets(ts, ts[k].id, ResolvePatch(success, autoRetry, now));
      && |r| == |ts|
      && (forall i :: 0 <= i < |ts| && i != k ==> r[i] == ts[i])
      && r[k].id == ts[k].id && r[k].username == ts[k].username && r[k].fullName == ts[k].fullName
      && r[k].followers == ts[k].followers && r[k].kind == ts[k].kind
      && (success ==> r[k].status == Sent && r[k].sentAt == Some(now))
      && (!success && !autoRetry ==> r[k].status == Failed && r[k].sentAt == ts[k].sentAt)
      && (!success && autoRetry ==> r == ts)
  {
    var p := ResolvePatch(success, autoRetry, now);
    var r := UpdateTargets(ts, ts[k].id, p);
    if !success && autoRetry {
      assert forall i :: 0 <= i < |ts| ==> r[i] == ts[i] by {
        forall i | 0 <= i < |ts| ensures r[i] == ts[i] {
          if i != k {
            assert ts[i].id != ts[k].id by {
              if i < k {} else {}
            }
          }
        }
      }
    } else {
      forall i | 0 <= i < |ts| && i != k ensures r[i] == ts[i] {
        assert ts[i].id != ts[k].id by {
          if i < k {} else {}
        }
      }
    }
  }

  /**
   * With the live store, a send or a failure without retry takes the head
   * off the queue: the next pending target is the second one.
   */
  lemma {:induction false} ResolvedHeadLeavesQueue(ts: seq<Target>, p: TargetPatch)
    requires UniqueIds(ts) && PendingTargets(ts) != []
    requires p.id.None? && p.status.Some? && p.status.value != Pending
    ensures PendingTargets(UpdateTargets(ts, PendingTargets(ts)[0].id, p)) == PendingTargets(ts)[1..]
  {
    var h := PendingTargets(ts)[0];
    var u := UpdateTargets(ts, h.id, p);
    var k := FilterHead(ts, IsPending);
    assert u == [u[0]] + UpdateTargets(ts[1..], h.id, p);
    if ts[0].status == Pending {
      assert k == 0;
      forall j | 0 <= j < |ts[1..]| ensures ts[1..][j].id != h.id {
        assert ts[1..][j] == ts[j + 1];
      }
      UpdateAbsent(ts[1..], TargetIdOf, h.id, t => MergeTarget(t, p));
      assert UpdateTargets(ts[1..], h.id, p) == ts[1..];
      assert u[0].status != Pending;
      assert PendingTargets(u) == PendingTargets(ts[1..]);
    } else {
      assert k > 0 && ts[0].id != h.id;
      assert u[0] == ts[0];
      assert PendingTargets(ts) == PendingTargets(ts[1..]);
      assert UniqueIds(ts[1..]) by {
        forall i, j | 0 <= i < j < |ts[1..]| ensures ts[1..][i].id != ts[1..][j].id {
          assert ts[1..][i] == ts[i + 1] && ts[1..][j] == ts[j + 1];
        }
      }
      ResolvedHeadLeavesQueue(ts[1..], p);
      assert PendingTargets(u) == PendingTargets(UpdateTargets(ts[1..], h.id, p));
    }
  }

  /** Stopping pauses the selected campaign, if one is selected. */
  function PausedIfSelected(cs: seq<Campaign>, campaignId: Id): seq<Campaign>
  {
    if campaignId == "" then cs else UpdateCampaigns(cs, campaignId, CampaignStatusPatch(Paused))
  }

  /** Pausing twice is pausing once, so a second stop leaves the campaigns as the first left them. */
  lemma PausedIfSelectedIdempotent(cs: seq<Campaign>, campaignId: Id)
    ensures PausedIfSelected(PausedIfSelected(cs, campaignId), campaignId) == PausedIfSelected(cs, campaignId)
  {
    SetCampaignStatusIdempotent(cs, campaignId, Paused);
  }

  type Handle = nat

  // ---------------------------------------------------------------------
  // The tab

  class AutomationTab {
    const store: Store

    var selectedCampaignId: Id
    var countdown: int
    var currentTarget: Option<string>
    var stats: Stats
    var infiniteMode: bool
    var autoRetry: bool
    var sessionTime: nat
    var dailyLimit: int
    var todaySent: int

    var automationTimer: Option<Handle>
    var countdownTimer: Option<Handle>
    var sessionTimer: Option<Handle>
    var isProcessing: bool
    var currentDelay: int

    /** The tab as first rendered: nothing selected, infinite mode and retries on, a limit of 100 a day. */
    constructor (store: Store)
      ensures this.store == store
      ensures selectedCampaignId == "" && countdown == 0 && currentTarget.None?
      ensures stats == Stats(0, 0, 0, 0) && infiniteMode && autoRetry
      ensures sessionTime == 0 && dailyLimit == 100 && todaySent == 0
      ensures automationTimer.None? && countdownTimer.None? && sessionTimer.None?
      ensures !isProcessing && currentDelay == 0
    {
      this.store := store;
      selectedCampaignId := "";
      countdown := 0;
      currentTarget := None;
      stats := Stats(0, 0, 0, 0);
      infiniteMode := true;
      autoRetry := true;
      sessionTime := 0;
      dailyLimit := 100;
      todaySent := 0;
      automationTimer := None;
      countdownTimer := None;
      sessionTimer := None;
      isProcessing := false;
      currentDelay := 0;
    }

    /** `selectedCampaign`: the campaign with the selected id, if any. */
    function SelectedCampaign(): Option<Campaign>
      reads this, store
    {
      Find(store.campaigns, CampaignIdOf, selectedCampaignId)
    }

    /** What a callback created now would close over. */
    function CurrentView(): View
      reads this, store
    {
      View(selectedCampaignId, SelectedCampaign(), store.targets, store.templates,
           todaySent, dailyLimit, infiniteMode, autoRetry)
    }

    /** The state `stopAutomation` leaves behind. */
    predicate Stopped()
      reads this, store
    {
      && !store.isRunning && store.currentCampaignId.None?
      && currentTarget.None? && countdown == 0 && !isProcessing
      && automationTimer.None? && countdownTimer.None? && sessionTimer.None?
    }

    method SelectCampaign(id: Id)
      modifies this`selectedCampaignId
      ensures selectedCampaignId == id
    {
      selectedCampaignId := id;
    }

    method SetDailyLimit(limit: int)
      modifies this`dailyLimit
      ensures dailyLimit == limit
    {
      dailyLimit := limit;
    }

    method SetInfiniteMode(on: bool)
      modifies this`infiniteMode
      ensures infiniteMode == on
    {
      infiniteMode := on;
    }

    method SetAutoRetry(on: bool)
      modifies this`autoRetry
      ensures autoRetry == on
    {
      autoRetry := on;
    }

    /**
     * `processNextTarget` up to its `await`: the guard, the quota, the
     * queue, and for a send the processing flag and the current target.
     * It writes nothing to the store.
     */
    method BeginCycle(v: View) returns (step: Step)
      modifies this`isProcessing, this`currentTarget
      ensures step == Dispatch(v, old(isProcessing))
      ensures step.Sending? ==> isProcessing && currentTarget == Some(step.target.username)
      ensures !step.Sending? ==> isProcessing == old(isProcessing) && currentTarget == old(currentTarget)
    {
      step := Dispatch(v, isProcessing);
      if step.Sending? {
        isProcessing := true;
        currentTarget := Some(step.target.username);
      }
    }

    /** `processNextTarget` after its `await`, for a send whose outcome is `success`. */
    method ApplyOutcome(v: View, target: Target, message: string, success: bool, now: Time, logId: Id)
      modifies store`targets, store`logs, store`campaigns
      modifies this`stats, this`todaySent, this`currentTarget, this`isProcessing
      ensures store.targets == UpdateTargets(old(store.targets), target.id, ResolvePatch(success, v.autoRetry, now))
      ensures store.logs == LogsAfter(old(store.logs), OutcomeLog(v, target, message, success), logId, now)
      ensures store.campaigns == CampaignsAfter(old(store.campaigns), v, success)
      ensures stats == Tally(old(stats), success, v.autoRetry)
      ensures todaySent == old(todaySent) + (if success then 1 else 0)
      ensures currentTarget.None? && !isProcessing
    {
      store.UpdateTarget(target.id, ResolvePatch(success, v.autoRetry, now));
      var entry := OutcomeLog(v, target, message, success);
      if entry.Some? {
        store.AddLog(entry.value, logId, now);
      }
      if success && v.campaign.Some? {
        store.UpdateCampaign(v.campaign.value.id, TotalSentPatch(v.campaign.value.totalSent + 1));
      }
      stats := Tally(stats, success, v.autoRetry);
      if success {
        todaySent := todaySent + 1;
      }
      currentTarget := None;
      isProcessing := false;
    }

    /** Arms the next cycle: the random delay, the countdown in whole seconds, and the cycle timer. */
    method ScheduleNext(v: View, r: real, handle: Handle)
      requires 0.0 <= r < 1.0
      modifies this`currentDelay, this`countdown, this`automationTimer
      ensures currentDelay == RandomDelay(v.campaign, r)
      ensures countdown == CeilSeconds(currentDelay)
      ensures automationTimer == Some(handle)
    {
      currentDelay := RandomDelay(v.campaign, r);
      countdown := CeilSeconds(currentDelay);
      automationTimer := Some(handle);
    }

    /**
     * The rest of `runAutomationCycle` once `processNextTarget` resolves:
     * the outcome of a send, then either a stop (with the campaign id the
     * callback closed over) or the next cycle armed.
     */
    method FinishCycle(v: View, step: Step, success: bool, now: Time, logId: Id, r: real, handle: Handle)
      returns (continues: bool)
      requires 0.0 <= r < 1.0
      modifies store`targets, store`logs, store`campaigns, store`isRunning, store`currentCampaignId
      modifies this`stats, this`todaySent, this`currentTarget, this`isProcessing, this`countdown
      modifies this`currentDelay, this`automationTimer, this`countdownTimer, this`sessionTimer
      ensures continues == Continues(step, v.infiniteMode)
      ensures step.Sending? ==>
        && store.targets == UpdateTargets(old(store.targets), step.target.id, ResolvePatch(success, v.autoRetry, now))
        && store.logs == LogsAfter(old(store.logs), OutcomeLog(v, step.target, step.message, success), logId, now)
        && store.campaigns == CampaignsAfter(old(store.campaigns), v, success)
        && stats == Tally(old(stats), success, v.autoRetry)
        && todaySent == old(todaySent) + (if success then 1 else 0)
        && currentTarget.None? && !isProcessing
      ensures !step.Sending? ==>
        store.targets == old(store.targets) && store.logs == old(store.logs)
        && stats == old(stats) && todaySent == old(todaySent)
      ensures continues ==>
        && currentDelay == RandomDelay(v.campaign, r) && countdown == CeilSeconds(currentDelay)
        && automationTimer == Some(handle)
        && store.isRunning == old(store.isRunning) && store.currentCampaignId == old(store.currentCampaignId)
        && countdownTimer == old(countdownTimer) && sessionTimer == old(sessionTimer)
      ensures continues && !step.Sending? ==>
        store.campaigns == old(store.campaigns) && isProcessing == old(isProcessing)
        && currentTarget == old(currentTarget)
      ensures !continues ==>
        Stopped() && store.campaigns == PausedIfSelected(old(store.campaigns), v.selectedCampaignId)
        && currentDelay == old(currentDelay)
    {
      if step.Sending? {
        ApplyOutcome(v, step.target, step.message, success, now, logId);
      }
      continues := Continues(step, v.infiniteMode);
      if !continues {
        StopAutomation(v.selectedCampaignId);
      } else {
        ScheduleNext(v, r, handle);
      }
    }

    /**
     * `startAutomation`: with no campaign selected, or with an empty queue
     * outside infinite mode, nothing happens. Otherwise the session starts
     * and the first cycle runs up to its `await` on the current view, which
     * is returned for the cycles that follow.
     */
    method StartAutomation(sessionHandle: Handle, countdownHandle: Handle) returns (started: bool, v: View, step: Step)
      modifies store`isRunning, store`currentCampaignId, store`campaigns
      modifies this`stats, this`sessionTime, this`sessionTimer, this`countdownTimer
      modifies this`isProcessing, this`currentTarget
      ensures v == old(CurrentView())
      ensures started <==> v.selectedCampaignId != "" && (PendingTargets(v.targets) != [] || v.infiniteMode)
      ensures !started ==> unchanged(this) && unchanged(store)
      ensures started ==>
        && store.isRunning && store.currentCampaignId == Some(v.selectedCampaignId)
        && store.campaigns == UpdateCampaigns(old(store.campaigns), v.selectedCampaignId, CampaignStatusPatch(Active))
        && stats == Stats(0, 0, |PendingTargets(v.targets)|, |PendingTargets(v.targets)|)
        && sessionTime == 0 && sessionTimer == Some(sessionHandle) && countdownTimer == Some(countdownHandle)
        && step == Dispatch(v, old(isProcessing))
        && (step.Sending? ==> isProcessing && currentTarget == Some(step.target.username))
        && (!step.Sending? ==> isProcessing == old(isProcessing) && currentTarget == old(currentTarget))
    {
      v := CurrentView();
      step := Busy;
      if selectedCampaignId == "" {
        return false, v, step;
      }
      var pending := PendingTargets(v.targets);
      if |pending| == 0 && !infiniteMode {
        return false, v, step;
      }
      store.SetRunning(true);
      store.SetCurrentCampaign(Some(selectedCampaignId));
      store.UpdateCampaign(selectedCampaignId, CampaignStatusPatch(Active));
      stats := Stats(0, 0, |pending|, |pending|);
      sessionTime := 0;
      sessionTimer := Some(sessionHandle);
      countdownTimer := Some(countdownHandle);
      step := BeginCycle(v);
      started := true;
    }

    /**
     * `stopAutomation`, for the campaign id its callback closed over: the
     * session is marked stopped, that campaign paused and every timer
     * cleared. It cannot reach a send already waiting on its `await`.
     */
    method StopAutomation(campaignId: Id)
      modifies store`isRunning, store`currentCampaignId, store`campaigns
      modifies this`currentTarget, this`countdown, this`isProcessing
      modifies this`automationTimer, this`countdownTimer, this`sessionTimer
      ensures Stopped()
      ensures store.campaigns == PausedIfSelected(old(store.campaigns), campaignId)
    {
      store.SetRunning(false);
      store.SetCurrentCampaign(None);
      currentTarget := None;
      countdown := 0;
      isProcessing := false;
      if campaignId != "" {
        store.UpdateCampaign(campaignId, CampaignStatusPatch(Paused));
      }
      automationTimer := None;
      countdownTimer := None;
      sessionTimer := None;
    }

    /** One tick of the countdown interval: down by one second, never below zero. */
    method CountdownTick()
      modifies this`countdown
      ensures countdown == if old(countdown) - 1 > 0 then old(countdown) - 1 else 0
      ensures countdown >= 0
    {
      countdown := if countdown - 1 > 0 then countdown - 1 else 0;
    }

    /** One tick of the session interval. */
    method SessionTick()
      modifies this`sessionTime
      ensures sessionTime == old(sessionTime) + 1
    {
      sessionTime := sessionTime + 1;
    }

    /** The effect run whenever the targets change: the queue size, and the total as queue plus what was processed. */
    method SyncQueueStats()
      modifies this`stats
      ensures stats.queued == |PendingTargets(store.targets)|
      ensures stats.total == stats.queued + stats.sent + stats.failed
      ensures stats.sent == old(stats.sent) && stats.failed == old(stats.failed)
    {
      var n := |PendingTargets(store.targets)|;
      stats := stats.(queued := n, total := n + stats.sent + stats.failed);
    }

    // -------------------------------------------------------------------
    // Runs of several steps

    /** Stopping a second time leaves the state the first stop left. */
    method StopAutomationTwice(campaignId: Id)
      modifies store`isRunning, store`currentCampaignId, store`campaigns
      modifies this`currentTarget, this`countdown, this`isProcessing
      modifies this`automationTimer, this`countdownTimer, this`sessionTimer
      ensures Stopped()
      ensures store.campaigns == PausedIfSelected(old(store.campaigns), campaignId)
    {
      StopAutomation(campaignId);
      StopAutomation(campaignId);
      PausedIfSelectedIdempotent(old(store.campaigns), campaignId);
    }

    /**
     * Two cycles of the loop as written: the timer calls back into the
     * callback of the render that started the session, so the second cycle
     * sees the same snapshot and sends to the same target again, although
     * the store already records it as sent.
     */
    method FrozenCycleRepeats(v: View, now: Time, logId: Id, r: real, handle: Handle)
      returns (first: Step, second: Step)
      requires 0.0 <= r < 1.0
      requires !isProcessing && v.todaySent < v.dailyLimit && PendingTargets(v.targets) != []
      requires v.targets == store.targets
      modifies store`targets, store`logs, store`campaigns, store`isRunning, store`currentCampaignId
      modifies this`stats, this`todaySent, this`currentTarget, this`isProcessing, this`countdown
      modifies this`currentDelay, this`automationTimer, this`countdownTimer, this`sessionTimer
      ensures first.Sending? && second == first
      ensures forall i :: 0 <= i < |store.targets| && store.targets[i].id == first.target.id ==>
        store.targets[i].status == Sent
    {
      first := BeginCycle(v);
      var c := FinishCycle(v, first, true, now, logId, r, handle);
      second := BeginCycle(v);
    }

    /**
     * One cycle on the live state: the callback reads the store and the
     * settings as they are now. A send, or a failure without retry, takes
     * the target off the queue, so the next cycle moves on to the next one.
     */
    method RunCycle(success: bool, now: Time, logId: Id, r: real, handle: Handle)
      returns (step: Step, continues: bool)
      requires 0.0 <= r < 1.0
      modifies store`targets, store`logs, store`campaigns, store`isRunning, store`currentCampaignId
      modifies this`stats, this`todaySent, this`currentTarget, this`isProcessing, this`countdown
      modifies this`currentDelay, this`automationTimer, this`countdownTimer, this`sessionTimer
      ensures step == Dispatch(old(CurrentView()), old(isProcessing))
      ensures step.Sending? && (success || !old(autoRetry)) && UniqueIds(old(store.targets)) ==>
        PendingTargets(store.targets) == PendingTargets(old(store.targets))[1..]
      ensures step.Sending? && !success && old(autoRetry) && UniqueIds(old(store.targets)) ==>
        store.targets == old(store.targets)
    {
      var v := CurrentView();
      step := BeginCycle(v);
      continues := FinishCycle(v, step, success, now, logId, r, handle);
      if step.Sending? && UniqueIds(v.targets) {
        if success || !v.autoRetry {
          ResolvedHeadLeavesQueue(v.targets, ResolvePatch(success, v.autoRetry, now));
        } else {
          var k := DispatchFirstPending(v, false);
          OutcomeTouchesOnlyTarget(v.targets, k, success, v.autoRetry, now);
        }
      }
    }

    /**
     * Stop pressed while a send waits on its `await`: the send still lands
     * in the store and the log, and the continuation arms the cycle timer
     * again although the session is marked stopped.
     */
    method StopDuringSend(v: View, now: Time, logId: Id, r: real, handle: Handle) returns (step: Step)
      requires 0.0 <= r < 1.0
      modifies store`targets, store`logs, store`campaigns, store`isRunning, store`currentCampaignId
      modifies this`stats, this`todaySent, this`currentTarget, this`isProcessing, this`countdown
      modifies this`currentDelay, this`automationTimer, this`countdownTimer, this`sessionTimer
      ensures step == Dispatch(v, old(isProcessing))
      ensures step.Sending? ==>
        && !store.isRunning && automationTimer == Some(handle)
        && countdownTimer.None? && sessionTimer.None?
        && |store.logs| >= 1 && store.logs[0].status == LogSent
    {
      step := BeginCycle(v);
      StopAutomation(v.selectedCampaignId);
      if step.Sending? {
        var c := FinishCycle(v, step, true, now, logId, r, handle);
      }
    }

    /**
     * The continuation with a stop check: the outcome of a send that was
     * already under way is recorded, but once the session has been stopped
     * no further cycle is armed.
     */
    method FinishCycleGuarded(v: View, step: Step, success: bool, now: Time, logId: Id, r: real, handle: Handle)
      returns (continues: bool)
      requires 0.0 <= r < 1.0
      modifies store`targets, store`logs, store`campaigns, store`isRunning, store`currentCampaignId
      modifies this`stats, this`todaySent, this`currentTarget, this`isProcessing, this`countdown
      modifies this`currentDelay, this`automationTimer, this`countdownTimer, this`sessionTimer
      ensures continues <==> Continues(step, v.infiniteMode) && old(store.isRunning)
      ensures step.Sending? ==>
        && store.targets == UpdateTargets(old(store.targets), step.target.id, ResolvePatch(success, v.autoRetry, now))
        && store.logs == LogsAfter(old(store.logs), OutcomeLog(v, step.target, step.message, success), logId, now)
      ensures !old(store.isRunning) ==> (!store.isRunning && automationTimer == old(automationTimer)
        && countdownTimer == old(countdownTimer) && sessionTimer == old(sessionTimer))
      ensures continues ==> automationTimer == Some(handle) && currentDelay == RandomDelay(v.campaign, r)
    {
      if step.Sending? {
        ApplyOutcome(v, step.target, step.message, success, now, logId);
      }
      if !store.isRunning {
        return false;
      }
      continues := Continues(step, v.infiniteMode);
      if !continues {
        StopAutomation(v.selectedCampaignId);
      } else {
        ScheduleNext(v, r, handle);
      }
    }

    /** With the stop check, a stop pressed during a send leaves every timer cleared. */
    method StopDuringSendGuarded(v: View, now: Time, logId: Id, r: real, handle: Handle) returns (step: Step)
      requires 0.0 <= r < 1.0
      modifies store`targets, store`logs, store`campaigns, store`isRunning, store`currentCampaignId
      modifies this`stats, this`todaySent, this`currentTarget, this`isProcessing, this`countdown
      modifies this`currentDelay, this`automationTimer, this`countdownTimer, this`sessionTimer
      ensures step == Dispatch(v, old(isProcessing))
      ensures !store.isRunning && automationTimer.None? && countdownTimer.None? && sessionTimer.None?
      ensures step.Sending? ==> |store.logs| >= 1 && store.logs[0].status == LogSent
    {
      step := BeginCycle(v);
      StopAutomation(v.selectedCampaignId);
      if step.Sending? {
        var c := FinishCycleGuarded(v, step, true, now, logId, r, handle);
      }
    }
  }
}
