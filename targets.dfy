/**
 * The target list page: adding one target from the form, the
 * comma-separated bulk import, the search box and the per-status counters.
 */
module Targets {
  import opened Wrappers
  import opened Seqs
  import opened Text
  import opened DataStore

  /** `s || undefined` for a text field. */
  function OptionalText(s: string): (r: Option<string>)
    ensures r.None? <==> s == ""
    ensures r.Some? ==> r.value == s
  {
    if s == "" then None else Some(s)
  }

  /** `Number.parseInt(s)` as a JavaScript number. */
  function ParseNumber(s: string): (n: Number)
    ensures n.NaN? <==> ParseInt(s).None?
    ensures n.Int? ==> ParseInt(s) == Some(n.value)
  {
    match ParseInt(s)
    case None => NaN
    case Some(v) => Int(v)
  }

  /** `s ? Number.parseInt(s) : undefined`: an empty field gives no follower count, anything else its parse, NaN included. */
  function FollowersField(s: string): (r: Option<Number>)
    ensures r.None? <==> s == ""
    ensures r.Some? ==> r.value == ParseNumber(s)
  {
    if s == "" then None else Some(ParseNumber(s))
  }

  /** The three text fields of the "add target" dialog. */
  datatype TargetForm = TargetForm(username: string, fullName: string, followers: string)

  /**
   * What `handleSubmit` passes to `addTarget`, or `None` when the username
   * is empty: the first `@` is dropped from the username, and the target
   * starts pending, of the specific kind, never sent.
   */
  function SubmitDraft(f: TargetForm): (r: Option<TargetDraft>)
    ensures r.None? <==> f.username == ""
    ensures r.Some? ==> var d := r.value;
      && d.username == RemoveFirst(f.username, '@')
      && d.fullName == OptionalText(f.fullName)
      && d.followers == FollowersField(f.followers)
      && d.status == Pending && d.kind == Specific && d.sentAt.None?
  {
    if f.username == "" then None
    else Some(TargetDraft(RemoveFirst(f.username, '@'), OptionalText(f.fullName),
                          FollowersField(f.followers), Pending, None, Specific))
  }

  /** `handleSubmit`: an empty username changes nothing; otherwise exactly one target is appended. */
  method HandleSubmit(store: Store, f: TargetForm, newId: Id) returns (accepted: bool)
    modifies store`targets
    ensures accepted <==> f.username != ""
    ensures !accepted ==> store.targets == old(store.targets)
    ensures accepted ==> store.targets == old(store.targets) + [NewTarget(SubmitDraft(f).value, newId)]
  {
    var d := SubmitDraft(f);
    if d.None? {
      return false;
    }
    store.AddTarget(d.value, newId);
    return true;
  }

  // ---------------------------------------------------------------------
  // Bulk import

  /** `parts.map(s => s.trim())` */
  function TrimAll(parts: seq<string>): (r: seq<string>)
    ensures |r| == |parts|
    ensures forall i :: 0 <= i < |parts| ==> r[i] == Trim(parts[i])
  {
    seq(|parts|, i requires 0 <= i < |parts| => Trim(parts[i]))
  }

  /**
   * One import line: split on commas, trim every field, and read the first
   * three as username, full name and followers; a field past the end is
   * `undefined`. Unlike the single form, an empty username is accepted.
   */
  function ImportLine(line: string): TargetDraft
  {
    var fields := TrimAll(Split(line, ','));
    TargetDraft(
      RemoveFirst(fields[0], '@'),
      if |fields| > 1 then OptionalText(fields[1]) else None,
      if |fields| > 2 then FollowersField(fields[2]) else None,
      Pending, None, Specific)
  }

  /** The lines `filter((l) => l.trim())` keeps: those with something besides white space. */
  predicate NonBlank(line: string)
  {
    Trim(line) != ""
  }

  /** `lines.map(parse)` */
  function ImportLines(lines: seq<string>): (r: seq<TargetDraft>)
    ensures |r| == |lines|
    ensures forall i :: 0 <= i < |lines| ==> r[i] == ImportLine(lines[i])
  {
    if lines == [] then [] else [ImportLine(lines[0])] + ImportLines(lines[1..])
  }

  /** `handleImport`'s parser: one target per non-blank line, in line order. */
  function ParseImport(data: string): seq<TargetDraft>
  {
    ImportLines(Filter(Split(data, '\n'), NonBlank))
  }

  /**
   * Importing lines joined by newlines yields one target per non-blank
   * line, in the same order; blank and white-space-only lines yield nothing.
   */
  lemma ParseImportLines(lines: seq<string>)
    requires |lines| >= 1
    requires forall i :: 0 <= i < |lines| ==> '\n' !in lines[i]
    ensures ParseImport(Join(lines, '\n')) == ImportLines(Filter(lines, NonBlank))
    ensures |ParseImport(Join(lines, '\n'))| == Count(lines, NonBlank)
  {
    SplitJoin(lines, '\n');
  }

  /** A line made only of white space yields no target. */
  lemma BlankLineIgnored(before: seq<string>, blank: string, after: seq<string>)
    requires forall i :: 0 <= i < |blank| ==> IsSpace(blank[i])
    ensures Filter(before + [blank] + after, NonBlank) == Filter(before, NonBlank) + Filter(after, NonBlank)
  {
    TrimEmptyIff(blank);
    FilterSingleDropped(blank);
    FilterAppend(before, [blank], NonBlank);
    var fb := Filter(before, NonBlank);
    assert Filter(before + [blank], NonBlank) == fb + [] == fb;
    FilterAppend(before + [blank], after, NonBlank);
  }

  lemma FilterSingleDropped(blank: string)
    requires !NonBlank(blank)
    ensures Filter([blank], NonBlank) == []
  {
    assert [blank][1..] == [];
  }

  /**
   * The fields of a line given as comma-free pieces: the first three are
   * trimmed and used, the rest ignored; a missing or empty name or follower
   * field is absent.
   */
  lemma ImportLineFields(parts: seq<string>)
    requires |parts| >= 1
    requires forall i :: 0 <= i < |parts| ==> ',' !in parts[i]
    ensures var d := ImportLine(Join(parts, ','));
      && d.username == RemoveFirst(Trim(parts[0]), '@')
      && d.fullName == (if |parts| > 1 then OptionalText(Trim(parts[1])) else None)
      && d.followers == (if |parts| > 2 then FollowersField(Trim(parts[2])) else None)
      && d.status == Pending && d.kind == Specific && d.sentAt.None?
  {
    SplitJoin(parts, ',');
  }

  /** The import accepts a line whose username is blank, which the single form refuses. */
  lemma ImportKeepsEmptyUsername()
    ensures ImportLine(" , Name").username == ""
    ensures ImportLine(" , Name").fullName == Some("Name")
    ensures SubmitDraft(TargetForm("", "Name", "")).None?
  {
    var parts := [" ", " Name"];
    assert Join(parts, ',') == " , Name" by {
      assert parts[1..] == [" Name"];
    }
    ImportLineFields(parts);
    TrimOneSpace();
    TrimSpaceName();
  }

  lemma TrimOneSpace()
    ensures Trim(" ") == ""
  {
    assert TrimStart(" "[1..]) == "";
  }

  lemma TrimSpaceName()
    ensures Trim(" Name") == "Name"
  {
    assert " Name"[1..] == "Name";
    assert !IsSpace('N') && !IsSpace('e');
    assert TrimStart("Name") == "Name";
    assert TrimEnd("Name") == "Name";
  }

  /** `handleImport`: the parsed targets are appended, in line order, one fresh id each. */
  method HandleImport(store: Store, data: string, ids: seq<Id>) returns (added: nat)
    requires |ids| == |ParseImport(data)|
    modifies store`targets
    ensures added == |ParseImport(data)|
    ensures store.targets == old(store.targets) + NewTargets(ParseImport(data), ids)
  {
    var drafts := ParseImport(data);
    store.AddTargets(drafts, ids);
    added := |drafts|;
  }

  // ---------------------------------------------------------------------
  // Search and counters

  /** The search box: the query occurs, ignoring ASCII case, in the username or in the full name when there is one. */
  predicate MatchesSearch(t: Target, query: string)
  {
    IncludesIgnoringCase(t.username, query)
    || (t.fullName.Some? && IncludesIgnoringCase(t.fullName.value, query))
  }

  /** `filteredTargets` */
  function FilteredTargets(ts: seq<Target>, query: string): (r: seq<Target>)
    ensures forall i :: 0 <= i < |r| ==> MatchesSearch(r[i], query) && r[i] in ts
    ensures forall i :: 0 <= i < |ts| && MatchesSearch(ts[i], query) ==> ts[i] in r
  {
    Filter(ts, t => MatchesSearch(t, query))
  }

  /** The search result keeps the store's order, and an empty query shows every target. */
  lemma FilteredTargetsSpec(ts: seq<Target>, query: string)
    ensures IsSubsequence(FilteredTargets(ts, query), ts)
    ensures query == "" ==> FilteredTargets(ts, query) == ts
  {
    FilterIsSubsequence(ts, t => MatchesSearch(t, query));
    if query == "" {
      forall i | 0 <= i < |ts| ensures MatchesSearch(ts[i], query) {
        IncludesEmpty(Lower(ts[i].username));
      }
      FilterAll(ts, t => MatchesSearch(t, query));
    }
  }

  datatype StatusCounts = StatusCounts(pending: nat, sent: nat, replied: nat, failed: nat)

  function HasStatus(s: TargetStatus): Target -> bool
  {
    (t: Target) => t.status == s
  }

  /** `statusCounts`: how many targets have each status. */
  function CountStatuses(ts: seq<Target>): StatusCounts
  {
    StatusCounts(Count(ts, HasStatus(Pending)), Count(ts, HasStatus(Sent)),
                 Count(ts, HasStatus(Replied)), Count(ts, HasStatus(Failed)))
  }

  /** Every target has exactly one of the four statuses, so the counters add up to the number of targets. */
  lemma {:induction false} CountStatusesTotal(ts: seq<Target>)
    ensures var c := CountStatuses(ts); c.pending + c.sent + c.replied + c.failed == |ts|
  {
    if ts != [] {
      CountStatusesTotal(ts[1..]);
      assert Filter(ts, HasStatus(Pending)) ==
        (if ts[0].status == Pending then [ts[0]] else []) + Filter(ts[1..], HasStatus(Pending));
      assert Filter(ts, HasStatus(Sent)) ==
        (if ts[0].status == Sent then [ts[0]] else []) + Filter(ts[1..], HasStatus(Sent));
      assert Filter(ts, HasStatus(Replied)) ==
        (if ts[0].status == Replied then [ts[0]] else []) + Filter(ts[1..], HasStatus(Replied));
      assert Filter(ts, HasStatus(Failed)) ==
        (if ts[0].status == Failed then [ts[0]] else []) + Filter(ts[1..], HasStatus(Failed));
    }
  }
}
