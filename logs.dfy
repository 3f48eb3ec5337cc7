/**
 * The activity log page: the list shown is the store's log list filtered
 * by a username search, a status filter and a campaign filter.
 */
module Logs {
  import opened Seqs
  import opened Text
  import opened DataStore

  /** The value of the status and campaign drop-downs that disables the filter. */
  const All := "all"

  /** The three conditions of `filteredLogs`, all of which must hold. */
  predicate Keeps(l: Log, query: string, statusFilter: string, campaignFilter: string)
  {
    && IncludesIgnoringCase(l.targetUsername, query)
    && (statusFilter == All || l.status.Name() == statusFilter)
    && (campaignFilter == All || l.campaignId == campaignFilter)
  }

  /** `filteredLogs` */
  function FilteredLogs(logs: seq<Log>, query: string, statusFilter: string, campaignFilter: string): (r: seq<Log>)
    ensures forall i :: 0 <= i < |r| ==> r[i] in logs && Keeps(r[i], query, statusFilter, campaignFilter)
    ensures forall i :: 0 <= i < |logs| && Keeps(logs[i], query, statusFilter, campaignFilter) ==> logs[i] in r
  {
    Filter(logs, l => Keeps(l, query, statusFilter, campaignFilter))
  }

  /** A log is shown exactly when it is in the list and meets all three conditions. */
  lemma FilteredLogsIff(logs: seq<Log>, query: string, statusFilter: string, campaignFilter: string, l: Log)
    ensures l in FilteredLogs(logs, query, statusFilter, campaignFilter)
      <==> (&& l in logs
            && IncludesIgnoringCase(l.targetUsername, query)
            && (statusFilter == "all" || l.status.Name() == statusFilter)
            && (campaignFilter == "all" || l.campaignId == campaignFilter))
  {
    FilterMembership(logs, l => Keeps(l, query, statusFilter, campaignFilter), l);
  }

  /** The filtered list keeps the newest-first order of the store. */
  lemma FilteredLogsOrdered(logs: seq<Log>, query: string, statusFilter: string, campaignFilter: string)
    ensures IsSubsequence(FilteredLogs(logs, query, statusFilter, campaignFilter), logs)
  {
    FilterIsSubsequence(logs, l => Keeps(l, query, statusFilter, campaignFilter));
  }

  /** With an empty search and both drop-downs on "all", every log is shown. */
  lemma FilteredLogsAll(logs: seq<Log>)
    ensures FilteredLogs(logs, "", "all", "all") == logs
  {
    forall i | 0 <= i < |logs| ensures Keeps(logs[i], "", All, All) {
      IncludesEmpty(Lower(logs[i].targetUsername));
    }
    FilterAll(logs, l => Keeps(l, "", All, All));
  }

  /** Filtering the filtered list again with the same settings changes nothing. */
  lemma FilteredLogsIdempotent(logs: seq<Log>, query: string, statusFilter: string, campaignFilter: string)
    ensures var once := FilteredLogs(logs, query, statusFilter, campaignFilter);
      FilteredLogs(once, query, statusFilter, campaignFilter) == once
  {
    FilterIdempotent(logs, l => Keeps(l, query, statusFilter, campaignFilter));
  }
}
