/**
 * The status and priority badge components. Each picks its Tailwind class
 * by comparing the lower-cased input with lower-case keywords, so, unlike
 * the dashboard's switches, the choice ignores letter case, and the status
 * badge also accepts "in progress" for "in-progress".
 *
 * `toLowerCase` is modelled on ASCII letters only.
 */
module Badges {
  import opened Palette
  import Dashboard

  /** ASCII lower-casing of one character; every other character is left as it is. */
  function LowerChar(c: char): (d: char)
    ensures 'A' <= c <= 'Z' ==> 'a' <= d <= 'z' && d as int - c as int == 32
    ensures !('A' <= c <= 'Z') ==> d == c
  {
    if 'A' <= c <= 'Z' then (c as int + 32) as char else c
  }

  /** `s.toLowerCase()`, character by character. */
  function Lower(s: string): (t: string)
    ensures |t| == |s|
    ensures forall i :: 0 <= i < |s| ==> t[i] == LowerChar(s[i])
  {
    if s == [] then [] else [LowerChar(s[0])] + Lower(s[1..])
  }

  /** `a` and `b` differ at most in the case of their letters. */
  predicate EqualsIgnoringCase(a: string, b: string) {
    |a| == |b| && forall i :: 0 <= i < |a| ==> LowerChar(a[i]) == LowerChar(b[i])
  }

  /** A string without upper-case ASCII letters. */
  predicate IsLowerCase(k: string) {
    forall i :: 0 <= i < |k| ==> !('A' <= k[i] <= 'Z')
  }

  /** Lower-casing is idempotent. */
  lemma LowerIdempotent(s: string)
    ensures Lower(Lower(s)) == Lower(s)
  {
  }

  /** Comparing `s.toLowerCase()` with a lower-case keyword is a case-blind comparison with it. */
  lemma LowerMatchesKeyword(s: string, k: string)
    requires IsLowerCase(k)
    ensures Lower(s) == k <==> EqualsIgnoringCase(s, k)
  {
  }

  // ---------------------------------------------------------------------------
  // StatusBadge
  // ---------------------------------------------------------------------------

  /** The inner `getStatusColor` of `StatusBadge`. */
  function StatusBadgeColor(status: string): (cls: string)
    ensures cls == Yellow <==> EqualsIgnoringCase(status, "open")
    ensures cls == Blue <==> EqualsIgnoringCase(status, "in-progress") || EqualsIgnoringCase(status, "in progress")
    ensures cls == Green <==> EqualsIgnoringCase(status, "resolved")
    ensures cls == Gray <==> (!EqualsIgnoringCase(status, "open") && !EqualsIgnoringCase(status, "in-progress")
                              && !EqualsIgnoringCase(status, "in progress") && !EqualsIgnoringCase(status, "resolved"))
  {
    LowerMatchesKeyword(status, "open");
    LowerMatchesKeyword(status, "in-progress");
    LowerMatchesKeyword(status, "in progress");
    LowerMatchesKeyword(status, "resolved");
    var statusLower := Lower(status);
    if statusLower == "open" then Yellow
    else if statusLower == "in-progress" || statusLower == "in progress" then Blue
    else if statusLower == "resolved" then Green
    else if statusLower == "closed" then Gray
    else Gray
  }

  /** The status badge's class is a function of the lower-cased status alone. */
  lemma StatusBadgeDependsOnLower(status: string)
    ensures StatusBadgeColor(status) == StatusBadgeColor(Lower(status))
  {
    LowerIdempotent(status);
  }

  /** The status badge's class depends on the status only up to letter case. */
  lemma StatusBadgeIgnoresCase(a: string, b: string)
    requires EqualsIgnoringCase(a, b)
    ensures StatusBadgeColor(a) == StatusBadgeColor(b)
  {
  }

  /** "OPEN", "Open" and "open" all get the open class. */
  lemma OpenSpellings()
    ensures StatusBadgeColor("OPEN") == StatusBadgeColor("Open") == StatusBadgeColor("open") == Yellow
  {
  }

  /** Both in-progress aliases, in any case, get the blue class. */
  lemma InProgressSpellings(status: string)
    requires EqualsIgnoringCase(status, "in-progress") || EqualsIgnoringCase(status, "in progress")
    ensures StatusBadgeColor(status) == Blue
  {
  }

  /** "closed" gets the same gray as a status the badge does not know. */
  lemma ClosedIsDefault()
    ensures StatusBadgeColor("closed") == StatusBadgeColor("Cancelled") == Gray
  {
  }

  /** The `StatusType` values of the badge module. */
  datatype StatusType = Open | InProgress | Resolved | Closed

  /** The lower-case spelling of each `StatusType` value. */
  function StatusTypeName(t: StatusType): string {
    match t
    case Open => "open"
    case InProgress => "in-progress"
    case Resolved => "resolved"
    case Closed => "closed"
  }

  /** Each `StatusType` spelling gets its own class, and "closed" the gray default. */
  lemma StatusTypeColors(t: StatusType)
    ensures StatusBadgeColor(StatusTypeName(t)) == match t
      case Open => Yellow
      case InProgress => Blue
      case Resolved => Green
      case Closed => Gray
  {
  }

  /** Wherever the dashboard's case-sensitive switch picks a non-gray class, the badge picks the same one. */
  lemma StatusBadgeExtendsDashboard(status: string)
    ensures Dashboard.StatusColor(status) != Gray ==> StatusBadgeColor(status) == Dashboard.StatusColor(status)
  {
    assert EqualsIgnoringCase("Open", "open");
    assert EqualsIgnoringCase("In Progress", "in progress");
    assert EqualsIgnoringCase("Resolved", "resolved");
  }

  /** On the four display statuses the dashboard shows, the badge and the dashboard agree. */
  lemma StatusBadgeAgreesOnDisplayStatuses(status: string)
    requires status in {"Open", "In Progress", "Resolved", "Closed"}
    ensures StatusBadgeColor(status) == Dashboard.StatusColor(status)
  {
    StatusBadgeExtendsDashboard(status);
    if status == "Closed" {
      assert !EqualsIgnoringCase(status, "open") && !EqualsIgnoringCase(status, "resolved");
      assert !EqualsIgnoringCase(status, "in-progress") && !EqualsIgnoringCase(status, "in progress");
    }
  }

  // ---------------------------------------------------------------------------
  // PriorityBadge
  // ---------------------------------------------------------------------------

  /** The inner `getPriorityColor` of `PriorityBadge`; "low" shares the gray default. */
  function PriorityBadgeColor(priority: string): (cls: string)
    ensures cls == Blue <==> EqualsIgnoringCase(priority, "medium")
    ensures cls == Orange <==> EqualsIgnoringCase(priority, "high")
    ensures cls == Red <==> EqualsIgnoringCase(priority, "critical")
    ensures cls == Gray <==> (!EqualsIgnoringCase(priority, "medium") && !EqualsIgnoringCase(priority, "high")
                              && !EqualsIgnoringCase(priority, "critical"))
  {
    LowerMatchesKeyword(priority, "medium");
    LowerMatchesKeyword(priority, "high");
    LowerMatchesKeyword(priority, "critical");
    var priorityLower := Lower(priority);
    if priorityLower == "low" then Gray
    else if priorityLower == "medium" then Blue
    else if priorityLower == "high" then Orange
    else if priorityLower == "critical" then Red
    else Gray
  }

  /** The priority badge's class is a function of the lower-cased priority alone. */
  lemma PriorityBadgeDependsOnLower(priority: string)
    ensures PriorityBadgeColor(priority) == PriorityBadgeColor(Lower(priority))
  {
    LowerIdempotent(priority);
  }

  /** The priority badge's class depends on the priority only up to letter case. */
  lemma PriorityBadgeIgnoresCase(a: string, b: string)
    requires EqualsIgnoringCase(a, b)
    ensures PriorityBadgeColor(a) == PriorityBadgeColor(b)
  {
  }

  /** "low", in any case, gets the gray class. */
  lemma LowPriorityIsGray(priority: string)
    requires EqualsIgnoringCase(priority, "low")
    ensures PriorityBadgeColor(priority) == Gray
  {
  }

  /** "Low" shares its gray with a priority the badge does not know. */
  lemma LowIsDefault()
    ensures PriorityBadgeColor("Low") == PriorityBadgeColor("urgent") == Gray
  {
  }

  /** Wherever the dashboard's case-sensitive switch picks a non-gray class, the badge picks the same one. */
  lemma PriorityBadgeExtendsDashboard(priority: string)
    ensures Dashboard.PriorityColor(priority) != Gray ==> PriorityBadgeColor(priority) == Dashboard.PriorityColor(priority)
  {
    assert EqualsIgnoringCase("Medium", "medium");
    assert EqualsIgnoringCase("High", "high");
    assert EqualsIgnoringCase("Critical", "critical");
  }

  /** On the four display priorities the dashboard shows, the badge and the dashboard agree. */
  lemma PriorityBadgeAgreesOnDisplayPriorities(priority: string)
    requires priority in {"Low", "Medium", "High", "Critical"}
    ensures PriorityBadgeColor(priority) == Dashboard.PriorityColor(priority)
  {
    PriorityBadgeExtendsDashboard(priority);
    if priority == "Low" {
      LowPriorityIsGray(priority);
    }
  }
}
