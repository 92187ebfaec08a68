/**
 * The support-request dashboard page: the status filter over the request
 * list, the four summary counts, the "Showing" label and the two
 * case-sensitive colour mappings used in the table.
 *
 * The React state hook that holds the active filter is not modelled as
 * state: the active filter is a plain parameter of every function here.
 */
module Dashboard {
  import opened Palette

  /** One row of the request table. Every field is the display string the page holds. */
  datatype Request = Request(
    id: string,
    subject: string,
    issueType: string,
    location: string,
    status: string,
    priority: string,
    submittedDate: string)

  /** The four hardcoded requests the page lists. */
  const SampleRequests: seq<Request> := [
    Request("REQ-001", "Computer not booting", "Hardware Issue", "Building A, Room 201", "Open", "High", "2025-09-07"),
    Request("REQ-002", "Software installation required", "Software Issue", "Building B, Room 102", "In Progress", "Medium", "2025-09-06"),
    Request("REQ-003", "Network connectivity issues", "Network Issue", "Building C, Room 305", "Resolved", "Critical", "2025-09-05"),
    Request("REQ-004", "Printer not working", "Hardware Issue", "Building A, Room 110", "Open", "Low", "2025-09-04")
  ]

  /** The display statuses that have a filter and a summary card of their own. */
  predicate IsCountedStatus(status: string) {
    status == "Open" || status == "In Progress" || status == "Resolved"
  }

  /** The filter values the page's summary cards set. */
  predicate IsNamedFilter(activeFilter: string) {
    activeFilter == "all" || activeFilter == "open" || activeFilter == "in-progress" || activeFilter == "resolved"
  }

  // ---------------------------------------------------------------------------
  // Status colour and priority colour (exact, case-sensitive switches)
  // ---------------------------------------------------------------------------

  /** The table's status pill class; "Closed" and every unrecognised status share gray. */
  function StatusColor(status: string): (cls: string)
    ensures cls == Yellow <==> status == "Open"
    ensures cls == Blue <==> status == "In Progress"
    ensures cls == Green <==> status == "Resolved"
    ensures cls == Gray <==> !IsCountedStatus(status)
  {
    match status
    case "Open" => Yellow
    case "In Progress" => Blue
    case "Resolved" => Green
    case "Closed" => Gray
    case _ => Gray
  }

  /** The table's priority pill class; "Low" and every unrecognised priority share gray. */
  function PriorityColor(priority: string): (cls: string)
    ensures cls == Blue <==> priority == "Medium"
    ensures cls == Orange <==> priority == "High"
    ensures cls == Red <==> priority == "Critical"
    ensures cls == Gray <==> priority != "Medium" && priority != "High" && priority != "Critical"
  {
    match priority
    case "Low" => Gray
    case "Medium" => Blue
    case "High" => Orange
    case "Critical" => Red
    case _ => Gray
  }

  // ---------------------------------------------------------------------------
  // Filtering
  // ---------------------------------------------------------------------------

  /**
   * The arrow predicate the page hands to `requests.filter`: a named status
   * filter keeps only its own display status, every other value keeps all.
   */
  function Keeps(activeFilter: string, r: Request): (kept: bool)
    ensures kept <==> && (activeFilter == "open" ==> r.status == "Open")
                      && (activeFilter == "in-progress" ==> r.status == "In Progress")
                      && (activeFilter == "resolved" ==> r.status == "Resolved")
  {
    if activeFilter == "all" then true
    else if activeFilter == "open" then r.status == "Open"
    else if activeFilter == "in-progress" then r.status == "In Progress"
    else if activeFilter == "resolved" then r.status == "Resolved"
    else true
  }

  /**
   * The requests the table shows under `activeFilter`. Each request the
   * filter keeps appears as often as in the input and every other request
   * not at all.
   */
  function FilterRequests(rs: seq<Request>, activeFilter: string): (shown: seq<Request>)
    ensures |shown| <= |rs|
    ensures forall r :: multiset(shown)[r] == if Keeps(activeFilter, r) then multiset(rs)[r] else 0
  {
    if rs == [] then []
    else
      var rest := FilterRequests(rs[1..], activeFilter);
      assert rs == [rs[0]] + rs[1..];
      if Keeps(activeFilter, rs[0]) then [rs[0]] + rest else rest
  }

  /** `a` is `b` with some elements dropped and the rest kept in order. */
  predicate IsSubsequence<T(==)>(a: seq<T>, b: seq<T>)
    decreases |b|
  {
    a == [] || (b != [] && ((a[0] == b[0] && IsSubsequence(a[1..], b[1..])) || IsSubsequence(a, b[1..])))
  }

  /** Filtering never reorders: the shown rows are an order-preserving subsequence of the list. */
  lemma {:induction false} FilterIsSubsequence(rs: seq<Request>, activeFilter: string)
    ensures IsSubsequence(FilterRequests(rs, activeFilter), rs)
  {
    if rs != [] {
      FilterIsSubsequence(rs[1..], activeFilter);
      var rest := FilterRequests(rs[1..], activeFilter);
      if Keeps(activeFilter, rs[0]) {
        var shown := [rs[0]] + rest;
        assert shown[0] == rs[0] && shown[1..] == rest;
      }
    }
  }

  /** A request is shown exactly when it is in the list and the filter keeps it. */
  lemma FilterMembership(rs: seq<Request>, activeFilter: string, r: Request)
    ensures r in FilterRequests(rs, activeFilter) <==> r in rs && Keeps(activeFilter, r)
  {
  }

  /** Filter "all", and every value the page does not name, shows the list unchanged. */
  lemma {:induction false} FilterKeepsAll(rs: seq<Request>, activeFilter: string)
    requires activeFilter == "all" || !IsNamedFilter(activeFilter)
    ensures FilterRequests(rs, activeFilter) == rs
  {
    if rs != [] {
      FilterKeepsAll(rs[1..], activeFilter);
      assert rs == [rs[0]] + rs[1..];
    }
  }

  // ---------------------------------------------------------------------------
  // Summary counts
  // ---------------------------------------------------------------------------

  /** `requests.filter(r => r.status === status).length`. */
  function CountStatus(rs: seq<Request>, status: string): (n: nat)
    ensures n <= |rs|
    ensures n == 0 <==> forall r :: r in rs ==> r.status != status
    ensures n == |rs| <==> forall r :: r in rs ==> r.status == status
  {
    if rs == [] then 0
    else
      assert forall r :: r in rs <==> r == rs[0] || r in rs[1..];
      (if rs[0].status == status then 1 else 0) + CountStatus(rs[1..], status)
  }

  /** The positions in `rs` of the requests with display status `status`. */
  function StatusIndices(rs: seq<Request>, status: string): set<int> {
    set i | 0 <= i < |rs| && rs[i].status == status
  }

  /** Appending one request adds one to its own status's count and nothing to the others. */
  lemma {:induction false} CountStatusAppend(rs: seq<Request>, x: Request, status: string)
    ensures CountStatus(rs + [x], status) == CountStatus(rs, status) + (if x.status == status then 1 else 0)
  {
    if rs != [] {
      CountStatusAppend(rs[1..], x, status);
      assert (rs + [x])[1..] == rs[1..] + [x];
    }
  }

  /** Appending one request adds its own position to its status's index set and to no other. */
  lemma StatusIndicesAppend(front: seq<Request>, x: Request, status: string)
    ensures StatusIndices(front + [x], status)
            == StatusIndices(front, status) + (if x.status == status then {|front|} else {})
  {
    var rs := front + [x];
    forall i | 0 <= i < |front| ensures rs[i] == front[i] { }
  }

  /** A status count is the number of positions in the list holding that status. */
  lemma {:induction false} CountStatusIsCardinality(rs: seq<Request>, status: string)
    ensures CountStatus(rs, status) == |StatusIndices(rs, status)|
  {
    if rs != [] {
      var n := |rs| - 1;
      var front, x := rs[..n], rs[n];
      assert rs == front + [x];
      CountStatusIsCardinality(front, status);
      CountStatusAppend(front, x, status);
      StatusIndicesAppend(front, x, status);
      assert n !in StatusIndices(front, status);
    }
  }

  /** The four summary cards. */
  datatype Summary = Summary(total: nat, open: nat, inProgress: nat, resolved: nat)

  /**
   * The four counts, all over the full list. A request whose status is
   * none of the three counted ones (a "Closed" one, say) adds to the
   * total only.
   */
  function Summarize(rs: seq<Request>): (s: Summary)
    ensures s.total == |rs|
    ensures s.open + s.inProgress + s.resolved <= s.total
    ensures s.open + s.inProgress + s.resolved == s.total <==> forall r :: r in rs ==> IsCountedStatus(r.status)
  {
    CountsPartition(rs);
    Summary(|rs|, CountStatus(rs, "Open"), CountStatus(rs, "In Progress"), CountStatus(rs, "Resolved"))
  }

  /** The three status counts never exceed the total, and reach it exactly when every status is counted. */
  lemma {:induction false} CountsPartition(rs: seq<Request>)
    ensures CountStatus(rs, "Open") + CountStatus(rs, "In Progress") + CountStatus(rs, "Resolved") <= |rs|
    ensures CountStatus(rs, "Open") + CountStatus(rs, "In Progress") + CountStatus(rs, "Resolved") == |rs|
            <==> forall r :: r in rs ==> IsCountedStatus(r.status)
  {
    if rs != [] {
      var x, tail := rs[0], rs[1..];
      CountsPartition(tail);
      var sum := CountStatus(rs, "Open") + CountStatus(rs, "In Progress") + CountStatus(rs, "Resolved");
      var sumTail := CountStatus(tail, "Open") + CountStatus(tail, "In Progress") + CountStatus(tail, "Resolved");
      assert sum == sumTail + if IsCountedStatus(x.status) then 1 else 0;
      assert (forall r :: r in rs ==> IsCountedStatus(r.status))
             <==> IsCountedStatus(x.status) && forall r :: r in tail ==> IsCountedStatus(r.status) by {
        assert forall i :: 1 <= i < |rs| ==> rs[i] == tail[i - 1];
      }
    }
  }

  /** Under a named status filter, the number of rows shown is that status's count. */
  lemma {:induction false} FilterLengthIsCount(rs: seq<Request>, activeFilter: string, status: string)
    requires || (activeFilter == "open" && status == "Open")
             || (activeFilter == "in-progress" && status == "In Progress")
             || (activeFilter == "resolved" && status == "Resolved")
    ensures |FilterRequests(rs, activeFilter)| == CountStatus(rs, status)
  {
    if rs != [] {
      FilterLengthIsCount(rs[1..], activeFilter, status);
      assert Keeps(activeFilter, rs[0]) <==> rs[0].status == status;
    }
  }

  // ---------------------------------------------------------------------------
  // The page as a whole
  // ---------------------------------------------------------------------------

  /** The text after "Showing:"; any value other than the first three reads "Resolved Requests". */
  function ShowingLabel(activeFilter: string): (caption: string)
    ensures caption == "All Requests" <==> activeFilter == "all"
    ensures caption == "Open Requests" <==> activeFilter == "open"
    ensures caption == "In Progress Requests" <==> activeFilter == "in-progress"
    ensures caption == "Resolved Requests" <==> activeFilter != "all" && activeFilter != "open" && activeFilter != "in-progress"
  {
    if activeFilter == "all" then "All Requests"
    else if activeFilter == "open" then "Open Requests"
    else if activeFilter == "in-progress" then "In Progress Requests"
    else "Resolved Requests"
  }

  /** What the page displays for one value of the active filter. */
  datatype View = View(shown: seq<Request>, caption: string, summary: Summary)

  /**
   * The dashboard under `activeFilter`: the cards summarise the whole list
   * whatever the filter, the "(n of total)" line never has n above total,
   * and under a named status filter n is that status's card.
   */
  function Render(rs: seq<Request>, activeFilter: string): (v: View)
    ensures v.summary == Summarize(rs)
    ensures |v.shown| <= v.summary.total
    ensures activeFilter == "open" ==> |v.shown| == v.summary.open
    ensures activeFilter == "in-progress" ==> |v.shown| == v.summary.inProgress
    ensures activeFilter == "resolved" ==> |v.shown| == v.summary.resolved
    ensures activeFilter == "all" ==> v.shown == rs
  {
    var shown := FilterRequests(rs, activeFilter);
    assert activeFilter == "open" ==> |shown| == CountStatus(rs, "Open") by {
      if activeFilter == "open" { FilterLengthIsCount(rs, activeFilter, "Open"); }
    }
    assert activeFilter == "in-progress" ==> |shown| == CountStatus(rs, "In Progress") by {
      if activeFilter == "in-progress" { FilterLengthIsCount(rs, activeFilter, "In Progress"); }
    }
    assert activeFilter == "resolved" ==> |shown| == CountStatus(rs, "Resolved") by {
      if activeFilter == "resolved" { FilterLengthIsCount(rs, activeFilter, "Resolved"); }
    }
    assert activeFilter == "all" ==> shown == rs by {
      if activeFilter == "all" { FilterKeepsAll(rs, activeFilter); }
    }
    View(shown, ShowingLabel(activeFilter), Summarize(rs))
  }

  /** Switching the filter never changes the summary cards. */
  lemma SummaryIgnoresFilter(rs: seq<Request>, f: string, g: string)
    ensures Render(rs, f).summary == Render(rs, g).summary
  {
  }

  /** An unnamed filter value shows every request, yet is labelled as the resolved view. */
  lemma UnnamedFilterShowsAllAsResolved(rs: seq<Request>, activeFilter: string)
    requires !IsNamedFilter(activeFilter)
    ensures Render(rs, activeFilter).shown == rs
    ensures Render(rs, activeFilter).caption == "Resolved Requests"
  {
    FilterKeepsAll(rs, activeFilter);
  }

  /** On the page's own data: 4 requests, 2 open, 1 in progress, 1 resolved; "open" shows 2 of 4. */
  lemma SampleDashboard()
    ensures Summarize(SampleRequests) == Summary(4, 2, 1, 1)
    ensures |Render(SampleRequests, "open").shown| == 2
    ensures Render(SampleRequests, "open").caption == "Open Requests"
  {
    var rs := SampleRequests;
    assert rs[0].status == "Open" && rs[1].status == "In Progress";
    assert rs[2].status == "Resolved" && rs[3].status == "Open";
    assert rs[3..][1..] == [];
    assert rs[2..][1..] == rs[3..] && rs[1..][1..] == rs[2..];
    assert CountStatus(rs[3..], "Open") == 1 && CountStatus(rs[2..], "Open") == 1;
    assert CountStatus(rs[1..], "Open") == 1 && CountStatus(rs, "Open") == 2;
  }
}
