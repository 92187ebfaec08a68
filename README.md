# On-site Support Request app: dashboard filter, colour badges and edit redirect

This project models, in Dafny, the three pieces of the On-site Support
Request (OSR) ticketing front end that carry logic:

- **The dashboard page** (`Dashboard`, `dashboard.dfy`): the status filter
  the summary cards select (`all`, `open`, `in-progress`, `resolved`, any
  other value keeping everything), the four summary counts (total, open,
  in progress, resolved) taken over the whole request list, the
  "Showing: … (n of total requests)" line, the case-sensitive
  status and priority colour switches, and the four hardcoded requests.
- **The badge components** (`Badges`, `badges.dfy`): `StatusBadge` and
  `PriorityBadge` pick their class after lower-casing the input, so they
  ignore letter case, and the status badge accepts both `in-progress` and
  `in progress`.
- **The edit redirect** (`EditRedirect`, `middleware.dfy`): a path matching
  `^\/request\/(.+)\/edit$` is redirected to `/request/{id}/edit-fixed`;
  every other path passes through.

All three are pure, so the model is datatypes, functions and lemmas. The
active filter, which the page keeps in a React state hook, is a plain
parameter. The Tailwind class strings are shared constants in `Palette`
(`palette.dfy`); `Wrappers` (`wrappers.dfy`) holds the `Option` type for a
regular-expression match.

The regular expression is modelled the way a backtracking engine runs it
(`DotRunEnd` finds where the greedy `.+` stops, `Backtrack` gives characters
back until `\/edit$` matches at the end). `MatchEditPath` proves that this
agrees with the closed-form shape test `IsEditPath`: the path starts with
`/request/`, ends with `/edit`, and has one or more characters between them,
none of which is a line terminator. The captured id is everything between
the prefix and the final `/edit`.

The dashboard compares the display strings `"Open"`, `"In Progress"` and
`"Resolved"`, and the page has no sorting.

## Model

| member | source | states |
|---|---|---|
| Dashboard.StatusColor | src/app/dashboard/page.tsx:46-59 | exact, case-sensitive: yellow iff "Open", blue iff "In Progress", green iff "Resolved", gray for "Closed" and every other string alike |
| Dashboard.PriorityColor | src/app/dashboard/page.tsx:61-74 | exact, case-sensitive: blue iff "Medium", orange iff "High", red iff "Critical", gray for "Low" and every other string alike |
| Dashboard.Keeps | src/app/dashboard/page.tsx:80-86 | a request is kept unless the filter is "open", "in-progress" or "resolved" and its status is not the matching "Open", "In Progress" or "Resolved"; every other filter value keeps everything |
| Dashboard.FilterRequests | src/app/dashboard/page.tsx:80-86 | the shown rows are never more than the list, and each request appears as many times as in the list if the active filter keeps it, otherwise not at all |
| Dashboard.FilterIsSubsequence | src/app/dashboard/page.tsx:80-86 | the filtered rows are an order-preserving subsequence of the request list |
| Dashboard.FilterMembership | src/app/dashboard/page.tsx:80-86 | a request is shown iff it is in the list and the filter keeps it |
| Dashboard.FilterKeepsAll | src/app/dashboard/page.tsx:80-85 | filter "all", and any value other than the four named ones, returns the list unchanged and in order |
| Dashboard.CountStatus | src/app/dashboard/page.tsx:90-92 | a status count is at most the list length, zero iff no request has that status, the full length iff every request has it |
| Dashboard.CountStatusIsCardinality | src/app/dashboard/page.tsx:90-92 | a status count is exactly the number of positions in the list whose request has that status |
| Dashboard.CountsPartition | src/app/dashboard/page.tsx:89-92 | open + in progress + resolved never exceeds the total, with equality iff every request has one of those three statuses |
| Dashboard.Summarize | src/app/dashboard/page.tsx:89-92 | the four cards: total is the list length, the three status counts sum to at most the total, and to exactly the total iff no request has another status (a "Closed" one adds to the total only) |
| Dashboard.FilterLengthIsCount | src/app/dashboard/page.tsx:80-92 | under filter "open", "in-progress" or "resolved" the number of shown rows equals the matching status card |
| Dashboard.ShowingLabel | src/app/dashboard/page.tsx:142-145 | the label is "All Requests", "Open Requests", "In Progress Requests" exactly for the first three filters and "Resolved Requests" for every other value |
| Dashboard.Render | src/app/dashboard/page.tsx:80-92 | the cards are the summary of the whole list whatever the filter; shown count never exceeds the total; under a named status filter it equals that card; filter "all" shows the list itself |
| Dashboard.SummaryIgnoresFilter | src/app/dashboard/page.tsx:89-92 | two different filter values give the same summary cards |
| Dashboard.UnnamedFilterShowsAllAsResolved | src/app/dashboard/page.tsx:85 | a filter value outside the four shows every request yet is labelled "Resolved Requests" |
| Dashboard.SampleDashboard | src/app/dashboard/page.tsx:7-44 | on the four hardcoded requests the cards read 4, 2, 1, 1 and filter "open" shows 2 rows labelled "Open Requests" |
| Badges.Lower | src/app/components/ui/Badges.tsx:13 | lower-casing keeps the length and lower-cases each ASCII letter in place |
| Badges.LowerMatchesKeyword | src/app/components/ui/Badges.tsx:13-18 | comparing the lower-cased input with a lower-case keyword is the same as comparing it with the keyword ignoring case |
| Badges.LowerIdempotent | src/app/components/ui/Badges.tsx:13 | lower-casing an already lower-cased string changes nothing |
| Badges.StatusBadgeDependsOnLower | src/app/components/ui/Badges.tsx:12-20 | the status badge's class is a function of the lower-cased status alone |
| Badges.StatusBadgeColor | src/app/components/ui/Badges.tsx:12-21 | yellow iff "open" ignoring case, blue iff "in-progress" or "in progress" ignoring case, green iff "resolved" ignoring case, gray otherwise ("closed" included) |
| Badges.StatusBadgeIgnoresCase | src/app/components/ui/Badges.tsx:12-15 | two statuses that differ only in letter case get the same class |
| Badges.OpenSpellings | src/app/components/ui/Badges.tsx:13-15 | "OPEN", "Open" and "open" all give the yellow class |
| Badges.InProgressSpellings | src/app/components/ui/Badges.tsx:16 | "in-progress" and "in progress", in any case, give the blue class |
| Badges.ClosedIsDefault | src/app/components/ui/Badges.tsx:18-20 | "closed" and an unrecognised status both give the gray default |
| Badges.StatusTypeColors | src/app/components/ui/Badges.tsx:3-18 | each lower-case StatusType value maps to its listed class |
| Badges.StatusBadgeExtendsDashboard | src/app/components/ui/Badges.tsx:12-21 | wherever the dashboard's status switch gives a non-gray class, the badge gives the same class |
| Badges.StatusBadgeAgreesOnDisplayStatuses | src/app/components/ui/Badges.tsx:12-21 | on "Open", "In Progress", "Resolved" and "Closed" the badge equals the dashboard's status colour |
| Badges.PriorityBadgeColor | src/app/components/ui/Badges.tsx:38-47 | blue iff "medium", orange iff "high", red iff "critical", all ignoring case; gray otherwise ("low" included) |
| Badges.PriorityBadgeDependsOnLower | src/app/components/ui/Badges.tsx:38-46 | the priority badge's class is a function of the lower-cased priority alone |
| Badges.PriorityBadgeIgnoresCase | src/app/components/ui/Badges.tsx:38-44 | two priorities that differ only in letter case get the same class |
| Badges.LowPriorityIsGray | src/app/components/ui/Badges.tsx:41 | "low" in any case gives the gray class |
| Badges.LowIsDefault | src/app/components/ui/Badges.tsx:41-46 | "Low" and an unrecognised priority share the gray default |
| Badges.PriorityBadgeExtendsDashboard | src/app/components/ui/Badges.tsx:38-47 | wherever the dashboard's priority switch gives a non-gray class, the badge gives the same class |
| Badges.PriorityBadgeAgreesOnDisplayPriorities | src/app/components/ui/Badges.tsx:38-47 | on "Low", "Medium", "High" and "Critical" the badge equals the dashboard's priority colour |
| EditRedirect.DotRunEnd | src/middleware.ts:5 | the greedy `.+` stops at the first line terminator or at the end, and everything it passed is not a line terminator |
| EditRedirect.Backtrack | src/middleware.ts:5-6 | giving back characters finds a match iff the path ends in "/edit" with a non-empty group before it within the greedy run, and captures the text up to that final "/edit" |
| EditRedirect.MatchEditPath | src/middleware.ts:5-9 | the pattern matches iff the path starts with "/request/", ends with "/edit" and has one or more characters between them, none of which is a line terminator; the id is exactly the text in between |
| EditRedirect.Middleware | src/middleware.ts:3-14 | redirects iff the path matches, to "/request/" + id + "/edit-fixed"; every other path passes through |
| EditRedirect.EditPath | src/app/dashboard/page.tsx:215 | the Edit link of an id is the "/request/" prefix, then exactly the id, then the "/edit" suffix |
| EditRedirect.EditPathRedirect | src/middleware.ts:5-13 | "/request/" + id + "/edit" is redirected to "/request/" + id + "/edit-fixed" iff id is non-empty and has no line terminator, and passes through otherwise |
| EditRedirect.MatchInvertsEditPath | src/middleware.ts:5-9 | a matched path is rebuilt exactly from its captured id |
| EditRedirect.NoRedirectLoop | src/middleware.ts:5-13 | a redirect target, fed back to the rule, passes through: there is no redirect loop |
| EditRedirect.EmptyIdPassesThrough | src/middleware.ts:5 | "/request//edit" does not match and is not redirected |
| EditRedirect.NestedEditSuffix | src/middleware.ts:5-10 | "/request/a/edit/edit" captures "a/edit" and redirects to "/request/a/edit/edit-fixed" |
| EditRedirect.LineBreakInIdPassesThrough | src/middleware.ts:5 | a line break inside the id defeats `.`, so the path passes through |

## Left out

- Rendering: the JSX markup, the `DashboardCard` component, layout classes, links and click handlers; the click handlers only ever set the active filter, which is a parameter here.
- The React `useState` hook holding the active filter: it is modelled as a plain argument, not as state.
- `new URL(..., request.url)` resolution and `NextResponse.redirect` / `NextResponse.next`: framework behaviour; the model returns the redirect path or `Next`.
- The middleware `matcher` configuration, which makes the framework call the rule only for single-segment ids: framework routing, not part of the path function.
- Badges.Lower: models `toLowerCase` on ASCII letters only; full Unicode lower-casing is a library call.
- The mock API route handlers, their random id generation and their copy of the sample data: HTTP plumbing and randomness.
- The unknown-id placeholder record returned by the mock `GET /api/requests/[id]` handler, and ticket comments: route-handler and detail-page data, not modelled.
