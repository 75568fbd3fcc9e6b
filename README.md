# Admin panel screens, modelled in Dafny

This project models the client-side logic of the MosPolyNavigation admin panel, a React application. It covers:

- the statistics dashboard and its date-range selector;
- the role editor;
- the role-assignment screen;
- the user editor;
- the role and user tables;
- the review list and the review page;
- the automatic breadcrumbs.

Each component's `useState` cells become the fields of a Dafny `class`. Each event handler becomes a method, and its `modifies` clause names exactly the cells it writes. The pure pieces become functions, with lemmas stating what the screens rely on. These pieces are the updaters passed to `setState`, the filters and maps, the pagination arithmetic and the route matching.

Modules:

- `Js`: the JavaScript built-ins the screens use. These are `Array.prototype.slice` with its index normalisation, `filter`, `map`, `find`, `findIndex`, `String.prototype.split` and `includes`, the blankness test behind `!s.trim()`, and an add-or-remove toggle on arrays.
- `Paging`: the `Math.ceil(n / rows)` page count and the `slice((page - 1) * rows, …)` window, both repeated across three tables. Also the "first k, and was there more" preview used for chips.
- `Defs`: the interval tags and the `DateInterval` record.
- `DateSelectors` and `UseDateSelectors`: the interval selector and the hook that starts it.
- `Dashboard`: the fetch effect, modelled as a small state machine.
- `AutoBreadcrumbs`: mapping the page path to a breadcrumb trail. This includes a model of `matchRoute`'s regular expression as a token matcher.
- `RoleEditPage`, `RolesPage`, `UserEditPage`, `RoleTable`, `UsersTable`, `ReviewsPage`, `ReviewPage`: one module per screen.

Inputs the model receives as parameters:

- the clock (`Date.now()`, today's day number);
- dayjs formatting and `year()`/`month()`;
- `toLowerCase` and `decodeURIComponent`;
- `Number()`, which returns `None` for NaN;
- `getReviewImageUrl`;
- the configured `BASE_PATH`;
- the results of network calls.

Behaviour of the code as written, which the model follows:

- **Dashboard staleness guard.** `isRequestValid` compares each date with a copy of itself taken in the same closure, so it always holds. `Dashboard.RequestAlwaysValid` states this, and `Dashboard.LateResponseIsApplied` shows a response for an interval that has since been replaced still landing in the charts. The name `isRequestValid` suggests stale responses were meant to be dropped; the model follows the code.
- **Role ids in `Role.tsx`.** A new role gets the id `roles.length + 1`, which can repeat an existing id after a deletion. `RoleTable.CreatedIdCanRepeat` exhibits such a case.
- **Fallback when `split` is short.** `handleSelectChange` reads `value.split('_')[1]` and `[2]`. A missing part would be `undefined` in JavaScript and is modelled as `""`.

## Model

| member | source | states |
|---|---|---|
| Defs.TypeOfTag | src/components/defs.ts:6-16 | reading a string back as an interval type only yields a type whose tag is that string |
| Defs.Tag | src/components/defs.ts:6-15 | the string of each interval type; `TagRoundTrip`, `EightDistinctTags` and `TagsHaveNoUnderscore` state its properties |
| Defs.EightDistinctTags | src/components/defs.ts:6-15 | there are exactly eight interval types, every type is listed, and their tag strings are pairwise different |
| Defs.TagRoundTrip | src/components/defs.ts:6-16 | a type's tag reads back as that same type |
| Defs.TagsHaveNoUnderscore | src/components/defs.ts:6-15 | no tag is empty or contains `_`, the separator of serialised intervals |
| Defs.AbsentFlagIsNotSet | src/components/defs.ts:36-45 | an interval counts as set only when `isSetted` is present and true |
| Defs.IsSet | src/pages/Dashboard.tsx:29 | an interval counts as set when `isSetted` is present and true; `AbsentFlagIsNotSet` states the absent case |
| UseDateSelectors.InitialInterval | src/hooks/useDateSelectors.ts:10-15 | the hook starts with a Month interval from the first available day (the server's if known, else the configured one) to today, with the flag present and false |
| UseDateSelectors.InitialStartIsYearBefore | src/hooks/useDateSelectors.ts:8-15 | whichever source supplies the first day, the initial start is the date one year before today |
| DateSelectors.SelectValue | src/components/DateSelectors.tsx:52-64 | an empty value changes nothing; any other value yields an interval marked as set |
| DateSelectors.SelectValueRoundTrip | src/components/DateSelectors.tsx:52-64 | parsing `type_start_end` gives back the three parts when none contains `_` |
| DateSelectors.Encode | src/components/DateSelectors.tsx:33-34 | a preset's value is its type, start and end joined by `_`; `SelectValueRoundTrip` reads it back |
| DateSelectors.TodayValue | src/components/DateSelectors.tsx:33 | the Today value; `TodayAndYesterday` reads it back as a one-day interval on today |
| DateSelectors.YesterdayValue | src/components/DateSelectors.tsx:34 | the Yesterday value; `TodayAndYesterday` reads it back as a one-day interval on the day before |
| DateSelectors.TodayAndYesterday | src/components/DateSelectors.tsx:33-34 | the Today and Yesterday presets select one-day intervals on today and on the day before |
| DateSelectors.PeriodStart | src/components/DateSelectors.tsx:67-76 | a period starts `days - 1` days before today, clamped up to the first available day |
| DateSelectors.CreatePeriodRange | src/components/DateSelectors.tsx:67-76 | a week or month value from the clamped start to today; `PeriodRange` reads it back and bounds its span |
| DateSelectors.ButtonValue | src/components/DateSelectors.tsx:219-262 | the value behind each preset button, none for Quarter, Year and Custom; `ButtonSelectsItsType` states what each one selects |
| DateSelectors.PeriodRange | src/components/DateSelectors.tsx:67-76 | a week or month range ends today, never starts before the first day, and spans at most `days` days |
| DateSelectors.ButtonSelectsItsType | src/components/DateSelectors.tsx:219-262 | exactly Today, Yesterday, Week, Month and AllTime have preset buttons; each selects its own type as a set interval ending today (yesterday for Yesterday) |
| DateSelectors.CalendarChange | src/components/DateSelectors.tsx:79-104 | anything but two dates is ignored; with a non-zero limit a span above it only raises the alert naming that limit; otherwise a set Custom interval on the two dates is emitted |
| DateSelectors.CalendarSpanRespected | src/components/DateSelectors.tsx:85-91 | with a positive limit an accepted range spans at most the limit; without a limit (absent or 0) every pair is accepted |
| DateSelectors.RangePatterns | src/components/DateSelectors.tsx:124-137 | the start date drops month and year when both are shared, drops only the year when only the year is shared, and keeps both otherwise; the end date always shows day, month and year |
| DateSelectors.FormatDateRange | src/components/DateSelectors.tsx:124-137 | the range label, start and end joined by ` - `; `RangeLabelEndsWithYear` states its end |
| DateSelectors.RangeLabelEndsWithYear | src/components/DateSelectors.tsx:124-137 | the range label always ends with the end date in the full day-month-year form |
| DateSelectors.CalendarValue | src/components/DateSelectors.tsx:140-148 | the calendar shows the interval's two dates for a Custom interval and nothing otherwise |
| DateSelectors.IsSelected | src/components/DateSelectors.tsx:187-191 | a button is drawn as selected when its type is the interval's; `OneSelectedButton` shows at most one is |
| DateSelectors.OneSelectedButton | src/components/DateSelectors.tsx:187-191 | at most one button is drawn as selected |
| DateSelectors.DefaultValue | src/components/DateSelectors.tsx:152-185 | Today, Yesterday, Week and Month always have a default value; AllTime has one only once the server supplied the first day; the value is that type's preset |
| DateSelectors.Selector.constructor | src/components/DateSelectors.tsx:37-49 | the calendar starts closed and empty, and the default is not yet applied |
| DateSelectors.Selector.SelectChange | src/components/DateSelectors.tsx:52-64 | the parent's interval becomes the parsed value, unless the value is empty |
| DateSelectors.Selector.PressButton | src/components/DateSelectors.tsx:219-262 | pressing a preset makes the interval a set interval of that preset's type |
| DateSelectors.Selector.CalendarChanged | src/components/DateSelectors.tsx:79-104 | an ignored change leaves all state alone; an over-long span only records the alert text; an accepted one sets the interval and closes the calendar |
| DateSelectors.Selector.SyncCalendar | src/components/DateSelectors.tsx:140-148 | the calendar value follows the current interval |
| DateSelectors.Selector.ApplyDefault | src/components/DateSelectors.tsx:150-185 | once the flag is set the interval never changes again; an omitted default only sets the flag; otherwise the default's value is selected exactly when it exists; the interval changes only together with setting the flag |
| DateSelectors.ApplyDefaultTwice | src/components/DateSelectors.tsx:150-185 | running the default effect twice with the same inputs has exactly the effect of one run |
| DateSelectors.ApplyPropDefaults | src/components/DateSelectors.tsx:40-41 | with the prop defaults `omit = []` and `AllTime`, the default is applied exactly once the server supplied the first day, and it selects a set AllTime interval ending today |
| Dashboard.IssueRequest | src/pages/Dashboard.tsx:34-38 | a request carries the closure's interval and copies of its two dates |
| Dashboard.HasToken | src/pages/Dashboard.tsx:29 | `!token` fails for a missing or empty token |
| Dashboard.ShouldFetch | src/pages/Dashboard.tsx:29-32 | the effect's guard: fetch only for a set interval with both dates, a token, and authentication finished; `FetchImpliesBounds` and `InitialIntervalDoesNotFetch` state its consequences |
| Dashboard.IsRequestValid | src/pages/Dashboard.tsx:35-38 | the staleness test compares the closure's dates with the copies taken from them; `RequestAlwaysValid` shows it always holds |
| Dashboard.RequestAlwaysValid | src/pages/Dashboard.tsx:35-38 | the staleness guard holds for every request the effect issues |
| Dashboard.DepsOf | src/pages/Dashboard.tsx:66 | the effect depends on the two dates, the flag, the token and the auth-loading state |
| Dashboard.TypeChangeDoesNotRefetch | src/pages/Dashboard.tsx:66 | changing only the interval type does not re-run the effect, and changing the start date does |
| Dashboard.ChartBound | src/pages/Dashboard.tsx:16-17 | a chart bound is `null` exactly for an empty date string |
| Dashboard.FetchImpliesBounds | src/pages/Dashboard.tsx:16-32 | whenever a request goes out, both chart bounds are present |
| Dashboard.InitialIntervalDoesNotFetch | src/pages/Dashboard.tsx:29-32 | the hook's initial interval never passes the guard, so nothing is fetched before a selection |
| Dashboard.Dashboard.constructor | src/pages/Dashboard.tsx:19-26 | no chart data, loading, no error |
| Dashboard.Dashboard.SetInterval | src/pages/Dashboard.tsx:66 | the interval is replaced, and the effect re-runs exactly when a dependency changed |
| Dashboard.Dashboard.SetAuth | src/pages/Dashboard.tsx:66 | token and auth state are replaced, and the effect re-runs exactly when one changed |
| Dashboard.Dashboard.RunEffect | src/pages/Dashboard.tsx:28-45 | when the guard fails, loading is cleared and no request is issued; otherwise loading is set, the error is cleared and the request for the current interval is issued |
| Dashboard.Dashboard.Complete | src/pages/Dashboard.tsx:44-62 | for a valid request, data, a missing-data error or a failure error is stored and loading ends; an invalid request changes nothing |
| Dashboard.LateResponseIsApplied | src/pages/Dashboard.tsx:34-62 | a response arriving after the interval was replaced is still stored and ends loading |
| AutoBreadcrumbs.Lookup | src/components/AutoBreadcrumbs.tsx:61-65 | an exact route key is found exactly when it is in the table, with its own label |
| AutoBreadcrumbs.Compile | src/components/AutoBreadcrumbs.tsx:24-27 | every token comes from at least one pattern character; each `:name` becomes one parameter and every other character a literal, as `CompileLiteral` and `CompileParamTail` state |
| AutoBreadcrumbs.Matches | src/components/AutoBreadcrumbs.tsx:28-29 | a whole-path match consumes at least one path character per token |
| AutoBreadcrumbs.ParamThen | src/components/AutoBreadcrumbs.tsx:25 | a parameter consumes at least one character, so a match leaves fewer tokens than characters |
| AutoBreadcrumbs.MatchRoute | src/components/AutoBreadcrumbs.tsx:24-30 | `matchRoute` as a whole-path match of the compiled pattern; its meaning is stated by `LiteralPatternMatchesItself` and `UsersIdMatches` |
| AutoBreadcrumbs.Literals | src/components/AutoBreadcrumbs.tsx:24-27 | each character of a literal run becomes the literal token for that character, in order |
| AutoBreadcrumbs.LiteralsThen | src/components/AutoBreadcrumbs.tsx:24-30 | literal pattern text matches exactly a path beginning with that text, with the rest matched by the rest of the pattern |
| AutoBreadcrumbs.ParamAtEnd | src/components/AutoBreadcrumbs.tsx:24-30 | a trailing `:param` matches exactly a non-empty remainder without `/` |
| AutoBreadcrumbs.ParamThenMeans | src/components/AutoBreadcrumbs.tsx:24-30 | a `:param` followed by more pattern matches exactly when some non-empty run without `/` is followed by a path the rest of the pattern matches |
| AutoBreadcrumbs.CompileLiteral | src/components/AutoBreadcrumbs.tsx:24-30 | a pattern without `:` compiles to its literal characters |
| AutoBreadcrumbs.LiteralPatternMatchesItself | src/components/AutoBreadcrumbs.tsx:24-30 | a literal pattern matches exactly the identical path |
| AutoBreadcrumbs.CompileParamTail | src/components/AutoBreadcrumbs.tsx:24-27 | a literal prefix followed by one `:name` compiles to the prefix's characters and a single parameter |
| AutoBreadcrumbs.CompileUsersId | src/components/AutoBreadcrumbs.tsx:19 | `/users/:id` compiles to the literal `/users/` followed by one parameter |
| AutoBreadcrumbs.UsersIdMatches | src/components/AutoBreadcrumbs.tsx:24-30 | `/users/:id` matches exactly `/users/` followed by a non-empty segment without `/` |
| AutoBreadcrumbs.UsersIdExamples | src/components/AutoBreadcrumbs.tsx:16-30 | `/users/42` matches `/users/:id`; `/users` and `/users/42/x` do not |
| AutoBreadcrumbs.LogicalPath | src/components/AutoBreadcrumbs.tsx:38-48 | the logical path is never empty and starts with `/` |
| AutoBreadcrumbs.StripBase | src/components/AutoBreadcrumbs.tsx:38 | `BASE_PATH` with one trailing `/` dropped; `LogicalPathCases` states the cases on it |
| AutoBreadcrumbs.LogicalPathCases | src/components/AutoBreadcrumbs.tsx:38-48 | for any base setting, with its one trailing `/` dropped: a path under the base loses the base, and the base itself and a path outside it become `/` |
| AutoBreadcrumbs.Segments | src/components/AutoBreadcrumbs.tsx:50 | segments are non-empty and contain no `/` |
| AutoBreadcrumbs.PrefixPath | src/components/AutoBreadcrumbs.tsx:55-59 | the accumulated path has at least one character per segment and starts with `/` once there is a segment; `PrefixPathIsJoin` gives its exact form |
| AutoBreadcrumbs.Label | src/components/AutoBreadcrumbs.tsx:61-81 | a non-empty exact label wins, then the first matching pattern's label, then the decoded segment; `ProfileLabels` exhibits the first two |
| AutoBreadcrumbs.RootHasNoSegments | src/components/AutoBreadcrumbs.tsx:50 | the root path has no segments |
| AutoBreadcrumbs.FirstMatch | src/components/AutoBreadcrumbs.tsx:67-69 | the returned label belongs to a matching route key with no matching key before it; none is returned only when no key matches |
| AutoBreadcrumbs.AllCrumbs | src/components/AutoBreadcrumbs.tsx:51-83 | there is one crumb per segment after the home crumb `Главная` → `/`; `CrumbHrefs` and `CrumbTitles` give each crumb's link and title |
| AutoBreadcrumbs.AllCrumbsPrefix | src/components/AutoBreadcrumbs.tsx:57-83 | the crumbs of the first k segments are the first k+1 crumbs of the whole path |
| AutoBreadcrumbs.PrefixPathIsJoin | src/components/AutoBreadcrumbs.tsx:55-59 | the accumulated path is `/` followed by the segments joined with `/` |
| AutoBreadcrumbs.CrumbHrefs | src/components/AutoBreadcrumbs.tsx:55-59 | crumb i+1 links to the first i+1 segments, and each link extends the previous one by its own segment |
| AutoBreadcrumbs.CrumbTitles | src/components/AutoBreadcrumbs.tsx:55-81 | crumb i+1 is titled by the label rule applied to the path of the first i+1 segments and to segment i |
| AutoBreadcrumbs.CrumbAt | src/components/AutoBreadcrumbs.tsx:55-81 | crumb i+1 is the crumb built for the first i+1 segments: the label rule's title and that path as link |
| AutoBreadcrumbs.CrumbHref | src/components/AutoBreadcrumbs.tsx:55-59 | crumb i+1 links to the path accumulated over the first i+1 segments |
| AutoBreadcrumbs.CrumbHrefAt | src/components/AutoBreadcrumbs.tsx:55-59 | crumb k, for k of at least 1, links to the path accumulated over the first k segments |
| AutoBreadcrumbs.CrumbHrefPair | src/components/AutoBreadcrumbs.tsx:55-59 | crumbs i and i+1 link to the paths of the first i and the first i+1 segments |
| AutoBreadcrumbs.CrumbHrefStep | src/components/AutoBreadcrumbs.tsx:57-58 | each crumb after the first segment links to the previous crumb's link followed by `/` and its own segment |
| AutoBreadcrumbs.HrefExtends | src/components/AutoBreadcrumbs.tsx:57-58 | crumbs linking to two consecutive accumulated paths differ by `/` and one segment |
| AutoBreadcrumbs.PrefixPathSnoc | src/components/AutoBreadcrumbs.tsx:58 | one more segment appends `/` and that segment to the accumulated path |
| AutoBreadcrumbs.Build | src/components/AutoBreadcrumbs.tsx:35-88 | the loop produces the full crumb list with its last crumb popped, and the popped crumb's label |
| AutoBreadcrumbs.RootCrumbs | src/components/AutoBreadcrumbs.tsx:40-88 | on the root page the trail is empty and the current label is `Главная` |
| AutoBreadcrumbs.ProfileSplit | src/components/AutoBreadcrumbs.tsx:50 | `/users/42` splits on `/` into an empty piece, `users` and `42` |
| AutoBreadcrumbs.ProfileSegments | src/components/AutoBreadcrumbs.tsx:50 | `/users/42` splits into `users` and `42` |
| AutoBreadcrumbs.LeadingEmptyDropped | src/components/AutoBreadcrumbs.tsx:50 | `filter(Boolean)` drops the empty piece before the leading `/` and keeps non-empty pieces as they are |
| AutoBreadcrumbs.LookupProfile | src/components/AutoBreadcrumbs.tsx:16-22 | `/users` has an exact label and `/users/42` has none |
| AutoBreadcrumbs.NoLiteralMatch | src/components/AutoBreadcrumbs.tsx:24-30 | `/users/42` matches neither `/` nor `/users` |
| AutoBreadcrumbs.FirstMatchProfile | src/components/AutoBreadcrumbs.tsx:67-69 | the first pattern matching `/users/42` labels it `Профиль пользователя` |
| AutoBreadcrumbs.ProfilePaths | src/components/AutoBreadcrumbs.tsx:55-59 | the accumulated paths are `/users` and then `/users/42` |
| AutoBreadcrumbs.ProfileLabels | src/components/AutoBreadcrumbs.tsx:61-81 | `/users` gets its exact label, `/users/42` its pattern label, whatever the decoder does |
| AutoBreadcrumbs.ProfileCrumbs | src/components/AutoBreadcrumbs.tsx:51-88 | for `users`, `42` the trail is home then `Пользователи` → `/users`, and the current label is `Профиль пользователя` |
| AutoBreadcrumbs.ProfileLogicalPath | src/components/AutoBreadcrumbs.tsx:38-48 | with base `/`, `/users/42` keeps its path |
| AutoBreadcrumbs.ProfilePage | src/components/AutoBreadcrumbs.tsx:35-88 | the complete trail of the page `/users/42` under base `/` |
| RoleEditPage.Flip | src/pages/RoleEditPage.tsx:201 | a flip keeps id, name and description and negates the flag |
| RoleEditPage.FlipIn | src/pages/RoleEditPage.tsx:197-203 | the entity keeps its id, name and permission list shape; a flag flips exactly at the permission id |
| RoleEditPage.TogglePermission | src/pages/RoleEditPage.tsx:192-208 | only flags change; a flag changes exactly when both its entity id and its permission id match |
| RoleEditPage.TogglePermissionTwice | src/pages/RoleEditPage.tsx:192-208 | toggling the same permission twice restores the entities |
| RoleEditPage.SetAll | src/pages/RoleEditPage.tsx:265-270 | the entity keeps its id, name and permission list shape, and every flag takes the value |
| RoleEditPage.ToggleAll | src/pages/RoleEditPage.tsx:258-275 | only flags change; every flag of a matching entity becomes the negation of "all were checked"; other entities are untouched |
| RoleEditPage.AllChecked | src/pages/RoleEditPage.tsx:263 | `every(p => p.checked)`: every permission of the entity is checked |
| RoleEditPage.ToggleAllTwice | src/pages/RoleEditPage.tsx:258-275 | on a non-empty entity the switch flips between all checked and none checked |
| RoleEditPage.RemoveEntity | src/pages/RoleEditPage.tsx:237-241 | no remaining entity has the id, and every other entity stays |
| RoleEditPage.RemoveEntityKeepsOrder | src/pages/RoleEditPage.tsx:237-241 | removal keeps order and every copy of each entity with another id, and removing an absent id changes nothing |
| RoleEditPage.Percentage | src/pages/RoleEditPage.tsx:591 | 0 when there are no permissions, otherwise allowed/total·100 rounded half up |
| RoleEditPage.AddedMessage | src/pages/RoleEditPage.tsx:232 | the notice naming an added entity |
| RoleEditPage.PercentageBounds | src/pages/RoleEditPage.tsx:588-591 | the percentage lies in 0..100, is 100 when all are allowed and 0 when none are |
| RoleEditPage.Allowed | src/pages/RoleEditPage.tsx:589 | no more permissions are allowed than exist |
| RoleEditPage.SummaryOf | src/pages/RoleEditPage.tsx:587-591 | total is the permission count, allowed plus denied is total, and the percentage lies in 0..100 |
| RoleEditPage.AllCheckedAllowed | src/pages/RoleEditPage.tsx:587-591 | when every permission is checked, all of them count as allowed |
| RoleEditPage.InitialRole | src/pages/RoleEditPage.tsx:148 | the first role with the requested id if there is one, else the first role |
| RoleEditPage.RoleEditor.constructor | src/pages/RoleEditPage.tsx:148-159 | editing starts on the initial role with every entity expanded and every dialog closed |
| RoleEditPage.RoleEditor.Save | src/pages/RoleEditPage.tsx:166-171 | the edited role becomes the saved one |
| RoleEditPage.RoleEditor.Cancel | src/pages/RoleEditPage.tsx:174-179 | the edited role goes back to the saved one |
| RoleEditPage.RoleEditor.SetRoleName | src/pages/RoleEditPage.tsx:182-184 | only the name changes |
| RoleEditPage.RoleEditor.SetRoleDescription | src/pages/RoleEditPage.tsx:187-189 | only the description changes |
| RoleEditPage.RoleEditor.TogglePermissionOf | src/pages/RoleEditPage.tsx:192-208 | only the entities change, by the single-permission toggle |
| RoleEditPage.RoleEditor.ToggleAllPermissions | src/pages/RoleEditPage.tsx:258-275 | only the entities change, by the all-permissions toggle |
| RoleEditPage.RoleEditor.SetNewEntityName | src/pages/RoleEditPage.tsx:675 | the name field takes the typed text |
| RoleEditPage.RoleEditor.OpenAddEntity | src/pages/RoleEditPage.tsx:406 | the add dialog opens |
| RoleEditPage.RoleEditor.CloseAddEntity | src/pages/RoleEditPage.tsx:665 | the add dialog closes, from its close button and from its Cancel button at line 723 |
| RoleEditPage.RoleEditor.AddEntity | src/pages/RoleEditPage.tsx:211-234 | a blank name only shows a prompt; otherwise one entity with the current defaults is appended and expanded, and the field is cleared and the dialog closed |
| RoleEditPage.RoleEditor.ToggleDefault | src/pages/RoleEditPage.tsx:709-713 | the shared default permission with the id has its flag flipped in place; an unknown id changes nothing |
| RoleEditPage.RoleEditor.OpenDeleteModal | src/pages/RoleEditPage.tsx:477-481 | the delete dialog opens for that entity |
| RoleEditPage.RoleEditor.CloseDeleteModal | src/pages/RoleEditPage.tsx:751 | the delete dialog is reset |
| RoleEditPage.RoleEditor.DeleteEntity | src/pages/RoleEditPage.tsx:237-246 | the entity leaves the role and the expanded list, and the dialog resets |
| RoleEditPage.RoleEditor.ConfirmDelete | src/pages/RoleEditPage.tsx:757 | a missing or zero id does nothing; any other id deletes that entity from the role and the expanded list, and resets the dialog |
| RoleEditPage.RoleEditor.ToggleEntityExpand | src/pages/RoleEditPage.tsx:249-255 | the id is removed when present, otherwise appended |
| RoleEditPage.SaveThenCancel | src/pages/RoleEditPage.tsx:166-179 | cancelling right after saving keeps the edits |
| RoleEditPage.SwitchedDefaultReachesNewEntity | src/pages/RoleEditPage.tsx:709-713 | flipping a default switch in the summary table changes what later-added entities start with |
| RolesPage.MarkFrom | src/pages/RolesPage.tsx:128 | only the flag changes, and it is set exactly when the user holds a role with that id |
| RolesPage.Sync | src/pages/RolesPage.tsx:125-130 | only flags change; a role is selected exactly when the user holds a role with its id |
| RolesPage.HasRole | src/pages/RolesPage.tsx:128 | `some`: the user holds a role with the id |
| RolesPage.Strip | src/pages/RolesPage.tsx:157 | a catalogue role without its `selected` flag |
| RolesPage.FilteredRoles | src/pages/RolesPage.tsx:133-136 | exactly the roles whose lowercased name or description contains the lowercased term are shown |
| RolesPage.MatchesTerm | src/pages/RolesPage.tsx:133-136 | the search test: the lowercased term occurs in the lowercased name or description; `FilteredRolesIsSubList` shows an empty term passes everything |
| RolesPage.FilteredRolesIsSubList | src/pages/RolesPage.tsx:133-136 | the filter keeps catalogue order, and an empty term shows every role |
| RolesPage.FlipIf | src/pages/RolesPage.tsx:141 | only the flag changes, and it flips exactly for a role with that id |
| RolesPage.ToggleRole | src/pages/RolesPage.tsx:139-143 | only flags change, and exactly those of roles with the id |
| RolesPage.ToggleRoleTwice | src/pages/RolesPage.tsx:139-143 | toggling a role twice restores the catalogue |
| RolesPage.SetAllSelected | src/pages/RolesPage.tsx:145-151 | every flag takes the value, and nothing else changes |
| RolesPage.SetAllSelectedIdempotent | src/pages/RolesPage.tsx:145-151 | selecting all (or none) twice is the same as once |
| RolesPage.SelectedCount | src/pages/RolesPage.tsx:179 | no more roles are selected than exist |
| RolesPage.SelectedRoles | src/pages/RolesPage.tsx:155-157 | the saved roles are exactly the selected ones without their flag, as many as are selected, in catalogue order |
| RolesPage.ResyncAfterSave | src/pages/RolesPage.tsx:125-159 | with unique ids, syncing against the roles just saved reproduces the catalogue |
| RolesPage.Chips | src/pages/RolesPage.tsx:351-365 | at most the first three permissions are shown, and a `+n` chip counting the rest appears exactly when there are more |
| RolesPage.RolesScreen.constructor | src/pages/RolesPage.tsx:53-123 | empty search and no notification |
| RolesPage.RolesScreen.SyncSelection | src/pages/RolesPage.tsx:125-130 | the catalogue is re-synced with the user's roles |
| RolesPage.RolesScreen.SetSearchTerm | src/pages/RolesPage.tsx:269 | the search term takes the typed text |
| RolesPage.RolesScreen.RoleToggle | src/pages/RolesPage.tsx:139-143 | the catalogue is toggled at the id |
| RolesPage.RolesScreen.SelectAll | src/pages/RolesPage.tsx:145-147 | every role becomes selected |
| RolesPage.RolesScreen.DeselectAll | src/pages/RolesPage.tsx:149-151 | no role stays selected |
| RolesPage.RolesScreen.Save | src/pages/RolesPage.tsx:154-167 | the user's roles become the selected roles, and the success message names the user |
| RolesPage.SaveAndResync | src/pages/RolesPage.tsx:125-167 | with unique ids, saving and the sync it triggers leave the selection as the user made it |
| RolesPage.SavedMessage | src/pages/RolesPage.tsx:163 | the success message naming the user |
| UserEditPage.CheckPassword | src/pages/UserEditPage.tsx:64-76 | a mismatch is reported before a short password; a password is accepted exactly when both fields agree and it has at least 6 characters |
| UserEditPage.ActiveMessage | src/pages/UserEditPage.tsx:61 | the alert naming the status the user now has |
| UserEditPage.UserEditor.constructor | src/pages/UserEditPage.tsx:28-52 | the form and the picker start from the user, with dialogs closed and fields empty |
| UserEditPage.UserEditor.Change | src/pages/UserEditPage.tsx:54-56 | only the named form field changes |
| UserEditPage.UserEditor.ToggleActive | src/pages/UserEditPage.tsx:58-62 | the status flips and the alert names the new status |
| UserEditPage.UserEditor.SetNewPassword | src/pages/UserEditPage.tsx:270 | only the new-password field changes |
| UserEditPage.UserEditor.SetConfirmPassword | src/pages/UserEditPage.tsx:279 | only the confirmation field changes |
| UserEditPage.UserEditor.OpenPasswordModal | src/pages/UserEditPage.tsx:196 | the password dialog opens |
| UserEditPage.UserEditor.ClosePasswordModal | src/pages/UserEditPage.tsx:286 | the password dialog closes |
| UserEditPage.UserEditor.ChangePassword | src/pages/UserEditPage.tsx:64-76 | on a mismatch or a short password only the alert changes; on success both fields clear and the dialog closes |
| UserEditPage.UserEditor.OpenRolesModal | src/pages/UserEditPage.tsx:214 | the role dialog opens |
| UserEditPage.UserEditor.CloseRolesModal | src/pages/UserEditPage.tsx:360 | the role dialog closes |
| UserEditPage.UserEditor.ToggleRole | src/pages/UserEditPage.tsx:78-84 | the role is removed when selected, otherwise appended |
| UserEditPage.UserEditor.SaveRoles | src/pages/UserEditPage.tsx:86-90 | the user's roles become the picker's selection, and the dialog closes |
| UserEditPage.UserEditor.Save | src/pages/UserEditPage.tsx:92-95 | only name and e-mail reach the user |
| UserEditPage.UserEditor.Cancel | src/pages/UserEditPage.tsx:97-101 | the form and the picker go back to the stored user |
| UserEditPage.CancelTwice | src/pages/UserEditPage.tsx:92-101 | after a save, cancelling keeps the form as saved |
| UserEditPage.ToggleActiveTwice | src/pages/UserEditPage.tsx:58-62 | two status switches restore the user |
| RoleTable.UpdateRoles | src/pages/Role.tsx:117-121 | roles with the id take name and entities from the form and keep id and user count; other roles are unchanged |
| RoleTable.UpdateRolesIdempotent | src/pages/Role.tsx:117-121 | applying the same update twice is the same as once |
| RoleTable.NewRole | src/pages/Role.tsx:124-129 | a created role has id `length + 1`, no users, and the form's name and entities |
| RoleTable.DeletedMessage | src/pages/Role.tsx:109 | the notice naming a deleted role |
| RoleTable.UpdatedMessage | src/pages/Role.tsx:122 | the notice naming an updated role |
| RoleTable.CreatedMessage | src/pages/Role.tsx:131 | the notice naming a created role |
| RoleTable.RemoveRole | src/pages/Role.tsx:108 | no remaining role has the id, and every other role stays |
| RoleTable.RemoveRoleKeepsOrder | src/pages/Role.tsx:108 | deletion keeps order and keeps every copy of each role with another id |
| RoleTable.CreatedIdCanRepeat | src/pages/Role.tsx:124-130 | after deleting role 2 of roles 1, 2, 3, a new role gets id 3 again |
| RoleTable.SaveEnabled | src/pages/Role.tsx:336 | saving is possible exactly when the name is not blank |
| RoleTable.DeleteDisabled | src/pages/Role.tsx:285 | deletion is blocked exactly for a selected role that has users |
| RoleTable.RenderEntities | src/pages/Role.tsx:145-147 | the first three entities are shown with an ellipsis exactly when there are more; otherwise every entity is shown |
| RoleTable.RolesTable.constructor | src/pages/Role.tsx:56-71 | first page, dialogs closed, nothing selected, empty form |
| RoleTable.RolesTable.TotalPages | src/pages/Role.tsx:74 | the role count over five per page, rounded up, as `Paging.TotalPages` states |
| RoleTable.RolesTable.DisplayedRoles | src/pages/Role.tsx:74-76 | a page shows at most five roles |
| RoleTable.RolesTable.SetPage | src/pages/Role.tsx:258 | the page number is set |
| RoleTable.RolesTable.OpenDelete | src/pages/Role.tsx:78-81 | the role is selected and the delete dialog opens |
| RoleTable.RolesTable.OpenEdit | src/pages/Role.tsx:83-98 | an existing role fills the form from itself, no role clears the form, and the edit dialog opens |
| RoleTable.RolesTable.SetFormName | src/pages/Role.tsx:137-139 | only the form's name changes |
| RoleTable.RolesTable.SetFormEntities | src/pages/Role.tsx:141-143 | only the form's entities change |
| RoleTable.RolesTable.CloseModals | src/pages/Role.tsx:100-104 | both dialogs close and the selection clears |
| RoleTable.RolesTable.Delete | src/pages/Role.tsx:106-113 | with nothing selected nothing changes; otherwise the selected role is removed, named in the notice, and the dialogs close |
| RoleTable.RolesTable.Save | src/pages/Role.tsx:115-135 | a selected role is updated from the form, otherwise a new role is appended; the notice names the form's name and the dialogs close |
| UsersTable.ToggleActiveIn | src/pages/Users.tsx:68-70 | only `active` flags change, and exactly those of users with the id |
| UsersTable.ToggleAbsentId | src/pages/Users.tsx:65-74 | an unknown id leaves the users unchanged |
| UsersTable.ToggleNotice | src/pages/Users.tsx:66-71 | there is a notice exactly when a user has the id |
| UsersTable.NoticeNamesNewStatus | src/pages/Users.tsx:66-71 | the notice names the first such user and that user's new status |
| UsersTable.RemoveUser | src/pages/Users.tsx:58 | no remaining user has the id, and every other user stays |
| UsersTable.DeletedMessage | src/pages/Users.tsx:59 | the notice naming a deleted user |
| UsersTable.RemoveUserKeepsOrder | src/pages/Users.tsx:58 | deletion keeps order and keeps every copy of each user with another id |
| UsersTable.RenderRoles | src/pages/Users.tsx:76-78 | the first two roles are shown with an ellipsis exactly when there are more; otherwise every role is shown |
| UsersTable.UsersScreen.constructor | src/pages/Users.tsx:34-45 | first page, dialog closed, nothing selected |
| UsersTable.UsersScreen.TotalPages | src/pages/Users.tsx:47 | the user count over five per page, rounded up, as `Paging.TotalPages` states |
| UsersTable.UsersScreen.CurrentUsers | src/pages/Users.tsx:47-49 | a page shows at most five users |
| UsersTable.UsersScreen.SetPage | src/pages/Users.tsx:186 | the page number is set |
| UsersTable.UsersScreen.AskDelete | src/pages/Users.tsx:51-54 | the user is selected and the dialog opens |
| UsersTable.UsersScreen.CancelDelete | src/pages/Users.tsx:202 | the dialog closes and the selection stays |
| UsersTable.UsersScreen.ConfirmDelete | src/pages/Users.tsx:56-63 | with nothing selected nothing changes; otherwise the selected user is removed and named, and the dialog closes |
| UsersTable.UsersScreen.ToggleActive | src/pages/Users.tsx:65-74 | an unknown id changes nothing; otherwise the user's status flips and the notice names the new status |
| ReviewsPage.TruncateText | src/pages/ReviewsPage.tsx:73-76 | text within the limit is kept; longer text is cut to the limit and ends in `...` |
| ReviewsPage.ReviewCell | src/pages/ReviewsPage.tsx:73-75 | the review text cell under the default limit of 100: short text is kept; longer text keeps its first 100 characters and ends in `...` |
| ReviewsPage.ShowPager | src/pages/ReviewsPage.tsx:175 | the pager is drawn only with more than one page |
| ReviewsPage.BackDisabled | src/pages/ReviewsPage.tsx:180 | the back button is disabled on the first page; `PagerStaysInRange` uses it |
| ReviewsPage.ForwardDisabled | src/pages/ReviewsPage.tsx:198 | the forward button is disabled on the last page; `PagerStaysInRange` uses it |
| ReviewsPage.ReviewsList.constructor | src/pages/ReviewsPage.tsx:26-33 | no reviews, loading, no error, first page |
| ReviewsPage.ReviewsList.TotalPages | src/pages/ReviewsPage.tsx:55 | the review count over ten per page, rounded up, as `Paging.TotalPages` states |
| ReviewsPage.ReviewsList.CurrentReviews | src/pages/ReviewsPage.tsx:55-57 | a page shows at most ten reviews |
| ReviewsPage.ReviewsList.EmptyRow | src/pages/ReviewsPage.tsx:162-170 | the "not found" row is drawn when the current page is empty; `EmptyRowIffPastEnd` says when that is |
| ReviewsPage.ReviewsList.EmptyRowIffPastEnd | src/pages/ReviewsPage.tsx:162-170 | the "not found" row appears exactly when the page lies past the last page |
| ReviewsPage.ReviewsList.FooterTotal | src/pages/ReviewsPage.tsx:207 | the footer counts every review, not just the page |
| ReviewsPage.ReviewsList.Load | src/pages/ReviewsPage.tsx:35-53 | without a token nothing happens; otherwise the reviews or the load error are stored and loading ends |
| ReviewsPage.ReviewsList.SetPage | src/pages/ReviewsPage.tsx:190 | the page number is set |
| ReviewsPage.ReviewsList.Back | src/pages/ReviewsPage.tsx:180-181 | the page goes back by one |
| ReviewsPage.ReviewsList.Forward | src/pages/ReviewsPage.tsx:198-199 | the page goes forward by one |
| ReviewsPage.PagerStaysInRange | src/pages/ReviewsPage.tsx:175-202 | pressing an enabled pager button keeps the page within 1..totalPages |
| ReviewPage.FindReview | src/pages/ReviewPage.tsx:55-56 | the first review whose id is numerically equal to the route id is found, and nothing only when none is |
| ReviewPage.SameNumber | src/pages/ReviewPage.tsx:55-56 | two ids are the same review when both convert to the same number, so NaN equals nothing; `NaNFindsNothing` uses it |
| ReviewPage.NaNFindsNothing | src/pages/ReviewPage.tsx:55-56 | a route id that is not a number finds no review |
| ReviewPage.DefaultStatus | src/pages/ReviewPage.tsx:68-71 | no status is preselected from an empty list; otherwise the first current status is, or else the first status |
| ReviewPage.Present | src/pages/ReviewPage.tsx:243 | a selection counts only when present and non-empty, as `!selectedStatus` tests; `SaveDisabled` uses it |
| ReviewPage.SaveDisabled | src/pages/ReviewPage.tsx:243 | saving is blocked exactly with no statuses or no selection |
| ReviewPage.ImageUrl | src/pages/ReviewPage.tsx:149 | there is an image link exactly when the review names an image |
| ReviewPage.ReviewScreen.constructor | src/pages/ReviewPage.tsx:33-44 | nothing loaded, loading, no alert |
| ReviewPage.ReviewScreen.FetchData | src/pages/ReviewPage.tsx:46-86 | without token or id nothing happens; a failed fetch or an absent review sets its error; a found review is stored, and the statuses and preselection are stored when they load; loading always ends |
| ReviewPage.ReviewScreen.SelectStatus | src/pages/ReviewPage.tsx:225-226 | the selection takes the chosen value |
| ReviewPage.ReviewScreen.StatusChange | src/pages/ReviewPage.tsx:88-102 | without token, id or selection nothing happens; otherwise the success alert shows and loading ends |
| ReviewPage.StatusFailureStillShowsReview | src/pages/ReviewPage.tsx:63-76 | a failed status request still leaves the review shown without an error |
| Js.ToggleMember | src/pages/UserEditPage.tsx:78-84 | the element is in the result exactly when it was not in the input; other elements stay; removal keeps order; addition appends |
| Js.ToggleMemberTwice | src/pages/RoleEditPage.tsx:249-255 | toggling twice restores membership, and a re-added element ends up last |
| Js.ToggleMemberRemovalCounts | src/pages/UserEditPage.tsx:78-84 | removing a present element drops every copy of it and keeps every copy of the others |
| Js.Find | src/pages/Users.tsx:66 | `find` yields nothing exactly when no element passes, else the first element that passes |
| Js.FindIndex | src/pages/RoleEditPage.tsx:710 | `findIndex` is -1 exactly when no element passes, else the first index that does |
| Js.Filter | src/pages/RoleEditPage.tsx:240 | `filter` keeps exactly the elements that pass |
| Js.Map | src/pages/RolesPage.tsx:140-142 | `map` keeps the length and applies the function at every index |
| Js.FilterIsSubsequence | src/pages/RoleEditPage.tsx:240 | `filter` keeps order |
| Js.FilterCount | src/pages/RoleEditPage.tsx:240 | `filter` keeps every copy of an element that passes and no copy of one that fails |
| Js.SubsequenceCons | src/pages/RolesPage.tsx:155-157 | a subsequence of a list stays one of that list with an element put in front |
| Js.SubsequenceDropHead | src/pages/RolesPage.tsx:155-157 | a subsequence without its first element is still a subsequence |
| Js.MapSubsequence | src/pages/RolesPage.tsx:155-157 | `map` over both lists keeps a subsequence one |
| Js.Split | src/components/DateSelectors.tsx:55-59 | `split` yields at least one part and no part holds the separator |
| Js.JoinSplit | src/components/AutoBreadcrumbs.tsx:50 | joining the parts of a split with the separator gives back the string |
| Js.IncludesMeansInfix | src/pages/RolesPage.tsx:133-136 | `includes` holds exactly when the text occurs at some position, and holds for the empty text |
| Js.Includes | src/pages/RolesPage.tsx:133-136 | `includes` on strings; `IncludesMeansInfix` gives its meaning |
| Js.IsWhitespace | src/pages/Role.tsx:336 | the characters `trim` removes |
| Js.Blank | src/pages/RoleEditPage.tsx:212 | `!s.trim()`: every character is one `trim` removes, also used at Role.tsx:336 |
| Js.IntToString | src/components/DateSelectors.tsx:88 | `${n}` for a whole number, also in the `+n` chip at RolesPage.tsx:363 |
| Js.SliceFromNonNegative | src/pages/Users.tsx:49 | a slice from a non-negative start is that window of the array, clipped at its end |
| Js.SliceWindowEmpty | src/pages/Users.tsx:49 | a non-empty window from a non-negative start is empty exactly when it starts at or past the end |
| Js.SliceIndex | src/pages/Users.tsx:49 | `slice`'s index normalisation: a negative index counts from the end, and the result is clipped to the length |
| Js.Slice | src/pages/Role.tsx:76 | `slice(start, end)` is never longer than the array; `SliceFromNonNegative` gives its contents |
| Paging.TotalPages | src/pages/Role.tsx:74 | the page count is the ceiling of rows over page size |
| Paging.PageSlice | src/pages/Role.tsx:75-76 | a page holds at most a page size of rows |
| Paging.PageWindow | src/pages/Users.tsx:47-49 | page p shows rows from (p-1)·size, clipped at the end |
| Paging.EmptyPageIffPastEnd | src/pages/ReviewsPage.tsx:55-57 | a page is empty exactly when it lies past the last page |
| Paging.EmptyPageIffNoStart | src/pages/ReviewsPage.tsx:56-57 | a page is empty exactly when its start index is at or past the end of the list |
| Paging.PastLastPage | src/pages/ReviewsPage.tsx:55-56 | page p starts at or past row n exactly when p exceeds the page count of n rows |
| Paging.EveryRowOnItsPage | src/pages/ReviewsPage.tsx:55-57 | row k is shown at position k mod size on page k div size + 1 |
| Paging.Preview | src/pages/Role.tsx:145-147 | the shown part is a prefix of at most k items, the whole list exactly when there is no more |

## Left out

- Rendering (JSX, styles, icons, the theme) and the date-picker styles in `defs.ts`: they compute no state.
- Navigation: `handleBack`, `handleCancel` on the role-assignment screen, the back links and the breadcrumb click handler. They only call the router.
- The clearing of notifications by `setTimeout` after 3 seconds: timers are not modelled, so a notice stays until the next one.
- The click-outside listener of the date selector: it only closes the calendar on DOM events.
- The week picker and the line charts are not part of this model.
- `src/config.ts` is not part of this model; `BASE_PATH` is a parameter.
- Network calls (`get_all_stats`, `getReviews`, `getReviewStatuses`) are inputs: each outcome is a parameter, either data or a thrown error.
- Asynchrony: the two review screens run their fetch as one atomic step, so interleavings with other events during an `await` are not modelled. The dashboard models the request and its completion as separate steps.
- `console.error` logging.
- Floating point: `Math.round(allowed / total * 100)` is computed exactly on rationals with halves rounded up, without double-precision error.
- dayjs parsing, formatting, `year()` and `month()`: these are parameters, and dates are day numbers.
- String functions: `toLowerCase` and `decodeURIComponent` are parameters, and `decodeURIComponent` throwing on malformed input is not modelled.
- Strings are sequences of Unicode scalar values, while JavaScript's `length` and `substring` count UTF-16 code units, two for a character outside the Basic Multilingual Plane. Lengths therefore agree only on text inside that plane.
- UserEditPage.CheckPassword: the 6-character minimum counts scalar values, so a password of three emoji (length 6 in JavaScript) is accepted by the code and refused by the model.
- ReviewsPage.TruncateText: the limit counts scalar values, so on text with characters outside the Basic Multilingual Plane the cut falls later than `substring` makes it, and never inside a surrogate pair.
- The selector props `omit` and `defaultDateInterval` are inputs of `ApplyDefault`; their prop defaults `[]` and AllTime are the constants `DefaultOmit` and `DefaultIntervalType`, used by `ApplyPropDefaults`.
- `parseInt` of route parameters gives either a number or nothing.
- The entity delete button and the default-permissions card being hidden for default roles (`isDefault`): screen layout is not modelled, so the model's handlers stay callable on any role.
- Route keys are matched as written: `matchRoute` escapes only `/`, so a key containing other regular-expression characters would behave differently; none of the keys has any.
- The `catch` branch of `handleStatusChange`: nothing in its `try` block can throw, so the branch is unreachable.
- The mock data (initial users, roles and role catalogues) is given to each screen's constructor instead of being built in.
