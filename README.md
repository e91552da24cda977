# SCADA reporting studio: the logic behind the forms

A Dafny model of the logic inside the reporting UI of the studio. The UI is a
Next.js/React application with a login form, a side bar, a top bar, and a
five-step report wizard. Each wizard step is a form or a table. The markup is
left aside. What remains is small, self-contained logic over strings and
sequences, modelled here one module per source file:

| module | source file | what it models |
|---|---|---|
| `Preview` | `src/components/report-generator/step3-preview.tsx` | the data-preview table: per-row "included" flags, select-all, free-text search over every field, a stable single-key sort that runs in place on the state array when the search is empty, pages of ten rows with clamped Previous/Next |
| `Breadcrumbs` | `src/components/layout/top-bar.tsx` | the breadcrumb trail built from the path, and which crumb is current |
| `Criteria` | `src/components/report-generator/step1-criteria.tsx` | the twenty-machine catalogue, the machine search, the check boxes that add and remove ids, the criteria schema |
| `Templates` | `src/components/report-generator/step2-template.tsx` | the template catalogue, name and category filter, derived category list, single selection |
| `Output` | `src/components/report-generator/step5-output.tsx` | the output schema (format, file name, comma-separated recipients), defaults, the reset of the e-mail fields when e-mailing is switched off |
| `Login` | `src/components/auth/login-form.tsx` | the SQL and Windows schemas, the reset on a mode change, the field icon, the submit button's disabled state |
| `Sidebar` | `src/components/layout/app-sidebar.tsx` | which navigation entry is highlighted for a path |
| `Charts` | `src/components/report-generator/step4-charts.tsx` | the chart schema and defaults, which preview is shown, axis-key fallbacks, slice colours |

Three modules hold the JavaScript built-ins these rely on:
- `Wrappers` holds `Option`.
- `Seqs` holds `Array.prototype.filter` and the insertion-ordered de-duplication of `Array.from(new Set(xs))`.
- `Text` holds several string operations:
  - ASCII `toLowerCase` and `toUpperCase`;
  - `includes`;
  - the string `<` used by the sort;
  - `split` and `join`;
  - `trim`;
  - decimal rendering with `padStart`.

State that the components keep with `useState` or in a form becomes a class with `modifies` clauses:
- `Preview.PreviewTable`, which holds the rows in an `array`;
- `Criteria.CriteriaPanel`;
- `Templates.TemplatePicker`;
- `Output.OutputForm`;
- `Login.LoginForm`.

The two loops of the source are methods proved against functional specifications:
- the breadcrumb loop;
- the in-place sort.

Rows, dates, "today" and the e-mail address check are parameters.

Where the code does something one might not expect, the model follows the code:
- The criteria schema does not check that the range's start precedes its end.
- The header check box of the preview looks at every row, not only at the rows the search shows.
- Switching charts on or off does not reset the chart fields.
- The login values are reset only when the mode actually changes.

## Model

| member | source | states |
|---|---|---|
| Preview.ToggleIncluded | src/components/report-generator/step3-preview.tsx:48-54 | same length and order; only rows whose id is the given id change, and only their `included` flag, which flips |
| Preview.ToggleTwice | src/components/report-generator/step3-preview.tsx:48-54 | toggling the same id twice restores the rows |
| Preview.SelectAll | src/components/report-generator/step3-preview.tsx:56-58 | every row gets `included == checked`; no other field and no order changes |
| Preview.SelectAllHeader | src/components/report-generator/step3-preview.tsx:119 | after select-all the header box is checked iff `checked` or the table is empty |
| Preview.ToggleUnchecksHeader | src/components/report-generator/step3-preview.tsx:119 | from a fully included table, unticking any row unchecks the header box |
| Preview.SearchFilter | src/components/report-generator/step3-preview.tsx:60-68 | an empty term keeps every row; otherwise exactly the rows with a field (id, stringified flag included) whose lower case contains the lower-cased term are kept |
| Preview.SearchFilterIsSubsequence | src/components/report-generator/step3-preview.tsx:60-68 | the kept rows are a subsequence of the table |
| Preview.RowMatches | src/components/report-generator/step3-preview.tsx:62-67 | a row matches iff the lower-cased term occurs in the lower case of its id, timestamp, machine, parameter, value, unit, or its flag written "true"/"false" |
| Preview.EmptyTermMatchesEveryRow | src/components/report-generator/step3-preview.tsx:62-67 | filtering with the empty term would keep every row as well |
| Preview.SearchSeesIncludedFlag | src/components/report-generator/step3-preview.tsx:63-66 | the search sees the stringified flag: an excluded row matches "FALSE" |
| Preview.CompareConsistent | src/components/report-generator/step3-preview.tsx:71-79 | the comparator is antisymmetric, zero exactly on equal keys, and transitive |
| Preview.SortedMeansOrderedKeys | src/components/report-generator/step3-preview.tsx:72-77 | sorted ascending means non-decreasing keys, descending non-increasing |
| Preview.Compare | src/components/report-generator/step3-preview.tsx:71-79 | -1, 0 or 1; negative iff the first row's key is smaller (ascending) or larger (descending) in string order; zero iff neither key is smaller |
| Preview.SortSpecPermutes | src/components/report-generator/step3-preview.tsx:70-80 | sorting yields a permutation of its input |
| Preview.SortSpecSorted | src/components/report-generator/step3-preview.tsx:70-80 | sorting yields a sequence ordered by the comparator |
| Preview.SortSpecOfSorted | src/components/report-generator/step3-preview.tsx:70-80 | rows already in order are left as they are |
| Preview.SortIdempotent | src/components/report-generator/step3-preview.tsx:70-80 | sorting twice with one configuration equals sorting once |
| Preview.SortSpecStable | src/components/report-generator/step3-preview.tsx:70-80 | rows with equal keys keep their relative order (the sort is stable) |
| Preview.InsertIntoPrefix | src/components/report-generator/step3-preview.tsx:71-79 | one in-place insertion step: the prefix becomes the specification's insertion of the next row, the rest of the array is untouched |
| Preview.SortRows | src/components/report-generator/step3-preview.tsx:71-79 | the in-place sort leaves the array equal to the specification's sort of its old contents |
| Preview.NextSortConfig | src/components/report-generator/step3-preview.tsx:84-90 | the key is the clicked key; descending iff the current configuration is that key ascending |
| Preview.SortRequestsAlternate | src/components/report-generator/step3-preview.tsx:84-90 | clicking one header repeatedly alternates the direction |
| Preview.FilteredRowsProperties | src/components/report-generator/step3-preview.tsx:60-82 | the listed rows are a sorted permutation of the search result; recomputing over sorted rows changes nothing |
| Preview.FilteredRows | src/components/report-generator/step3-preview.tsx:60-82 | a permutation of the search result, ordered by the comparator when a sort is requested and the search result itself otherwise |
| Preview.TotalPages | src/components/report-generator/step3-preview.tsx:93 | the ceiling of n / 10: enough pages for n rows and no empty last page |
| Preview.PageSlice | src/components/report-generator/step3-preview.tsx:92 | at most 10 rows, row i of page p is row (p-1)*10+i; non-empty iff p is within the page count; full except on the last page |
| Preview.PagesCoverRows | src/components/report-generator/step3-preview.tsx:92-93 | the pages laid end to end are exactly the rows |
| Preview.PreviousPage | src/components/report-generator/step3-preview.tsx:169 | never below 1; one less from any page above 1; exactly 1 from page 1 (or below) |
| Preview.NextPage | src/components/report-generator/step3-preview.tsx:180 | never above the page count; one more from any page below it; exactly the page count from the last page (or beyond) |
| Preview.PageButtonsStayInRange | src/components/report-generator/step3-preview.tsx:169-181 | from a page in range both buttons keep the page in range |
| Preview.PreviewTable.constructor | src/components/report-generator/step3-preview.tsx:42-46 | the given rows, empty term, no sort, page 1 |
| Preview.PreviewTable.IncludeToggle | src/components/report-generator/step3-preview.tsx:48-54 | the state becomes a fresh array holding the toggled rows; nothing else changes |
| Preview.PreviewTable.SelectAllRows | src/components/report-generator/step3-preview.tsx:56-58 | the state becomes a fresh array with every flag set; nothing else changes |
| Preview.PreviewTable.HeaderChecked | src/components/report-generator/step3-preview.tsx:119 | checked iff every row of the table is included, hence checked for an empty table |
| Preview.PreviewTable.SetSearchTerm | src/components/report-generator/step3-preview.tsx:103-106 | stores the term and resets the page to 1 |
| Preview.PreviewTable.RequestSort | src/components/report-generator/step3-preview.tsx:84-90 | stores the next sort configuration; nothing else changes |
| Preview.PreviewTable.FilteredData | src/components/report-generator/step3-preview.tsx:60-82 | the view holds the filtered, sorted rows; with an empty term it is the state array itself, reordered in place; otherwise a fresh array and the state is unchanged |
| Preview.PreviewTable.PaginatedData | src/components/report-generator/step3-preview.tsx:92 | the current page's slice of the filtered, sorted rows, at most 10 |
| Preview.PreviewTable.PageCount | src/components/report-generator/step3-preview.tsx:93 | enough pages of ten for the rows the search keeps, no empty last page, and zero pages iff the search keeps no row |
| Preview.PreviewTable.GoToPreviousPage | src/components/report-generator/step3-preview.tsx:169 | the page becomes `max(1, page - 1)` |
| Preview.PreviewTable.GoToNextPage | src/components/report-generator/step3-preview.tsx:180 | the page becomes `min(totalPages, page + 1)` and stays within the page count |
| Breadcrumbs.Segments | src/components/layout/top-bar.tsx:30 | every segment is non-empty and holds no slash |
| Breadcrumbs.Capitalize | src/components/layout/top-bar.tsx:37 | the first character upper-cased, the rest unchanged |
| Breadcrumbs.LabelSpelling | src/components/layout/top-bar.tsx:37 | a label has the segment's length; each hyphen becomes a space, the first character and every character after a hyphen is upper-cased, all others are kept |
| Breadcrumbs.JoinCapitalized | src/components/layout/top-bar.tsx:37 | capitalising hyphen-free words and joining them with spaces maps their hyphen-joined form position by position |
| Breadcrumbs.TrailOf | src/components/layout/top-bar.tsx:29-42 | the trail has one crumb per segment after Home, which comes first |
| Breadcrumbs.GenerateBreadcrumbs | src/components/layout/top-bar.tsx:29-42 | the loop's result is the trail: Home, then one crumb per segment, labelled after it and linking to "/" and the segments so far |
| Breadcrumbs.TrailStep | src/components/layout/top-bar.tsx:34-40 | one turn of the loop extends `currentPath` by "/" and the segment and the trail by that crumb |
| Breadcrumbs.SegmentsAppend | src/components/layout/top-bar.tsx:30 | the segments of `a + "/" + b` are those of `a` followed by those of `b` |
| Breadcrumbs.LeadingSlash | src/components/layout/top-bar.tsx:30 | a leading slash adds no segment |
| Breadcrumbs.TrailingSlash | src/components/layout/top-bar.tsx:30 | a trailing slash adds no segment |
| Breadcrumbs.DoubledSlash | src/components/layout/top-bar.tsx:30 | a doubled slash adds no segment |
| Breadcrumbs.RootTrailIsHome | src/components/layout/top-bar.tsx:30-31 | "/" and "" give only the Home crumb |
| Breadcrumbs.HrefSegments | src/components/layout/top-bar.tsx:33-38 | the path built from segments splits back into exactly those segments |
| Breadcrumbs.TrailLinksExtend | src/components/layout/top-bar.tsx:33-38 | each link is the previous one plus "/" and a segment, hence a prefix of the next |
| Breadcrumbs.TrailProperties | src/components/layout/top-bar.tsx:30-40 | one crumb more than there are segments, Home first, and crumb k's link has exactly the first k segments |
| Breadcrumbs.CrumbHref | src/components/layout/top-bar.tsx:34-40 | for well-formed segments, crumb k's link splits back into exactly the first k segments |
| Breadcrumbs.LabelWords | src/components/layout/top-bar.tsx:37 | a label's words are the capitalised hyphen-separated words, one more than there are hyphens |
| Breadcrumbs.Render | src/components/layout/top-bar.tsx:59-66 | one rendered crumb per crumb, in order |
| Breadcrumbs.RenderMarksLastOnly | src/components/layout/top-bar.tsx:62-66 | exactly the last crumb is current, and every crumb but the first has a chevron |
| Criteria.Pad3 | src/components/report-generator/step1-criteria.tsx:32-33 | numbers below 1000 render as exactly three characters |
| Criteria.Pad3Digits | src/components/report-generator/step1-criteria.tsx:32-33 | the padded number consists of decimal digits only |
| Criteria.AllMachines | src/components/report-generator/step1-criteria.tsx:31-34 | twenty machines |
| Criteria.MachineNumbering | src/components/report-generator/step1-criteria.tsx:31-34 | machine i's id is "MACHINE-" and three characters, all decimal digits, reading back as i + 1; its name is "Machine " and the same digits |
| Criteria.CatalogueIdsDistinct | src/components/report-generator/step1-criteria.tsx:31-34 | no two machines share an id |
| Criteria.FilteredMachines | src/components/report-generator/step1-criteria.tsx:54-56 | exactly the catalogue machines whose lower-cased name contains the lower-cased search |
| Criteria.FilteredMachinesProperties | src/components/report-generator/step1-criteria.tsx:54-56 | the listed machines keep catalogue order; an empty search lists all twenty |
| Criteria.RemoveId | src/components/report-generator/step1-criteria.tsx:142-145 | the id is gone and every other id is kept |
| Criteria.RemoveIdProperties | src/components/report-generator/step1-criteria.tsx:141-145 | the rest keep their order, and exactly the copies of the id are dropped |
| Criteria.RemoveAbsentId | src/components/report-generator/step1-criteria.tsx:142-145 | removing an id that is not selected changes nothing |
| Criteria.CheckThenUncheck | src/components/report-generator/step1-criteria.tsx:138-146 | checking then unchecking an unselected machine restores the selection |
| Criteria.ValidateCriteria | src/components/report-generator/step1-criteria.tsx:21-28 | valid iff both dates present, a machine selected and a report type given; each finding iff its condition; no finding twice |
| Criteria.ReversedRangeAccepted | src/components/report-generator/step1-criteria.tsx:21-28 | a range ending before it starts passes |
| Criteria.Message | src/components/report-generator/step1-criteria.tsx:23-27 | the schema's message for each finding (a table; no contract of its own) |
| Criteria.CriteriaPanel.constructor | src/components/report-generator/step1-criteria.tsx:38-47 | empty search, no machines, no report type, both dates today |
| Criteria.CriteriaPanel.SetMachineSearch | src/components/report-generator/step1-criteria.tsx:119-120 | stores the search; the selection is untouched, so hidden machines stay selected |
| Criteria.CriteriaPanel.CheckedChange | src/components/report-generator/step1-criteria.tsx:137-146 | checking appends the id; unchecking removes every copy; afterwards the box shows `checked` |
| Criteria.CriteriaPanel.SelectDateRange | src/components/report-generator/step1-criteria.tsx:98 | a cleared calendar leaves both dates absent |
| Criteria.CriteriaPanel.SetReportType | src/components/report-generator/step1-criteria.tsx:174 | stores the report type; nothing else changes |
| Criteria.CriteriaPanel.IsChecked | src/components/report-generator/step1-criteria.tsx:137 | a machine's box is checked iff its id is in the selection (defined so; CheckedChange states the box after a click) |
| Templates.MockTemplates | src/components/report-generator/step2-template.tsx:20-26 | five templates |
| Templates.TemplateIdsDistinct | src/components/report-generator/step2-template.tsx:20-26 | the ids are pairwise distinct |
| Templates.FilteredTemplates | src/components/report-generator/step2-template.tsx:34-37 | exactly the catalogue templates whose name matches the term and whose category passes the choice |
| Templates.FilteredTemplatesProperties | src/components/report-generator/step2-template.tsx:34-37 | catalogue order kept; "" with "all" lists all five; an unknown category lists none |
| Templates.CategoriesProperties | src/components/report-generator/step2-template.tsx:39 | "all" first, every category listed, nothing else, nothing twice, the categories in order of first occurrence in the catalogue |
| Templates.Categories | src/components/report-generator/step2-template.tsx:39 | the list starts with "all" and every later entry is a category of the catalogue |
| Templates.CategoryListProperties | src/components/report-generator/step2-template.tsx:39 | for any category list without "all": every category listed, none twice, in order of first occurrence |
| Templates.CategoriesOfCatalogue | src/components/report-generator/step2-template.tsx:39 | for this catalogue: all, Production, Maintenance, Quality, Operations |
| Templates.TemplatePicker.constructor | src/components/report-generator/step2-template.tsx:29-32 | grid view, no selection, empty term, "all" |
| Templates.TemplatePicker.SelectTemplate | src/components/report-generator/step2-template.tsx:83 | the selection becomes exactly the clicked id (the list view's click at line 116 is the same); nothing else changes |
| Templates.TemplatePicker.SetViewMode | src/components/report-generator/step2-template.tsx:64-67 | the view changes, the selection does not |
| Templates.TemplatePicker.SetSearchTerm | src/components/report-generator/step2-template.tsx:50 | the term changes, the selection does not |
| Templates.TemplatePicker.SetFilterCategory | src/components/report-generator/step2-template.tsx:54 | the category changes, the selection does not |
| Templates.TemplatePicker.IsSelected | src/components/report-generator/step2-template.tsx:82 | a card is highlighted iff its id is the selection (defined so; AtMostOneSelected states that one card at most is highlighted) |
| Templates.AtMostOneSelected | src/components/report-generator/step2-template.tsx:82 | whatever the selection, at most one template is highlighted |
| Output.EveryIsEmailIff | src/components/report-generator/step5-output.tsx:27 | `every` holds iff each trimmed piece passes the address check |
| Output.RecipientsRule | src/components/report-generator/step5-output.tsx:25-28 | absent and all-white-space lists pass; any other list passes iff every trimmed piece is an address |
| Output.RecipientsValid | src/components/report-generator/step5-output.tsx:25-28 | the `recipients` refinement itself (no contract of its own; RecipientsRule states what it accepts) |
| Output.Message | src/components/report-generator/step5-output.tsx:18-28 | the schema's message for each finding (a table; no contract of its own) |
| Output.ValidateOutput | src/components/report-generator/step5-output.tsx:18-30 | valid iff format is pdf or csv, the file name is absent or non-empty, and the recipients pass; each finding iff its condition |
| Output.RecipientsIgnoreSwitch | src/components/report-generator/step5-output.tsx:24-28 | the findings do not depend on the e-mail switch |
| Output.TrailingCommaRejected | src/components/report-generator/step5-output.tsx:27 | a trailing comma makes the list invalid |
| Output.EmptyPieceRejected | src/components/report-generator/step5-output.tsx:27 | an empty piece between commas makes the list invalid |
| Output.JoinedAddressesAccepted | src/components/report-generator/step5-output.tsx:27 | addresses joined with commas, padded with white space, pass |
| Output.Defaults | src/components/report-generator/step5-output.tsx:35-41 | pdf, e-mail off, no recipients, the default message |
| Output.DefaultsValid | src/components/report-generator/step5-output.tsx:35-41 | the defaults pass the schema |
| Output.OutputForm.constructor | src/components/report-generator/step5-output.tsx:33-42 | the defaults, with the invariant that the e-mail fields are cleared while e-mailing is off |
| Output.OutputForm.SetEmailImmediately | src/components/report-generator/step5-output.tsx:46-51 | switching off clears the recipients and restores the default message; switching on changes only the switch |
| Output.OutputForm.SetRecipients | src/components/report-generator/step5-output.tsx:149-166 | stores the recipients; nothing else changes |
| Output.OutputForm.SetEmailMessage | src/components/report-generator/step5-output.tsx:167-184 | stores the message; nothing else changes |
| Output.OutputForm.SetFormat | src/components/report-generator/step5-output.tsx:69-70 | stores the format; nothing else changes |
| Output.OutputForm.SetFileName | src/components/report-generator/step5-output.tsx:104 | stores the file name; nothing else changes |
| Login.SqlInvalidFields | src/components/auth/login-form.tsx:25-30 | exactly the fields that are not non-empty; none iff all four are filled |
| Login.WindowsInvalidFields | src/components/auth/login-form.tsx:32-33 | at most the user name; none iff it is filled |
| Login.InvalidFields | src/components/auth/login-form.tsx:47 | the current schema's findings: exactly the fields the mode checks (all four for SQL, the user name for Windows) that are not filled |
| Login.Message | src/components/auth/login-form.tsx:25-33 | the message under a rejected field for each mode (a table; no contract of its own) |
| Login.SchemaSelection | src/components/auth/login-form.tsx:47 | Windows mode ignores server, database and password; what SQL accepts Windows accepts |
| Login.Defaults | src/components/auth/login-form.tsx:51 | four empty fields for SQL, only an empty user name for Windows |
| Login.DefaultsRejected | src/components/auth/login-form.tsx:55-57 | freshly reset values always fail on the user name |
| Login.FieldStateIcon | src/components/auth/login-form.tsx:78-88 | warning iff dirty (value differs from its default) with an error; check iff dirty, no error and non-empty; nothing for a field that is not dirty |
| Login.CheckedFieldIcon | src/components/auth/login-form.tsx:78-88 | for a dirty field the current schema checks, the icon is a check when it is filled and a warning otherwise |
| Login.DirtyFieldIcon | src/components/auth/login-form.tsx:78-88 | with dirtiness measured against the empty defaults, a field the form holds shows a check iff it is dirty and nothing otherwise; the warning icon never appears |
| Login.SubmitDisabled | src/components/auth/login-form.tsx:188 | disabled iff a submission is in progress, the user name is not filled, or (SQL mode) the server, database or password is not filled: invalid under the current schema or submitting |
| Login.LoginForm.constructor | src/components/auth/login-form.tsx:44-53 | SQL mode with its empty values, password hidden |
| Login.LoginForm.SetAuthType | src/components/auth/login-form.tsx:55-57 | a change of mode resets to that mode's defaults; picking the current mode keeps the values |
| Login.LoginForm.EditField | src/components/auth/login-form.tsx:98-187 | the edited field holds the text; every other field is unchanged |
| Login.LoginForm.TogglePasswordVisibility | src/components/auth/login-form.tsx:172 | flips the visibility; the values are unchanged |
| Sidebar.NavItems | src/components/layout/app-sidebar.tsx:26-35 | eight entries, the dashboard first |
| Sidebar.IsActive | src/components/layout/app-sidebar.tsx:72 | active on its own path; the dashboard only on its exact path; any other entry iff its href is a prefix of the path |
| Sidebar.HelpActive | src/components/layout/app-sidebar.tsx:90 | active iff the path starts with "/help" |
| Sidebar.HrefsPrefixFree | src/components/layout/app-sidebar.tsx:26-37 | no href is a prefix of another |
| Sidebar.AtMostOneActive | src/components/layout/app-sidebar.tsx:72-90 | for any path at most one entry, help included, is active |
| Sidebar.ActiveExamples | src/components/layout/app-sidebar.tsx:72-90 | "/templates-x" activates "/templates"; "/dashboard/details" does not activate the dashboard |
| Charts.Defaults | src/components/report-generator/step4-charts.tsx:41-47 | off, bar, name, value, default |
| Charts.ValidateChartConfig | src/components/report-generator/step4-charts.tsx:19-25 | no configuration is rejected |
| Charts.MockChartData | src/components/report-generator/step4-charts.tsx:28-34 | five entries |
| Charts.AxisKey | src/components/report-generator/step4-charts.tsx:66 | the field when present and non-empty, the fallback otherwise |
| Charts.PieCellFills | src/components/report-generator/step4-charts.tsx:102-104 | slice i gets colour i mod 5, always a palette colour |
| Charts.RenderChartPreview | src/components/report-generator/step4-charts.tsx:57-113 | disabled iff charts are off; bar, line and pie iff that type; the placeholder for any other type; the keys are the fallbacks' results |
| Charts.DisabledIgnoresFields | src/components/report-generator/step4-charts.tsx:58 | with charts off nothing but the switch matters |
| Charts.ColorSchemeUnused | src/components/report-generator/step4-charts.tsx:57-113 | the preview never depends on the colour scheme |
| Charts.ChartsAreDrawable | src/components/report-generator/step4-charts.tsx:98-104 | drawn charts have non-empty keys, and the five slices get five different colours |
| Charts.ColorsDistinct | src/components/report-generator/step4-charts.tsx:36 | the palette's colours are different |
| Charts.DefaultPreviews | src/components/report-generator/step4-charts.tsx:41-47 | the defaults show "disabled"; switching charts on shows a bar chart of value by name |
| Text.ContainsIff | src/components/report-generator/step3-preview.tsx:65 | `includes` holds iff the needle occurs at some position |
| Text.LowerIdempotent | src/components/report-generator/step3-preview.tsx:65 | lower-casing twice is lower-casing once |
| Text.SplitJoin | src/components/layout/top-bar.tsx:37 | joining separator-free words and splitting recovers them |
| Text.JoinSplit | src/components/layout/top-bar.tsx:37 | splitting and joining gives back the string |
| Text.SplitCount | src/components/layout/top-bar.tsx:37 | a split has one piece more than there are separators |
| Text.TrimProperties | src/components/report-generator/step5-output.tsx:26-27 | the trimmed string is the middle of the input with white space removed at both ends only |
| Text.TrimEmptyIff | src/components/report-generator/step5-output.tsx:26 | trimming gives "" iff the string is all white space |
| Text.PaddedDecimalRoundTrip | src/components/report-generator/step1-criteria.tsx:32 | a zero-padded decimal reads back as its number |
| Text.LessTransitive | src/components/report-generator/step3-preview.tsx:72-75 | the string order is transitive |
| Text.LessTotal | src/components/report-generator/step3-preview.tsx:72-75 | of two different strings one is less |
| Seqs.FilterIsSubsequence | src/components/report-generator/step3-preview.tsx:63 | a filter's result is a subsequence of its input |
| Seqs.DistinctProperties | src/components/report-generator/step2-template.tsx:39 | each element once, every element kept, nothing else, and an element listed before another first occurs before it in the input |
| Seqs.FirstIndex | src/components/report-generator/step2-template.tsx:39 | the position returned holds the element and no earlier position does |

## Left out

- Rendering: the JSX, the styles, the images, the chart drawing and the pie's percent label, which is floating point.
- Random and clock-based data: the preview rows, "today" and the dates are inputs; the default file name takes the date as a string.
- Date formatting and locale output are not modelled.
- The login's toast, timer and navigation are asynchronous I/O and are not modelled; the wizard has no step controller in this code.
- The side bar's open/collapsed and mobile state comes from a foreign hook and is not modelled.
- The location field of the output step is display-only; it is carried as a value and never validated.
- Output.ValidateOutput: the address check of the schema library is a parameter `isEmail`, so the model proves the rule's structure, not which strings are addresses. The wording of the schema library's message for an unknown format is approximated.
- Output.OutputForm.SetRecipients: requires e-mailing to be on, because the recipients and message boxes are rendered only then.
- Login.SubmitDisabled: the form library computes `isValid` asynchronously; the model takes it as the current schema's verdict on the current values.
- Login.LoginForm.EditField: only fields the current mode renders can be typed into.
- Login.Message: an absent field gets the schema library's generic "Required" message; the library's exact text is not checked here.
- Text.Lower: ASCII letters only; Unicode case mapping is not modelled. Text.UpperChar likewise.
- Text.IsSpace: covers the ASCII white space, no-break space, the byte-order mark and the line and paragraph separators, not every Unicode space separator JavaScript's `trim` removes.
- Text.Less: compares code points; JavaScript compares UTF-16 code units, which differs only outside the Basic Multilingual Plane.
- Preview.SortRows: the engine's sort algorithm is replaced by a stable insertion sort; since `Array.prototype.sort` is stable and the comparator is consistent, both give the same order.
- Preview.PreviewTable.GoToNextPage: requires more than one page, because the buttons are rendered only then.
- Form-library update semantics (dirty tracking, resolver timing) are not modelled; each input's change handler is a method that stores the new value.
- Login.FieldStateIcon: the form library's dirty flag is a parameter; Login.DirtyFieldIcon fixes it as "differs from the default" and shows that, with these empty defaults, the warning branch is never reached.
