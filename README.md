# Timetable scheduler: a verified model of its page logic

The application is a React front end for building college timetables. This project
models, in Dafny, the logic of four of its pages:

- **Data entry** (`dataentry.dfy`, module `DataEntry`). The page holds three forms, for
  departments, faculty and rooms. "Add" checks the form, builds a record stamped with
  `Date.now()`, appends it to the shared list and resets the form. The page is a class.
  Its fields are the three lists and the three draft forms, and each handler is a method.
- **Timetable generator** (`generator.dfy`, module `TimetableGenerator`).
  - `generateSampleEntries` walks the 5 x 6 grid of days and slots, drawing from
    `Math.random`. It keeps a cell when its draw is above 0.3. A kept cell gets a
    subject, a faculty, a room and a batch from four more draws.
  - The walk is a pair of nested loops (`GenerateSampleEntries`, `VisitDay`). The loops
    are proved equal to a recursive specification, and the properties of the result are
    proved about that specification.
  - The page state is a class: the timetable list, the max-classes setting, the prompt
    and the last generated timetable. Its methods are the ±1 buttons, one-click
    generation, the prompt box and AI generation.
- **Approval workflow** (`approval.dfy`, module `ApprovalWorkflow`).
  - The three handlers (submit, approve, reject) rewrite every record with the given id,
    whatever its status.
  - Which handler can be reached for which record is decided by the rendered buttons.
    The model states both halves. It then proves that clicks on rendered buttons only move
    a record through draft → pending → approved/rejected, provided ids are distinct. It
    also shows that a shared id breaks this.
  - Also modelled: the two filtered views, and the status badge's colour, icon and label.
- **Timetable viewer** (`viewer.dfy`, module `TimetableViewer`). It covers the initial
  selection, the picker (`find` by `parseInt` of the option value), `getClassForSlot`, the
  slot-by-day grid and the class count. Lemmas connect it to the generator: a fresh
  timetable's grid shows exactly the kept cells.

Shared definitions:

- `timetables.dfy` (`Timetables`): the timetable and entry records, the status strings,
  and the day and slot lists.
- `jstext.dfy` (`JsText`): the JavaScript string operations the pages use, which are
  `trim`, `parseInt`, decimal number-to-string conversion, `substring`, and
  `charAt(0).toUpperCase() + slice(1)`.
- `wrappers.dfy` (`Wrappers`): `Option`, standing for `null`/`undefined`/`NaN`.

`Date.now()`, `new Date().toLocaleDateString()` and `new Date().toISOString()` are
parameters of the operations that use them. `Math.random` is an oracle `rand: nat -> real`
with values in [0, 1): the k-th call returns `rand(k)`.

## Model

| member | source | states |
|---|---|---|
| Timetables.Draft | src/pages/TimetableGenerator.jsx:51 | the status string 'draft' a generated timetable starts with |
| Timetables.Pending | src/pages/ApprovalWorkflow.jsx:58 | the status string 'pending' Submit sets |
| Timetables.Approved | src/pages/ApprovalWorkflow.jsx:31 | the status string 'approved' Approve sets |
| Timetables.Rejected | src/pages/ApprovalWorkflow.jsx:44 | the status string 'rejected' Reject sets |
| Timetables.Days | src/pages/TimetableGenerator.jsx:81 | the five weekday names Monday to Friday, in order; the viewer's list at src/pages/TimetableViewer.jsx:15 is the same |
| Timetables.Slots | src/pages/TimetableGenerator.jsx:82 | the six slot labels from 9:00-10:00 to 3:00-4:00, in order; the viewer's list at src/pages/TimetableViewer.jsx:16 is the same |
| Timetables.DaysDistinct | src/pages/TimetableGenerator.jsx:81 | the five day names are pairwise different, so a day name identifies its day |
| Timetables.SlotsDistinct | src/pages/TimetableGenerator.jsx:82 | the six slot names are pairwise different, so a slot name identifies its slot |
| Timetables.StatusesDistinct | src/pages/ApprovalWorkflow.jsx:68-76 | the four status strings are pairwise different |
| JsText.IsJsWhitespace | src/pages/DataEntry.jsx:37 | the characters `trim` removes: ECMAScript WhiteSpace and LineTerminator |
| JsText.LeadingWhitespace | src/pages/DataEntry.jsx:37 | counts the whitespace that `trim` removes at the front: all of it is whitespace and the next character is not |
| JsText.TrailingWhitespace | src/pages/DataEntry.jsx:37 | the same at the back of the string |
| JsText.TrimStart | src/pages/DataEntry.jsx:37 | the string without its leading whitespace |
| JsText.TrimEnd | src/pages/DataEntry.jsx:37 | the string without its trailing whitespace |
| JsText.Trim | src/pages/DataEntry.jsx:37 | `trim()`: both ends stripped |
| JsText.IsBlank | src/pages/DataEntry.jsx:60 | `!s.trim()`: the trimmed string is empty, the guard of all three forms |
| JsText.BlankIffAllWhitespace | src/pages/DataEntry.jsx:37 | `!s.trim()` holds exactly when every character of `s` is whitespace |
| JsText.DigitValue | src/pages/DataEntry.jsx:72 | a character's value as a digit, at most 36, where 36 means no digit; the value is below 10 exactly for `0` to `9` |
| JsText.IsDigit | src/pages/DataEntry.jsx:72 | a character is a digit of the radix when its digit value is below the radix |
| JsText.DigitCount | src/pages/DataEntry.jsx:72 | the length of the longest run of digits of the radix at the front: all are digits and the next character is not |
| JsText.DigitPrefix | src/pages/DataEntry.jsx:72 | the digits `parseInt` reads: the longest run of radix digits at the front |
| JsText.DigitsValue | src/pages/DataEntry.jsx:72 | the value of that run, most significant digit first: the value of all but the last digit times the radix, plus the last digit |
| JsText.Unsigned | src/pages/DataEntry.jsx:72 | the text after the leading whitespace and one optional `+` or `-` sign |
| JsText.HasHexPrefix | src/pages/DataEntry.jsx:72 | the unsigned text starts with `0x` or `0X` |
| JsText.IntegerRadix | src/pages/DataEntry.jsx:72 | 16 after a hex prefix, otherwise 10 |
| JsText.IntegerBody | src/pages/DataEntry.jsx:72 | where the digits start: the unsigned text, minus the hex prefix when there is one |
| JsText.ParseInt | src/pages/DataEntry.jsx:72-74 | `parseInt` gives NaN exactly when no digit follows the whitespace, sign and hex prefix |
| JsText.DigitChar | src/pages/TimetableGenerator.jsx:90 | a digit below 10 is written as the character with that digit value |
| JsText.NatToString | src/pages/TimetableGenerator.jsx:90 | the decimal text of a number is non-empty and made of decimal digits only |
| JsText.NatToStringValue | src/pages/TimetableViewer.jsx:106 | the digits of a number's decimal text have that number as their value |
| JsText.SingleDigitString | src/pages/TimetableGenerator.jsx:90 | a number below 10 is written as its single digit |
| JsText.NatToStringRoundTrip | src/pages/TimetableViewer.jsx:101-106 | `parseInt` of a non-negative number's decimal text gives the number back |
| JsText.Prefix | src/pages/TimetableGenerator.jsx:77 | `substring(0, n)`: the first n characters, or the whole string when it is shorter |
| JsText.UpperAscii | src/pages/ApprovalWorkflow.jsx:207 | lower-case ASCII letters go to upper case; every other character is kept |
| JsText.Capitalize | src/pages/ApprovalWorkflow.jsx:207 | same length; the first character is upper-cased and the rest is kept |
| ApprovalWorkflow.ApprovedRecord | src/pages/ApprovalWorkflow.jsx:31 | the spread copy `{ ...t, status: 'approved', approved_by, approved_at }`: the record with those three fields replaced |
| ApprovalWorkflow.RejectedRecord | src/pages/ApprovalWorkflow.jsx:44 | the spread copy with status 'rejected', `rejected_by` and `rejected_at` replaced |
| ApprovalWorkflow.SubmittedRecord | src/pages/ApprovalWorkflow.jsx:58 | the spread copy with status 'pending' and `submitted_at` replaced |
| ApprovalWorkflow.UpdateById | src/pages/ApprovalWorkflow.jsx:29-33 | the `map` keeps the length, rewrites each record with the id and keeps every other record |
| ApprovalWorkflow.Approve | src/pages/ApprovalWorkflow.jsx:28-33 | each record with the id becomes approved, with the user's name and the time; nothing else in it changes; other records are kept |
| ApprovalWorkflow.Reject | src/pages/ApprovalWorkflow.jsx:41-46 | each record with the id becomes rejected, with the user's name and the time; nothing else in it changes; other records are kept |
| ApprovalWorkflow.Submit | src/pages/ApprovalWorkflow.jsx:55-60 | each record with the id becomes pending, with the submission time; nothing else in it changes; other records are kept |
| ApprovalWorkflow.UpdateMissingIdIsIdentity | src/pages/ApprovalWorkflow.jsx:29-33 | a handler called with an id no record has leaves the list unchanged |
| ApprovalWorkflow.CanSubmit | src/pages/ApprovalWorkflow.jsx:221 | the Submit button's guard: the record is a draft |
| ApprovalWorkflow.CanReview | src/pages/ApprovalWorkflow.jsx:231 | the Approve/Reject buttons' guard: the record is pending and the user is an admin |
| ApprovalWorkflow.ShowsButton | src/pages/ApprovalWorkflow.jsx:221-250 | which guard renders which button: Submit by `CanSubmit`, Approve and Reject by `CanReview` |
| ApprovalWorkflow.Offered | src/pages/ApprovalWorkflow.jsx:221-250 | a click is possible: some record with the clicked id renders the clicked button |
| ApprovalWorkflow.Apply | src/pages/ApprovalWorkflow.jsx:221-250 | the `onClick` dispatch: the button's handler runs with the record's id, whatever the list now holds |
| ApprovalWorkflow.AllowedChange | src/pages/ApprovalWorkflow.jsx:221-250 | the status changes the three buttons offer: none, draft to pending, pending to approved or rejected |
| ApprovalWorkflow.OfferedStepEffect | src/pages/ApprovalWorkflow.jsx:221-250 | with distinct ids, a click on a rendered button keeps every id and changes statuses only draft→pending or pending→approved/rejected. Approval and rejection need pending status and an admin, and record that admin and the time. Approved and rejected records are untouched |
| ApprovalWorkflow.SharedIdSubmitReopensApproved | src/pages/ApprovalWorkflow.jsx:55-60 | when a draft and an approved record share an id, the draft's Submit button takes the approved one back to pending, against the allowed changes |
| ApprovalWorkflow.Run | src/pages/ApprovalWorkflow.jsx:221-250 | a sequence of clicks keeps the list's length and every record's id |
| ApprovalWorkflow.History | src/pages/ApprovalWorkflow.jsx:221-250 | a record's status history starts at its status and ends at its status after the whole run |
| ApprovalWorkflow.OfferedRunHistory | src/pages/ApprovalWorkflow.jsx:221-250 | with distinct ids, along clicks on rendered buttons every record's status history is a chain of allowed changes |
| ApprovalWorkflow.ChainApprovedViaPending | src/pages/ApprovalWorkflow.jsx:221-250 | a chain of allowed changes from draft to approved passes draft→pending and later pending→approved |
| ApprovalWorkflow.FirstIndexOf | src/pages/ApprovalWorkflow.jsx:221-250 | the first position of a status in a history: it holds that status and no earlier position does |
| ApprovalWorkflow.ChainTerminal | src/pages/ApprovalWorkflow.jsx:221-250 | in a chain, approved and rejected never change again |
| ApprovalWorkflow.ApprovedOnlyViaPending | src/pages/ApprovalWorkflow.jsx:221-250 | with distinct ids and clicks on rendered buttons only, a draft that ends approved was submitted (draft to pending) and later approved (pending to approved), and the user clicking was an admin |
| ApprovalWorkflow.ApprovedByAdmin | src/pages/ApprovalWorkflow.jsx:231-240 | with distinct ids and clicks on rendered buttons only, a record that was not approved and ends approved was approved by an admin |
| ApprovalWorkflow.Filter | src/pages/ApprovalWorkflow.jsx:25-26 | `filter` keeps exactly the records satisfying the condition, and no more records than it is given |
| ApprovalWorkflow.FilterConcat | src/pages/ApprovalWorkflow.jsx:25-26 | filtering a concatenation is the concatenation of the filtered parts, so the views keep the list's order |
| ApprovalWorkflow.InQueue | src/pages/ApprovalWorkflow.jsx:25 | the pending view's condition: status 'draft' or 'pending' |
| ApprovalWorkflow.IsApproved | src/pages/ApprovalWorkflow.jsx:26 | the approved view's condition: status 'approved' |
| ApprovalWorkflow.PendingView | src/pages/ApprovalWorkflow.jsx:25 | holds exactly the drafts and pending records of the list |
| ApprovalWorkflow.ApprovedView | src/pages/ApprovalWorkflow.jsx:26 | holds exactly the approved records of the list |
| ApprovalWorkflow.ViewCountsBounded | src/pages/ApprovalWorkflow.jsx:25-26 | the two counts add up to at most the number of timetables, because no record is in both views |
| ApprovalWorkflow.StatusColor | src/pages/ApprovalWorkflow.jsx:68-76 | one of four classes: yellow exactly for pending, green exactly for approved, red exactly for rejected, grey for draft and for anything else |
| ApprovalWorkflow.StatusIcon | src/pages/ApprovalWorkflow.jsx:78-86 | the alert icon exactly for pending, the check exactly for approved, the cross exactly for rejected, otherwise the clock |
| ApprovalWorkflow.StatusLabel | src/pages/ApprovalWorkflow.jsx:207 | the badge text is the status with its first letter upper-cased |
| ApprovalWorkflow.StatusLabels | src/pages/ApprovalWorkflow.jsx:207 | the four statuses are shown as "Draft", "Pending", "Approved" and "Rejected" |
| TimetableGenerator.Subjects | src/pages/TimetableGenerator.jsx:83 | the five subjects a kept cell draws from, in order |
| TimetableGenerator.Threshold | src/pages/TimetableGenerator.jsx:88 | 0.3: a cell is kept when its draw is strictly above it |
| TimetableGenerator.CellCount | src/pages/TimetableGenerator.jsx:86-87 | 30, the number of cells the two loops visit: five days of six slots |
| TimetableGenerator.FacultyNames | src/pages/TimetableGenerator.jsx:94 | the labels `Faculty ${Math.floor(r * 5) + 1}` can produce: "Faculty 1" to "Faculty 5" |
| TimetableGenerator.RoomNames | src/pages/TimetableGenerator.jsx:95 | the labels `Room ${Math.floor(r * 10) + 101}` can produce: "Room 101" to "Room 110" |
| TimetableGenerator.BatchNames | src/pages/TimetableGenerator.jsx:96 | the labels `Batch ${Math.floor(r * 3) + 1}` can produce: "Batch 1" to "Batch 3" |
| TimetableGenerator.FacultyLabel | src/pages/TimetableGenerator.jsx:94 | `Faculty ${f + 1}` for f below 5 is the f-th of "Faculty 1" … "Faculty 5" |
| TimetableGenerator.RoomLabel | src/pages/TimetableGenerator.jsx:95 | `Room ${r + 101}` for r below 10 is the r-th of "Room 101" … "Room 110" |
| TimetableGenerator.ThreeDigits | src/pages/TimetableGenerator.jsx:95 | a number from 100 to 999 is written as its hundreds, tens and units digits |
| TimetableGenerator.BatchLabel | src/pages/TimetableGenerator.jsx:96 | `Batch ${b + 1}` for b below 3 is the b-th of "Batch 1" … "Batch 3" |
| TimetableGenerator.Cursor | src/pages/TimetableGenerator.jsx:88-96 | the draw order: the number of `Math.random` calls before a cell, one for a dropped cell and five for a kept one |
| TimetableGenerator.Included | src/pages/TimetableGenerator.jsx:88 | a cell is kept when its own draw, the next one at its turn, is above 0.3 |
| TimetableGenerator.CellId | src/pages/TimetableGenerator.jsx:90 | the entry id `${dayIndex}-${slotIndex}` |
| TimetableGenerator.EntryFor | src/pages/TimetableGenerator.jsx:89-97 | the pushed object: the cell's id, day and slot, then subject, faculty, room and batch from the four draws after the cell's own |
| TimetableGenerator.CellEntry | src/pages/TimetableGenerator.jsx:89-97 | the pushed object of a cell, with the draws at that cell's turn |
| TimetableGenerator.EntriesBefore | src/pages/TimetableGenerator.jsx:86-100 | the entries pushed before a cell's turn, day by day and slot by slot: the walk's specification |
| TimetableGenerator.SampleEntries | src/pages/TimetableGenerator.jsx:80-103 | the entries pushed over the whole grid, which `generateSampleEntries` returns |
| TimetableGenerator.Pick | src/pages/TimetableGenerator.jsx:93-96 | `Math.floor(Math.random() * n)` is a valid index below n |
| TimetableGenerator.EntryForLabels | src/pages/TimetableGenerator.jsx:93-96 | an entry's faculty, room and batch are exactly the texts the template literals build from their draws |
| TimetableGenerator.GenerateSampleEntries | src/pages/TimetableGenerator.jsx:80-103 | the nested loop returns the entries of the recursive specification of the walk |
| TimetableGenerator.VisitDay | src/pages/TimetableGenerator.jsx:87-99 | one day of the walk pushes that day's kept cells and moves the draw cursor exactly as the specification does |
| TimetableGenerator.KeptBeforeOrdered | src/pages/TimetableGenerator.jsx:86-100 | the kept cells before a point of the walk are all visited before it, in visiting order, each once |
| TimetableGenerator.KeptBeforeIncluded | src/pages/TimetableGenerator.jsx:88 | a cell visited before a point is kept exactly when its own draw is above 0.3 |
| TimetableGenerator.EntriesBeforeKept | src/pages/TimetableGenerator.jsx:86-100 | the entries pushed before a point are the entries of the kept cells before it, one each, in the same order |
| TimetableGenerator.EntriesOfAppend | src/pages/TimetableGenerator.jsx:89-97 | pushing a cell's entry keeps the entry list in step with the kept-cell list |
| TimetableGenerator.GridCells | src/pages/TimetableGenerator.jsx:86-100 | over the whole grid, the entries match the kept cells in visiting order, and a cell is kept exactly when its draw is above 0.3 |
| TimetableGenerator.IndexOf | src/pages/TimetableGenerator.jsx:86-87 | the first position of a name in the day or slot list, or the list's length when it is absent |
| TimetableGenerator.CellEntryPlace | src/pages/TimetableGenerator.jsx:89-92 | a cell's entry names that cell's day and slot, which read back to the cell, and its id is "dayIndex-slotIndex" |
| TimetableGenerator.GeneratedEntryFields | src/pages/TimetableGenerator.jsx:81-97 | every generated entry is on a listed day and slot, has the id of its cell, and takes its subject, faculty, room and batch from the fixed lists |
| TimetableGenerator.GeneratedEntriesOrdered | src/pages/TimetableGenerator.jsx:86-100 | at most 30 entries, in strictly increasing day-major cell order, with pairwise distinct ids |
| TimetableGenerator.StrictlyIncreasingBound | src/pages/TimetableGenerator.jsx:86-100 | a strictly increasing sequence of numbers below n has at most n elements, which bounds the entries by the cells |
| TimetableGenerator.GeneratedCellKept | src/pages/TimetableGenerator.jsx:88-97 | a cell has an entry exactly when its draw is above 0.3, and any entry on that day and slot is that cell's |
| TimetableGenerator.NewTimetable | src/pages/TimetableGenerator.jsx:47-55 | the new record: id `Date.now()`, the dated name, created by 'Admin User', status 'draft', the time stamp, the mode and the entries, with no submission or review fields |
| TimetableGenerator.ClampMaxClasses | src/pages/TimetableGenerator.jsx:35-40 | the new setting is always between 1 and 10: the sum when it lies in range, otherwise the nearer bound |
| TimetableGenerator.AiMode | src/pages/TimetableGenerator.jsx:68-78 | no mode exactly for a blank prompt; otherwise "AI Prompt: ", the first min(20, length) characters of the prompt as typed, then "..." |
| TimetableGenerator.Reverse | src/pages/TimetableGenerator.jsx:373 | the same elements in the opposite order |
| TimetableGenerator.Recent | src/pages/TimetableGenerator.jsx:373 | `slice(-3).reverse()`: the last min(3, length) timetables, newest first |
| TimetableGenerator.RecentAfterAppend | src/pages/TimetableGenerator.jsx:57-58 | a newly appended timetable heads the recent list, followed by the previously newest ones |
| TimetableGenerator.GeneratorPage.constructor | src/pages/TimetableGenerator.jsx:21-33 | the page starts with the shared list, a setting of 6, an empty prompt and nothing generated |
| TimetableGenerator.GeneratorPage.ChangeMaxClasses | src/pages/TimetableGenerator.jsx:35-40 | the ±1 buttons set the clamped value, which stays in 1..10; nothing else changes |
| TimetableGenerator.GeneratorPage.Generate | src/pages/TimetableGenerator.jsx:42-66 | appends one new draft with the sampled entries and makes it the last generated; the setting and prompt are kept |
| TimetableGenerator.GeneratorPage.SetPrompt | src/pages/TimetableGenerator.jsx:254 | the prompt becomes the typed text; nothing else changes |
| TimetableGenerator.GeneratorPage.AiGenerate | src/pages/TimetableGenerator.jsx:68-78 | starts exactly when the prompt is not blank and then appends a draft with the prompt's mode; a blank prompt changes nothing |
| TimetableViewer.FindFirst | src/pages/TimetableViewer.jsx:20 | `find`: the first position satisfying the condition, or none exactly when no element does |
| TimetableViewer.InitialSelection | src/pages/TimetableViewer.jsx:12 | the first timetable, or none exactly when the list is empty |
| TimetableViewer.At | src/pages/TimetableViewer.jsx:20 | the `find` condition: the entry's day and slot are the cell's |
| TimetableViewer.ClassForSlot | src/pages/TimetableViewer.jsx:18-21 | nothing without a selection or entries; otherwise the first entry on that day and slot, and none exactly when no entry is on it |
| TimetableViewer.Grid | src/pages/TimetableViewer.jsx:150-156 | six rows of five cells; the cell in row `i` and column `j` is what `getClassForSlot` gives for day `j` and slot `i` |
| TimetableViewer.SelectById | src/pages/TimetableViewer.jsx:99-103 | an unparsable value selects nothing. Otherwise, the first timetable whose id is the parsed number, and nothing exactly when no timetable has it |
| TimetableViewer.TotalClasses | src/pages/TimetableViewer.jsx:209 | the number of entries, or 0 when there are none |
| TimetableViewer.SelectOwnOption | src/pages/TimetableViewer.jsx:99-108 | with distinct non-negative ids, choosing a timetable's own option selects that timetable |
| TimetableViewer.GeneratedGrid | src/pages/TimetableViewer.jsx:150-156 | a freshly generated timetable's grid shows a cell's entry exactly when its draw kept it, and "Free" otherwise |
| TimetableViewer.GeneratedTotal | src/pages/TimetableViewer.jsx:209 | a freshly generated timetable counts at most 30 classes |
| DataEntry.EmptyDepartmentForm | src/pages/DataEntry.jsx:21 | the initial and reset department form: an empty name |
| DataEntry.EmptyFacultyForm | src/pages/DataEntry.jsx:22-28 | the initial and reset faculty form: empty name, email and department, loads 6 and 20 |
| DataEntry.EmptyRoomForm | src/pages/DataEntry.jsx:29-34 | the initial and reset room form: empty name and capacity, type 'classroom', no features |
| DataEntry.DeptIdOf | src/pages/DataEntry.jsx:72 | `parseInt(dept_id) \|\| 1` is never 0: the parsed number when it is non-zero, otherwise 1 |
| DataEntry.BuildDepartment | src/pages/DataEntry.jsx:36-49 | rejected exactly when the name is blank; otherwise the name as typed, stamped with the time |
| DataEntry.BuildFaculty | src/pages/DataEntry.jsx:59-75 | rejected exactly when the name or the email is blank. Otherwise both are kept as typed, the department is parsed with fallback 1, and the loads are parsed (NaN as none) |
| DataEntry.BuildRoom | src/pages/DataEntry.jsx:91-105 | rejected exactly when the name is blank or the capacity is empty. Otherwise the capacity is parsed and the name, type and features are kept |
| DataEntry.DefaultLoads | src/pages/DataEntry.jsx:22-28 | the reset faculty form parses to 6 classes a day and 20 a week |
| DataEntry.DecimalDefaults | src/pages/DataEntry.jsx:22-28 | the reset load fields are 6 and 20 in decimal |
| DataEntry.DeptIdDecimal | src/pages/DataEntry.jsx:72 | a positive department id typed in decimal is kept |
| DataEntry.EmptyDeptId | src/pages/DataEntry.jsx:72 | the department field, which no input fills, always gives department 1 |
| DataEntry.RoomCapacityDecimal | src/pages/DataEntry.jsx:101-105 | a capacity typed in decimal, with a name, yields a room of that capacity |
| DataEntry.EmptyFormsRejected | src/pages/DataEntry.jsx:21-34 | each reset form is rejected as it stands, so a second "Add" adds nothing |
| DataEntry.DataEntryPage.constructor | src/pages/DataEntry.jsx:21-34 | the page starts with the shared lists and the three empty forms |
| DataEntry.DataEntryPage.SetDepartmentName | src/pages/DataEntry.jsx:176 | the department form's name becomes the typed text; nothing else changes |
| DataEntry.DataEntryPage.SetFacultyName | src/pages/DataEntry.jsx:227 | only the faculty form's name changes |
| DataEntry.DataEntryPage.SetFacultyEmail | src/pages/DataEntry.jsx:238 | only the faculty form's email changes |
| DataEntry.DataEntryPage.SetMaxLoadPerDay | src/pages/DataEntry.jsx:250 | only the faculty form's daily load changes |
| DataEntry.DataEntryPage.SetMaxLoadPerWeek | src/pages/DataEntry.jsx:260 | only the faculty form's weekly load changes |
| DataEntry.DataEntryPage.SetRoomName | src/pages/DataEntry.jsx:316 | only the room form's name changes |
| DataEntry.DataEntryPage.SetRoomCapacity | src/pages/DataEntry.jsx:327 | only the room form's capacity changes |
| DataEntry.DataEntryPage.AddDepartment | src/pages/DataEntry.jsx:36-57 | adds exactly when the name is not blank. Then it appends the built department and resets the form; otherwise nothing changes |
| DataEntry.DataEntryPage.AppendDepartment | src/pages/DataEntry.jsx:51-52 | appends the record and resets the department form; nothing else changes |
| DataEntry.DataEntryPage.AddFaculty | src/pages/DataEntry.jsx:59-89 | adds exactly when neither name nor email is blank. Then it appends the built member, whose department is 1, and resets the form; otherwise nothing changes |
| DataEntry.DataEntryPage.AppendFaculty | src/pages/DataEntry.jsx:77-84 | appends the record and resets the faculty form; nothing else changes |
| DataEntry.DataEntryPage.AddRoom | src/pages/DataEntry.jsx:91-118 | adds exactly when the name is not blank and a capacity was typed. Then it appends the built room, a classroom without features, and resets the form; otherwise nothing changes |
| DataEntry.DataEntryPage.AppendRoom | src/pages/DataEntry.jsx:107-113 | appends the record and resets the room form; nothing else changes |

## Left out

- Rendering, toasts, animations, icons as images, and the page headings and empty states are not modelled. They draw state and do not change it.
- GeneratorPage.Generate: the three-second `setTimeout` is taken as immediate, so the `generating` busy flag and the clicks made during the delay are not modelled.
- The constraint sliders and toggles other than max-classes-per-day only feed the display, so they are left out. Generation ignores all constraints, max-classes included, and so does the model.
- The Quick Generate, Optimized and Multi-Solution buttons (src/pages/TimetableGenerator.jsx:339, 348, 357) have no member of their own. Each is `GeneratorPage.Generate` with a fixed mode string.
- Download and export, CSV import, timetable editing, the login page, the dashboard, routing, and the data context's persistence are outside the modelled pages.
- Date.now and new Date are parameters: the model does not compute dates or time stamps. Ids built from `Date.now()` are not claimed unique.
- The approval-path lemmas assume distinct ids, as `DistinctIds` states. `SharedIdSubmitReopensApproved` shows what goes wrong without it.
- Pick: floating point is not modelled. `Math.random` returns an exact real in [0, 1) and `r * n` is exact, so the double rounding of that product is not captured. The 0.3 threshold is the exact real 0.3.
- JsText.ParseInt: its contract states only when the result is NaN. The value read comes from its definition, and `NatToStringRoundTrip` proves it for decimal text. Results beyond 2^53 lose no precision here, and `-0` is taken as 0.
- JsText.NatToString: writes every number in plain decimal. JavaScript does so only below 10^21 and writes larger numbers in exponent notation ("1e+21"), and `parseInt` reads exactly only below 2^53. So `NatToStringRoundTrip` and `TimetableViewer.SelectOwnOption` hold on the page only for ids below 2^53. `Date.now()` ids are far below that.
- Strings are sequences of Unicode scalar values, not UTF-16 code units. Text made only of characters from the Basic Multilingual Plane behaves as on the page. Text with characters beyond it (emoji, for instance) is measured and cut differently.
- JsText.Prefix: cuts after n Unicode scalar values, while `substring(0, n)` cuts after n UTF-16 code units. On text with characters beyond the Basic Multilingual Plane, the page keeps fewer characters, and it can split a surrogate pair, which the model cannot represent.
- TimetableGenerator.AiMode: the 20-character cut of the prompt counts Unicode scalar values, as `JsText.Prefix` does. A prompt of 20 emoji gives a mode with 10 of them on the page and 20 in the model.
- JsText.UpperAscii: upper-cases ASCII letters only. Full Unicode `toUpperCase` is not modelled, and all status strings are ASCII.
- The browser's sanitisation of `type="number"` inputs is not modelled. The form fields hold whatever text is typed.
- DataEntry.EmptyFacultyForm: the page's initial loads are the numbers 6 and 20, while what the user types is text. The model keeps both as text ("6", "20"), and `parseInt` treats them the same.
- DataEntry.BuildRoom follows the code, not the wording of its error message: the capacity check is `!capacity`, so a capacity of only spaces passes and parses to NaN (`None`).
- DataEntry.DataEntryPage: no input sets the faculty form's department or the room form's type and features. `Valid` records the values they therefore keep.
- The viewer's view-mode tabs change only what is drawn, so they are left out.
- The approval page's "View" button (`setSelectedTimetable`) only chooses what is drawn, so it is left out.
