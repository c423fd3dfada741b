# Project form: activity import, equipment drafts and unread badges

A Dafny model of three parts of a project-management web client:

- **The activity-schedule import** (`parseActivitiesExcel`). The first row can carry a
  commencement date. A header row is located within the next rows, then every named row
  becomes an activity:
  - a serial number;
  - a type ("milestone" or a regular update);
  - a target text;
  - a target date.

  The target date is either a date found in the target cell, or the commencement date moved
  by a relative offset such as "2nd week".

  The model also covers the JavaScript `Date` arithmetic this code relies on:
  - `new Date(y, m, d)` with roll-over;
  - `setDate`;
  - `getFullYear`/`getMonth`/`getDate`;
  - TimeClip.

  This arithmetic follows the day-number algorithms of ECMA-262 (sections 21.4.1.3, 21.4.1.4,
  21.4.1.13 and 21.4.1.31), on whole days.
- **The equipment drafts of the project form.** The form holds a map from equipment type to a
  list of drafts, with its keys in insertion order. Three operations change it:
  - the quantity stepper;
  - the field editor;
  - the Excel bulk upload, which locates columns and skips template and incomplete rows.

  On submit the drafts are reconciled with the equipment table. Fake ids are detected and the
  list is filtered. In edit mode:
  - the rows with ids are de-duplicated by id and updated;
  - the new rows are de-duplicated by tag/job/serial, then each is matched against the
    project's stored rows and updated or created;
  - finally the project's `equipment_count` is recounted.

  In create mode every draft is created, failures are collected, and a summary toast is
  built from them.
- **The unread badges** (`NotificationReadsProvider`). Each tab or entity key has a
  "last seen" time. The count of items updated after it is the badge.

The equipment table is a `class Store` whose state is a list of rows and a map of project
counts.
- Each API request (`updateEquipment`, `createEquipment`, `getEquipmentByProject`,
  `updateProject`) is a method proved against one function, `Apply`.
- The server's own validation is invisible to the client. It is a parameter (`Rule`) that
  says, for a state and a request, whether the request is rejected and with which message.
- The form's state is a `class EquipmentForm`, and the unread state is a `class Reads`.
- Loops of the source are methods with loop invariants, proved equal to recursive
  specification functions. The properties are lemmas about those functions.

The model follows the code in these places:
- A relative target that merely starts with a number ("2 weeks", "10 days") counts as that
  number of days, because the code falls back to `parseInt`. The comment at
  src/utils/parseActivitiesExcel.ts:35 speaks only of a plain number.
- In edit mode, rows with real ids are updated by id without checking that they belong to
  the edited project.
- Number cells are read as serial numbers the way the code counts them, one day later than
  Excel from serial 61 on (see "## Findings").

## Model

| member | source | states |
|---|---|---|
| `ActivityDates.RelativeDays` | src/utils/parseActivitiesExcel.ts:23-39 | any offset read from a target text is a non-negative number of days |
| `ActivityDates.RelativeOfNormalised` | src/utils/parseActivitiesExcel.ts:25-38 | on trimmed, lower-cased text the offset found is never negative; its four cases are stated by `RelativeNthUnit`, `RelativeNumericPrefix`, `RelativePlainNumber` and `RelativeNegative` |
| `ActivityDates.RelativeNthUnit` | src/utils/parseActivitiesExcel.ts:25-34 | digits, optional ordinal suffix, optional white space and a unit give N-1, 7N or 30N days |
| `ActivityDates.RelativeNumericPrefix` | src/utils/parseActivitiesExcel.ts:36-37 | digits followed by anything that is no unit tail give the value of those digits ("2 weeks" is 2) |
| `ActivityDates.RelativePlainNumber` | src/utils/parseActivitiesExcel.ts:36-37 | a bare number of days is taken as it is |
| `ActivityDates.RelativeNeedsDigits` | src/utils/parseActivitiesExcel.ts:24-38 | normalised text that starts with neither a digit nor a sign names no offset |
| `ActivityDates.RelativeNegative` | src/utils/parseActivitiesExcel.ts:36-38 | a negative number of days is refused |
| `ActivityDates.NormalisedEnds` | src/utils/parseActivitiesExcel.ts:25 | after trim and lower-case the text has no white space at either end |
| `ActivityDates.NormalForm` | src/utils/parseActivitiesExcel.ts:25 | text already trimmed and without upper case is read as it is |
| `ActivityDates.UnitMatchOf` | src/utils/parseActivitiesExcel.ts:27 | the `(\d+)` group is the whole leading digit run, and the unit match depends only on what follows it |
| `ActivityDates.ParseIntDigits` | src/utils/parseActivitiesExcel.ts:36 | `parseInt` reads the leading digits of text that starts with a digit |
| `ActivityDates.NegativeParse` | src/utils/parseActivitiesExcel.ts:36 | `parseInt` of a minus sign and digits is the negated value |
| `ActivityDates.PaddedField` | src/utils/parseActivitiesExcel.ts:51-52 | a month or day below 100 is padded to two digits with the same value |
| `ActivityDates.IsoPieces` | src/utils/parseActivitiesExcel.ts:49-54 | the text of a year from 0 on is year digits, '-', two month digits, '-', two day digits, with those values |
| `ActivityDates.IsoTextShape` | src/utils/parseActivitiesExcel.ts:49-54 | fields of a four-digit year format as `dddd-dd-dd` |
| `ActivityDates.IsoNotEmpty` | src/utils/parseActivitiesExcel.ts:49-54 | a valid date never formats as empty text |
| `ActivityDates.IsoFormat` | src/utils/parseActivitiesExcel.ts:49-54 | a date with a four-digit year formats with the ISO shape |
| `ActivityDates.ToIsoDateLocal` | src/utils/parseActivitiesExcel.ts:49-54 | `toISODateLocal`: year, then month and day padded to two digits; an invalid date gives "NaN-NaN-NaN". Its shape is stated by `IsoPieces` and `IsoFormat` |
| `ActivityDates.AddDays` | src/utils/parseActivitiesExcel.ts:41-46 | `addDays`: the pieces of the text rebuilt as a date, moved by the days and formatted; `AddDaysMoves` states the result is the date that many days later |
| `ActivityDates.IsoReadBack` | src/utils/parseActivitiesExcel.ts:62-64 | a date the code formats with a four-digit year is read back unchanged by the cell parser |
| `ActivityDates.StartOfIso` | src/utils/parseActivitiesExcel.ts:42-43 | `addDays` reads back the day it formatted, for years 100 to 99999 |
| `ActivityDates.MoveDaysMoves` | src/utils/parseActivitiesExcel.ts:44 | `setDate(getDate() + n)` moves a valid date by exactly n days, up to TimeClip |
| `ActivityDates.AddDaysMoves` | src/utils/parseActivitiesExcel.ts:41-46 | `addDays` on a formatted date (years 100 to 99999) is the date n days later, formatted |
| `ActivityDates.IsoOutputDashed` | src/utils/parseActivitiesExcel.ts:49-54 | every formatted date splits on '-' into digit pieces |
| `ActivityDates.ParsedDateDashed` | src/utils/parseActivitiesExcel.ts:60-86 | every date the cell parser returns splits into digit pieces, so `addDays` reads each piece with `Number` exactly |
| `ActivityDates.TextCellDashed` | src/utils/parseActivitiesExcel.ts:62-76 | so does every date the text branch returns |
| `ActivityDates.DmyDate` | src/utils/parseActivitiesExcel.ts:71-72 | a day kept by the strict check is a valid date |
| `ActivityDates.DmyKept` | src/utils/parseActivitiesExcel.ts:66-73 | the strict check keeps a date exactly when the numbers name a real day (years 0-99 read as 1900-1999), and then it is that day |
| `ActivityDates.DmyKeptReal` | src/utils/parseActivitiesExcel.ts:71-72 | a real day is kept, as that day |
| `ActivityDates.DmyDroppedRollover` | src/utils/parseActivitiesExcel.ts:71-72 | numbers that do not name a real day roll over and are dropped |
| `ActivityDates.MatchDmyBounds` | src/utils/parseActivitiesExcel.ts:66 | a `d{1,2}-d{1,2}-dddd` match gives a day and a month below 100 and a year to 9999, and is never ISO-shaped |
| `ActivityDates.DmyText` | src/utils/parseActivitiesExcel.ts:66-75 | on d-m-yyyy text the strict check's date wins, else the native parser decides |
| `ActivityDates.DmyCell` | src/utils/parseActivitiesExcel.ts:62-76 | a d-m-yyyy cell that is a real day becomes that day; otherwise (31-04-2024) it is left to the native parser |
| `ActivityDates.ParseDateCell` | src/utils/parseActivitiesExcel.ts:60-86 | `parseDateCell` as written; a date found is never empty text. Its branches are stated by `IsoCellUnchanged`, `DmyCell` and `NumberCellAsWritten` |
| `ActivityDates.ParseDateText` | src/utils/parseActivitiesExcel.ts:62-76 | a date found in text is never empty text; ISO-shaped text is kept (`IsoCellUnchanged`) and d-m-yyyy text is decided as `DmyText` states |
| `ActivityDates.IsoCellUnchanged` | src/utils/parseActivitiesExcel.ts:62-64 | text whose trimmed form has the `yyyy-mm-dd` shape is returned trimmed and otherwise unchanged |
| `ActivityDates.ParseDateCellExcel` | src/utils/parseActivitiesExcel.ts:60-86 | the cell parser with Excel's serial reading: it agrees with `parseDateCell` on every cell that is not a number, and a date found is never empty |
| `ActivityDates.EpochDate` | src/utils/parseActivitiesExcel.ts:79 | `new Date(1900, 0, 1)` is 1900-01-01 |
| `ActivityDates.SerialAsWrittenCounts` | src/utils/parseActivitiesExcel.ts:78-82 | as written, serial n is day n - 1 after 1900-01-01 |
| `ActivityDates.ExcelSerialDay` | src/utils/parseActivitiesExcel.ts:77-83 | Excel's serial n is day n - 1 after 1900-01-01 up to 60 and day n - 2 from 61 on |
| `ActivityDates.SerialAsWrittenOneDayLate` | src/utils/parseActivitiesExcel.ts:78-82 | from serial 61 on, the code's date is one day after the one Excel shows |
| `ActivityDates.SerialAsWrittenAgreesEarly` | src/utils/parseActivitiesExcel.ts:78-82 | up to serial 60 the code and Excel agree |
| `ActivityDates.SerialNewYear2024` | src/utils/parseActivitiesExcel.ts:78-82 | serial 45292, shown by Excel as 2024-01-01, becomes 2024-01-02 as written |
| `ActivityDates.SerialTopAsWritten` | src/utils/parseActivitiesExcel.ts:78-82 | the largest serial, 2958465 (9999-12-31), becomes 10000-01-01 as written, which has no ISO shape |
| `ActivityDates.ExcelSerialRange` | src/utils/parseActivitiesExcel.ts:78 | every accepted serial falls in the years 1900 to 9999 |
| `ActivityDates.NumberCell` | src/utils/parseActivitiesExcel.ts:77-83 | with Excel's reading (`ParseDateCellExcel`), a number cell from 1 to 2958465 becomes the ISO date Excel shows; any other number gives no date |
| `ActivityDates.NumberCellAsWritten` | src/utils/parseActivitiesExcel.ts:77-83 | as written, a number cell from 1 to 2958465 becomes the date floor(v) - 1 days after 1900-01-01; any other number gives no date |
| `ActivityDates.SerialCellAsWritten` | src/utils/parseActivitiesExcel.ts:78-82 | the serial branch on its own: a value from 1 to 2958465 gives the date floor(v) - 1 days after 1900-01-01, formatted; any other value gives none |
| `ActivityDates.SerialAsWrittenIso` | src/utils/parseActivitiesExcel.ts:78-82 | as written, every serial below 2958465 gives a date that formats with the `yyyy-mm-dd` shape |
| `ActivityDates.CellNewYear2024` | src/utils/parseActivitiesExcel.ts:77-83 | the number cell 45292 is 2024-01-01 in Excel's reading and 2024-01-02 as the code reads it |
| `ActivityDates.MilestoneAnywhere` | src/utils/parseActivitiesExcel.ts:88-93 | a cell is a milestone exactly when its text contains "milestone" in any letter case |
| `ActivityDates.NormalizeActivityType` | src/utils/parseActivitiesExcel.ts:88-93 | `normalizeActivityType`: a milestone or a regular update; `MilestoneAnywhere` states which |
| `ActivityImport.ReadPreamble` | src/utils/parseActivitiesExcel.ts:99-116 | data starts at row 0, 1 or 2; without a preamble there is no commencement date; a date found is not empty |
| `ActivityImport.PreambleCases` | src/utils/parseActivitiesExcel.ts:103-116 | a date in the first cell makes row 1 the data start row; a "commencement" label gives the second cell's date and data start row 2; both as if-and-only-if. The header scan looks at rows 0 to min(dataStartRow + 3, n) - 1 (lines 119 and 122); when no header is found, dataStartRow is taken as the header row and data begins one row later (lines 120 and 144) |
| `ActivityImport.FindIndex` | src/utils/parseActivitiesExcel.ts:132-139 | the index found is the first header the column's test accepts, -1 when none does |
| `ActivityImport.ColumnOr` | src/utils/parseActivitiesExcel.ts:132-139 | a column is the fallback position or a header naming it, and a header naming it whenever one exists |
| `ActivityImport.ScanBound` | src/utils/parseActivitiesExcel.ts:122 | the scan stops at three rows past the data start or at the end of the sheet |
| `ActivityImport.FirstHeader` | src/utils/parseActivitiesExcel.ts:122-142 | a header found lies in the scanned rows and is a header row |
| `ActivityImport.FirstHeaderFirst` | src/utils/parseActivitiesExcel.ts:122-142 | no scanned row before the one found is a header row, and none at all when nothing is found |
| `ActivityImport.SrNo` | src/utils/parseActivitiesExcel.ts:156 | the serial number is at least 1 |
| `ActivityImport.ReadRow` | src/utils/parseActivitiesExcel.ts:148-174 | a row is kept exactly when its trimmed name is non-empty; then the name is that text, `sort_order` is its offset and `sr_no` at least 1 |
| `ActivityImport.DataRows` | src/utils/parseActivitiesExcel.ts:147 | the loop visits the rows from the data start to the end |
| `ActivityImport.Positions` | src/utils/parseActivitiesExcel.ts:147-175 | the kept activities come from strictly increasing row positions, each holding that activity |
| `ActivityImport.PresentComplete` | src/utils/parseActivitiesExcel.ts:155 | no row that yields an activity is dropped |
| `ActivityImport.ActivitiesOrdered` | src/utils/parseActivitiesExcel.ts:154-173 | kept activities have names and `sr_no` at least 1, and `sort_order` strictly increases |
| `ActivityImport.RowNotLost` | src/utils/parseActivitiesExcel.ts:154-175 | a row with a name yields an activity of that name and offset |
| `ActivityImport.ExplicitTarget` | src/utils/parseActivitiesExcel.ts:158-171 | a date in the target cell is the target date, whatever the commencement |
| `ActivityImport.OffsetTarget` | src/utils/parseActivitiesExcel.ts:161-166 | without a date of its own, the target is the commencement moved by the offset |
| `ActivityImport.RelativeTarget` | src/utils/parseActivitiesExcel.ts:158-171 | an offset in the target cell puts the target that many days after commencement, keeping the text |
| `ActivityImport.NoTarget` | src/utils/parseActivitiesExcel.ts:161-166 | without a commencement date or a readable offset there is no target date |
| `ActivityImport.ReadRows` | src/utils/parseActivitiesExcel.ts:145-175 | the row loop yields exactly the activities the rows read to, in order |
| `ActivityImport.FindHeader` | src/utils/parseActivitiesExcel.ts:120-142 | the header loop sets the layout of the first header row, or keeps the fixed layout |
| `ActivityImport.ParseActivitiesExcel` | src/utils/parseActivitiesExcel.ts:95-180 | the whole import equals its specification function |
| `ActivityImport.ParseActivities` | src/utils/parseActivitiesExcel.ts:95-180 | the import as a function of the rows: commencement date, then the kept rows after the header; its parts are stated by `PreambleCases`, `FirstHeaderFirst`, `ActivitiesOrdered` and `RowNotLost` |
| `ActivityImport.TargetDate` | src/utils/parseActivitiesExcel.ts:158-171 | `target_date`: an explicit date, else the commencement moved by the offset, else none; stated by `ExplicitTarget`, `OffsetTarget`, `RelativeTarget` and `NoTarget` |
| `Calendar.DaysInMonth` | src/utils/parseActivitiesExcel.ts:71-72 | every month has 28 to 31 days; February has 29 exactly in leap years; the four short months have 30 |
| `Calendar.MakeDayShift` | src/utils/parseActivitiesExcel.ts:44 | moving the day of month by n moves the day number by n |
| `Calendar.YearLength` | src/utils/parseActivitiesExcel.ts:50 | consecutive New Year's days lie one year's length apart |
| `Calendar.YearFromDay` | src/utils/parseActivitiesExcel.ts:50 | the year of a day is the one whose range contains it |
| `Calendar.YearUnique` | src/utils/parseActivitiesExcel.ts:50 | only one year contains a given day |
| `Calendar.DateInYear` | src/utils/parseActivitiesExcel.ts:51-52 | the month and day of a day of the year are valid and add back up to it |
| `Calendar.Fields` | src/utils/parseActivitiesExcel.ts:50-52 | year, month and day of every day number are a valid date |
| `Calendar.MakeDayOfFields` | src/utils/parseActivitiesExcel.ts:42-43 | `new Date(y, m - 1, d)` of a day's own fields gives that day |
| `Calendar.FieldsOfMakeDay` | src/utils/parseActivitiesExcel.ts:71-72 | a real calendar date gives back its own fields |
| `Calendar.MakeDayKeepsFields` | src/utils/parseActivitiesExcel.ts:71-72 | `new Date(y, m, d)` keeps month and day exactly when they name a real day; otherwise they roll over |
| `Calendar.SetDateMoves` | src/utils/parseActivitiesExcel.ts:44 | `d.setDate(d.getDate() + n)` moves a valid date by exactly n days |
| `Calendar.InClip` | src/utils/parseActivitiesExcel.ts:72 | a day of the years -100000 to 100000 survives TimeClip |
| `EquipmentDrafts.SteppedListShape` | src/components/forms/AddProjectForm.tsx:2258-2298 | the stepper leaves exactly `quantity` entries; in edit mode it keeps the first ones and adds only id-less ones; else fresh `type-1`, `type-2`, ... |
| `EquipmentDrafts.SteppedList` | src/components/forms/AddProjectForm.tsx:2258-2298 | the new list of a type for a positive quantity; `SteppedListShape` states its length, prefix and ids |
| `EquipmentDrafts.Remove` | src/components/forms/AddProjectForm.tsx:2300-2306 | deleting a key keeps exactly the other keys |
| `EquipmentDrafts.RemoveDistinct` | src/components/forms/AddProjectForm.tsx:2300-2306 | deleting a key keeps the key order free of repeats |
| `EquipmentDrafts.EquipmentForm.constructor` | src/components/forms/AddProjectForm.tsx:2257-2317 | the form starts with the given drafts, key order and custom types |
| `EquipmentDrafts.EquipmentForm.QuantityChange` | src/components/forms/AddProjectForm.tsx:2257-2308 | a positive quantity replaces the type's list with the stepped list, a new key going last in insertion order (integer-like and `Object.prototype` type names are excluded under "## Left out"); otherwise the type is removed; custom types are kept |
| `EquipmentDrafts.EquipmentForm.UpdateDetail` | src/components/forms/AddProjectForm.tsx:2310-2317 | one text field of one entry is set; key order and custom types are kept |
| `EquipmentDrafts.EquipmentForm.UpdateDocuments` | src/components/forms/AddProjectForm.tsx:2310-2317 | the documents of one entry are set; the rest is kept |
| `EquipmentDrafts.ColumnIndex` | src/components/forms/AddProjectForm.tsx:2368-2377 | a located column is -1 or a header position |
| `EquipmentDrafts.ColumnIndexFirst` | src/components/forms/AddProjectForm.tsx:2368-2377 | the position found names the column and no header before it does; -1 when none does |
| `EquipmentDrafts.Names` | src/components/forms/AddProjectForm.tsx:2368-2377 | whether a header, trimmed but not lower-cased, names a bulk column: the regular-expression tests (Sr. No., Equipment Type, Tag No., Job No., Equipment Title) ignore case, while the Size, Material and Design Code tests are exact, case-sensitive comparisons; used by `ColumnIndexFirst` and `MissingMandatoryNames` |
| `EquipmentDrafts.IsPlaceholderRow` | src/components/forms/AddProjectForm.tsx:2383-2386 | `isPlaceholderRow`: every column empty or holding its template text; `BulkRowKept` states that such rows are skipped |
| `EquipmentDrafts.BulkRow` | src/components/forms/AddProjectForm.tsx:2389-2409 | one row of the upload as a (type, draft) pair or skipped; `BulkRowKept` states when and with which fields |
| `EquipmentDrafts.HeaderTexts` | src/components/forms/AddProjectForm.tsx:2367 | one header text per cell of the first row |
| `EquipmentDrafts.MissingMandatoryNames` | src/components/forms/AddProjectForm.tsx:2378-2381 | the upload stops for missing columns exactly when no header names some mandatory column |
| `EquipmentDrafts.BulkRowKept` | src/components/forms/AddProjectForm.tsx:2389-2409 | a row is kept exactly when it is not a template row and has every mandatory field; the draft takes type, tag, job, title as serial and the row's id |
| `EquipmentDrafts.BulkEntriesValid` | src/components/forms/AddProjectForm.tsx:2389-2410 | every kept pair comes from a non-template row with every mandatory field |
| `EquipmentDrafts.GroupKeys` | src/components/forms/AddProjectForm.tsx:2387-2410 | the types grouped are exactly those listed in first-seen order, each once |
| `EquipmentDrafts.TotalAdded` | src/components/forms/AddProjectForm.tsx:2411 | the total reported is the number of kept rows |
| `EquipmentDrafts.MergeGroupsAppends` | src/components/forms/AddProjectForm.tsx:2421-2427 | the merge appends each uploaded list to its type's list and changes nothing else |
| `EquipmentDrafts.PutAllKeeps` | src/components/forms/AddProjectForm.tsx:2416-2420 | adding keys keeps the old ones in front, adds exactly the missing ones and keeps them distinct |
| `EquipmentDrafts.UploadKeepsOrder` | src/components/forms/AddProjectForm.tsx:2416-2427 | after the merge the key order still lists every type exactly once |
| `EquipmentDrafts.UploadEffect` | src/components/forms/AddProjectForm.tsx:2356-2433 | fewer than two rows or a missing column are reported as such and change nothing; else the count is the kept rows and each type grows by exactly its uploaded drafts, old keys and custom types kept in front |
| `EquipmentDrafts.Upload` | src/components/forms/AddProjectForm.tsx:2356-2433 | the bulk upload on form state; `UploadEffect` states its outcome and new state |
| `EquipmentDrafts.EquipmentForm.BulkUpload` | src/components/forms/AddProjectForm.tsx:2356-2433 | the upload's outcome and new form state are those of `Upload` on the old state |
| `EquipmentDrafts.CollectRows` | src/components/forms/AddProjectForm.tsx:2387-2410 | the row loop builds the grouping, key order and custom types of the kept pairs |
| `EquipmentDrafts.CollectRow` | src/components/forms/AddProjectForm.tsx:2390-2409 | one pass of the row loop extends them by that row's pair |
| `EquipmentDrafts.AddAll` | src/components/forms/AddProjectForm.tsx:2416-2420 | the custom-type merge adds each missing type once, in order |
| `EquipmentDrafts.MergeAll` | src/components/forms/AddProjectForm.tsx:2421-2427 | the entries loop yields the merged map and key order |
| `EquipmentStore.Ids` | src/components/forms/AddProjectForm.tsx:2630-2643 | one id per stored row |
| `EquipmentStore.Apply` | src/components/forms/AddProjectForm.tsx:2669-2781 | one request against the stored rows and counts; `ApplyRecords` and `ApplyKeepsDistinct` state its effect |
| `EquipmentStore.FreshId` | src/components/forms/AddProjectForm.tsx:2766 | the id the database gives a created row; `FreshIdFresh` states it is new and UUID-long |
| `EquipmentStore.ByProject` | src/components/forms/AddProjectForm.tsx:2716 | `getEquipmentByProject`: the project's rows in stored order; `ByProjectAll` states it |
| `EquipmentStore.Updated` | src/components/forms/AddProjectForm.tsx:2669 | an update keeps the number of rows |
| `EquipmentStore.FreshIdFresh` | src/components/forms/AddProjectForm.tsx:2511 | a new row's id is UUID-long and differs from every stored id |
| `EquipmentStore.ApplyRecords` | src/components/forms/AddProjectForm.tsx:2669-2781 | a rejected request fails and changes nothing; a create appends one row with a new id; no request moves an id or project; only a count update changes counts |
| `EquipmentStore.ApplyKeepsDistinct` | src/components/forms/AddProjectForm.tsx:2669-2781 | no request makes two rows share an id |
| `EquipmentStore.ByProjectAll` | src/components/forms/AddProjectForm.tsx:2716 | listing a project returns only its rows |
| `EquipmentStore.ByProjectUpdated` | src/components/forms/AddProjectForm.tsx:2778-2779 | rewriting fields keeps every project's row count |
| `EquipmentStore.Store.constructor` | src/components/forms/AddProjectForm.tsx:2620-2784 | the store starts in the given state |
| `EquipmentStore.Store.Update` | src/components/forms/AddProjectForm.tsx:2669 | `updateEquipment` has the effect and reply `Apply` gives |
| `EquipmentStore.Store.Create` | src/components/forms/AddProjectForm.tsx:2766 | `createEquipment` has the effect and reply `Apply` gives |
| `EquipmentStore.Store.List` | src/components/forms/AddProjectForm.tsx:2716 | `getEquipmentByProject` replies as `Apply` does and on success returns the project's rows in order |
| `EquipmentStore.Store.SetCount` | src/components/forms/AddProjectForm.tsx:2781 | `updateProject` of the count has the effect and reply `Apply` gives |
| `Reconcile.DashNumberShape` | src/components/forms/AddProjectForm.tsx:2513 | the first-dash test is `^[^-]+-\d+$` |
| `Reconcile.IsFakeId` | src/components/forms/AddProjectForm.tsx:2510-2514 | `isFakeID`: a non-empty id shorter than 20, containing the type name, or of the form `x-1`; `PlaceholderIdIsFake`, `BulkIdIsFake`, `FreshIdIsReal` and `UuidKeptUnlessNamed` state which ids are fake |
| `Reconcile.RealId` | src/components/forms/AddProjectForm.tsx:2516 | `realID`: the id unless it is fake, then none; `FlattenIds` states the ids submitted are real or empty |
| `Reconcile.PlaceholderIdIsFake` | src/components/forms/AddProjectForm.tsx:2287-2290 | a create-mode placeholder id is always taken for a temporary one and dropped |
| `Reconcile.BulkIdIsFake` | src/components/forms/AddProjectForm.tsx:2401 | so is an id made by the bulk upload |
| `Reconcile.FreshIdIsReal` | src/components/forms/AddProjectForm.tsx:2510-2516 | the model's stand-in store id (`FreshId`, all zeros) is kept as real unless the type name is all zeros; this is a fact about the stand-in, and `UuidKeptUnlessNamed` states what holds for real ids |
| `Reconcile.UuidKeptUnlessNamed` | src/components/forms/AddProjectForm.tsx:2508-2516 | an id with the text of a database UUID (36 characters, lower-case hex in groups 8-4-4-4-12) is never too short and never of the `x-1` form, so it is kept exactly when it does not contain the type name and dropped exactly when it does |
| `Reconcile.UuidNamingTypeDropped` | src/components/forms/AddProjectForm.tsx:2508-2516 | the UUID 3fa1c2d4-5b6e-4f70-8a91-b2c3d4e5f607 is UUID-shaped, yet under the custom type "a1" it is taken for a temporary id and loses its id on submit |
| `Reconcile.Submitted` | src/components/forms/AddProjectForm.tsx:2506-2527 | one item per draft of a type |
| `Reconcile.FlattenIds` | src/components/forms/AddProjectForm.tsx:2505-2527 | every submitted item has a type of the form and an id that is real or empty |
| `Reconcile.DraftSubmitted` | src/components/forms/AddProjectForm.tsx:2505-2527 | every draft of the form is submitted, with its id made real or empty |
| `Reconcile.KeptOnSubmit` | src/components/forms/AddProjectForm.tsx:2528-2548 | the `equipmentData` filter: when editing, an item with a real id or real values; `EquipmentDataMembers` states it |
| `Reconcile.EquipmentData` | src/components/forms/AddProjectForm.tsx:2505-2548 | `equipmentData`: every draft flattened, ids made real or empty, then filtered; `EquipmentDataMembers` states its members |
| `Reconcile.SelectMembers` | src/components/forms/AddProjectForm.tsx:2630-2631 | a filter keeps exactly the items that pass, and the two halves add up to the whole |
| `Reconcile.EquipmentDataMembers` | src/components/forms/AddProjectForm.tsx:2505-2548 | an item is submitted exactly when it is in the form and, when editing, has a real id or real values; its id is never temporary |
| `Reconcile.FindFirst` | src/components/forms/AddProjectForm.tsx:2638 | `findIndex` is -1 or a position |
| `Reconcile.FindFirstFinds` | src/components/forms/AddProjectForm.tsx:2638 | `findIndex` returns the first position with the key, -1 when there is none |
| `Reconcile.FirstOnesFrom` | src/components/forms/AddProjectForm.tsx:2637-2643 | each item kept is the first of its key and passes the test |
| `Reconcile.FirstOnesDistinct` | src/components/forms/AddProjectForm.tsx:2637-2643 | no two kept items share a key |
| `Reconcile.FirstOnesHas` | src/components/forms/AddProjectForm.tsx:2637-2643 | the first item of every key that passes is kept |
| `Reconcile.FirstOnesComplete` | src/components/forms/AddProjectForm.tsx:2683-2705 | every key that passes has its first item among the kept ones |
| `Reconcile.UniqueExistingShape` | src/components/forms/AddProjectForm.tsx:2637-2643 | each stored row is updated at most once, and every id of the form is updated |
| `Reconcile.UniqueNewShape` | src/components/forms/AddProjectForm.tsx:2683-2705 | no two processed new items share tag/job/serial, each has real values, and every such combination is processed once |
| `Reconcile.UniqueExisting` | src/components/forms/AddProjectForm.tsx:2637-2643 | `uniqueExistingEquipment`: the first item of each id; `UniqueExistingShape` states it |
| `Reconcile.UniqueNew` | src/components/forms/AddProjectForm.tsx:2683-2705 | `uniqueNewEquipment`: the first item of each tag/job/serial with real values; `UniqueNewShape` states it |
| `Reconcile.FindMatchFirst` | src/components/forms/AddProjectForm.tsx:2719-2728 | the match is the first row matching by tag or by job and serial; none exactly when no row matches |
| `Reconcile.Matches` | src/components/forms/AddProjectForm.tsx:2719-2728 | a stored row matches by tag, or else by job and serial; `FindMatchFirst` states the match chosen |
| `Reconcile.FindMatch` | src/components/forms/AddProjectForm.tsx:2719-2728 | `allProjectEquipment.find(...)`: the first matching row; `FindMatchFirst` states it |
| `Reconcile.RealValuesNotDefaulted` | src/components/forms/AddProjectForm.tsx:2654-2666 | items with real values are written the same with or without the 'TBD' defaults |
| `Reconcile.UpdateExisting` | src/components/forms/AddProjectForm.tsx:2646-2676 | the update loop, ending at the first failure; `UpdateExistingKeeps` states its effect |
| `Reconcile.NewStep` | src/components/forms/AddProjectForm.tsx:2710-2772 | one new item: list, then update the matching row or create one; `NewStepDecides` and `NewStepGrows` state its effect |
| `Reconcile.ProcessNew` | src/components/forms/AddProjectForm.tsx:2709-2773 | the new-item loop, ending at the first failure; `ProcessNewGrows` states its effect |
| `Reconcile.Recount` | src/components/forms/AddProjectForm.tsx:2777-2784 | the recount, its failure ignored; `RecountSets` states its effect |
| `Reconcile.EditRun` | src/components/forms/AddProjectForm.tsx:2620-2784 | the edit run; `EditRunKeeps` and `EditRunRecounts` state its effect |
| `Reconcile.ExtendsTrans` | src/components/forms/AddProjectForm.tsx:2620-2784 | keeping the rows in place chains |
| `Reconcile.UpdateExistingKeeps` | src/components/forms/AddProjectForm.tsx:2646-2676 | the update loop never adds a row nor changes an id, project or count |
| `Reconcile.NewStepGrows` | src/components/forms/AddProjectForm.tsx:2709-2772 | a new item adds at most one row, for the project, and none when a stored row matches it; `NewStepDecides` says which row changes and how |
| `Reconcile.NewStepDecides` | src/components/forms/AddProjectForm.tsx:2719-2772 | a new item that goes through with a stored row of the project matching it rewrites exactly the rows with that row's id to the entry's fields and keeps every other row's fields and the number of rows; with no match it appends one row for the project carrying the entry's fields |
| `Reconcile.ProcessNewGrows` | src/components/forms/AddProjectForm.tsx:2709-2773 | the new items add at most one row each, all for the project |
| `Reconcile.RecountSets` | src/components/forms/AddProjectForm.tsx:2777-2784 | the recount changes no row; when both requests pass the count is the project's row count, else unchanged |
| `Reconcile.EditRunKeeps` | src/components/forms/AddProjectForm.tsx:2620-2784 | an edit keeps every row's id and project, adds at most one row per distinct new combination, all for the project, and leaves other projects' counts |
| `Reconcile.EditRunRecounts` | src/components/forms/AddProjectForm.tsx:2620-2784 | when the server accepts the project's listings and count updates, an edit that ends without error leaves the project's stored count equal to its number of stored rows |
| `Reconcile.CreateAllAccounts` | src/components/forms/AddProjectForm.tsx:3014-3046 | every item is stored as a new row of the project or reported as one failure |
| `Reconcile.CreateAll` | src/components/forms/AddProjectForm.tsx:3020-3045 | the create loop, recording each failure and going on; `CreateAllAccounts` states its effect |
| `Reconcile.FirstSentenceOf` | src/components/forms/AddProjectForm.tsx:3176 | the first sentence is the message up to its first full stop, or all of it |
| `Reconcile.Shown` | src/components/forms/AddProjectForm.tsx:3176-3177 | at most five failures are listed and the rest are counted in "(and n more)" |
| `Reconcile.FailureSummary` | src/components/forms/AddProjectForm.tsx:3175-3177 | the summary text: the shown lines joined by "; " and "(and n more)"; `Shown` states how many are shown |
| `Reconcile.Toast` | src/components/forms/AddProjectForm.tsx:3175-3181 | the toast is shown exactly when some create failed |
| `Reconcile.Save` | src/components/forms/AddProjectForm.tsx:2505-3181 | the equipment part of a submission, edit or create; `EditRunKeeps`, `EditRunRecounts`, `CreateAllAccounts` and `Toast` state its parts |
| `Reconcile.UpdateAll` | src/components/forms/AddProjectForm.tsx:2646-2676 | the update loop has the effect and error of `UpdateExisting` |
| `Reconcile.NewEntry` | src/components/forms/AddProjectForm.tsx:2710-2772 | one new item has the effect and error of `NewStep` |
| `Reconcile.NewAll` | src/components/forms/AddProjectForm.tsx:2709-2773 | the new-item loop has the effect and error of `ProcessNew` |
| `Reconcile.RecountProject` | src/components/forms/AddProjectForm.tsx:2777-2784 | the recount has the effect of `Recount` and reports nothing |
| `Reconcile.EditEquipment` | src/components/forms/AddProjectForm.tsx:2620-2784 | the edit run has the effect and error of `EditRun` |
| `Reconcile.CreateEquipmentRows` | src/components/forms/AddProjectForm.tsx:3014-3046 | the create loop has the effect and failures of `CreateAll` |
| `Reconcile.SaveEquipment` | src/components/forms/AddProjectForm.tsx:2505-3181 | the submission's equipment part has the effect, error and toast of `Save` |
| `NotificationReads.UpdatedAt` | src/contexts/NotificationReadsContext.tsx:58-66 | `getUpdatedAt`: `updated_at`, else `last_update`, parsed, 0 when missing or NaN; `MissingNeverUnread` states the missing case |
| `NotificationReads.Seen` | src/contexts/NotificationReadsContext.tsx:81-86 | `getLastSeen`: the key's time, 0 when unseen |
| `NotificationReads.UnreadCount` | src/contexts/NotificationReadsContext.tsx:100-118 | the number of items updated after a time; `UnreadCountPositions` and `UnreadCountBounds` state it |
| `NotificationReads.MissingNeverUnread` | src/contexts/NotificationReadsContext.tsx:58-66 | an item with neither timestamp counts as updated at 0, so it is never unread against a last-seen time from 0 on |
| `NotificationReads.UnreadCountPositions` | src/contexts/NotificationReadsContext.tsx:100-118 | the count is the number of positions whose item was updated after the last-seen time |
| `NotificationReads.UnreadCountBounds` | src/contexts/NotificationReadsContext.tsx:100-132 | the count never exceeds the items and is positive exactly when some item is newer |
| `NotificationReads.UnreadCountMonotone` | src/contexts/NotificationReadsContext.tsx:109-114 | a later last-seen time never shows more unread items |
| `NotificationReads.UnreadCountAppend` | src/contexts/NotificationReadsContext.tsx:110-114 | the count of two lists together is the sum of their counts |
| `NotificationReads.MarkClears` | src/contexts/NotificationReadsContext.tsx:88-118 | marking a key seen at a time no item is newer than clears its badge |
| `NotificationReads.EntityUnread` | src/contexts/NotificationReadsContext.tsx:166-174 | `useIsEntityUnread`: updated at a positive time after the last-seen time; `EntityUnreadAgrees` states it |
| `NotificationReads.EntityUnreadAgrees` | src/contexts/NotificationReadsContext.tsx:166-174 | with a non-negative last-seen time an entity is unread exactly when a list of just that entity counts one |
| `NotificationReads.Reads.constructor` | src/contexts/NotificationReadsContext.tsx:75 | the state starts as the loaded map |
| `NotificationReads.Reads.MarkAsSeen` | src/contexts/NotificationReadsContext.tsx:88-98 | the key's last-seen time becomes now, and no other key changes |
| `NotificationReads.Reads.GetUnreadCount` | src/contexts/NotificationReadsContext.tsx:100-118 | the loop counts the items updated after the key's last-seen time (0 when unseen) |
| `NotificationReads.Reads.HasUnread` | src/contexts/NotificationReadsContext.tsx:120-132 | true exactly when some item was updated after the key's last-seen time |
| `Text.DecimalRoundTrip` | src/utils/parseActivitiesExcel.ts:51-53 | a number written in decimal reads back as itself |
| `Text.SplitCons` | src/utils/parseActivitiesExcel.ts:42 | `split` of text with a separator is its first piece followed by the split of the rest |
| `Text.TrimSpan` | src/utils/parseActivitiesExcel.ts:63 | `trim` removes white space at both ends and nothing else |
| `Text.ContainsTrimmedLower` | src/utils/parseActivitiesExcel.ts:90-91 | trimming does not change whether lower-cased text contains a word without white space |

## Left out

- Reading the workbook, the browser file input, toasts, console output and React state
  plumbing are not modelled. The model starts from the rows of cells the sheet reader
  produces, and its operations return the toast text.
- The clock (`Date.now()`) is a parameter. The model reads it once per upload, where the code
  reads it once per row. The readings only show up in the digits of the generated ids. Ids
  made this way are taken for temporary ones whatever the digits (`Reconcile.BulkIdIsFake`).
- `new Date(text)` is a parameter (`native`), the local day it parses or none, because its
  accepted formats depend on the JavaScript engine. `new Date(s).getTime()` in the unread
  badges is a parameter (`DateParse`) in milliseconds.
- Dates are whole local days. Time of day, time-zone offsets and daylight saving are not
  modelled. TimeClip is applied to day numbers, so a date within one day of the clip bound
  may be counted as valid where the engine would not.
- Number cells carry a real value and their JavaScript `String()` text. Double rounding,
  NaN and the infinities are not modelled. NaN never reaches the serial branch, and
  infinities lie outside its range.
- Date-object cells (line 84 of the activity parser) are not modelled: the caller that reads
  the workbook, and whether it converts dates, is not part of this model. The model's cells
  are text, numbers, booleans or missing.
- `parseInt` is modelled for what the code passes it: trimmed, lower-cased text with an
  optional sign and digits. Its hexadecimal and exponent quirks do not arise in base 10.
- In the header scan, `hasType` and `hasTarget` are computed but never used, so they are
  not modelled. The tests `h === 'sr no'` and `h === 'sr no.'` are subsumed by
  `h.includes('sr')`.
- Lower-casing is ASCII only. Non-ASCII case folding is not modelled.
- `STANDARD_EQUIPMENT_TYPES` is modelled as written. The type key of line 2397 (a ternary
  whose two branches agree) is the type text itself.
- EquipmentDrafts.EquipmentForm.UpdateDetail: requires the type to have a list. The code
  would throw on `prev[type].map` otherwise.
- EquipmentDrafts.EquipmentForm.UpdateDocuments: requires the type to have a list, for the
  same reason.
- Document uploads of equipment and project files (lines 2790-3000 and 3047-3144) are not
  modelled. Neither are the fields `status`, `progress` and `progress_phase` written on
  create, because they are constants.
- The create-mode branch at lines 3145-3172 is not modelled. It runs only when the list it
  loops over is empty, so it creates nothing.
- The guard `if (!equipment.id) continue` in the update loop (line 2647) is not modelled.
  Every item reaching that loop has an id.
- A missing id (`undefined`) and an empty id are both the empty string. Null store fields
  (`?.trim()`) and `(all || [])` are not modelled: stored rows always have their fields,
  and a successful list returns a list.
- Reconcile.Save: `isEditMode && editData` is a single flag `editing`. The form is never in
  edit mode without edit data.
- The server's validation (uniqueness of tag, job and serial numbers, permissions, network
  failures) is the `Rule` parameter. An update of an unknown id succeeds and changes
  nothing.
- EquipmentStore.FreshId models a database-issued UUID as a fresh string of zeros, longer
  than every stored id and at least 20 characters long.
- Reconcile.FreshIdIsReal: holds only for that all-zeros stand-in. It does not promise that a
  real id survives `isFakeID`. A real UUID that contains a custom type name (such as "a1",
  "be" or "7") is taken for a temporary one at line 2512, as `UuidNamingTypeDropped` shows.
  In edit mode that equipment then loses its id and goes through the new-item path
  (match or create). The comment at line 2508 assumes this does not happen.
  The model follows the code here.
- EquipmentDrafts.EquipmentForm.QuantityChange: assumes that no type name is integer-like
  or names a member of `Object.prototype`, as for the bulk upload below.
  - The spreads at lines 2277, 2281 and 2298 put an integer-like key such as "100" first in
    `Object.entries`. The model's `Put` appends it last, and that order is the order of the
    creates and failures in `Reconcile.Save`.
  - In edit mode, `prev[equipmentType] || []` at line 2260 yields the prototype's function
    for a name such as `constructor` or `hasOwnProperty`, with its arity as `length`. A
    quantity equal to that arity returns the state unchanged (line 2284). A larger one
    throws at the spread at line 2277, and a smaller one throws at `slice` (line 2281).
  - The model instead builds placeholder entries for that type.
- EquipmentDrafts.Upload: assumes that no equipment type read from the sheet is
  integer-like or names a member of `Object.prototype`. A bulk upload can bring in any cell
  text as a type (lines 2392 and 2397).
  - `Object.entries` lists integer-like keys (such as "100") first. The model uses plain
    insertion order instead.
  - For a type such as `constructor`, `toString` or `__proto__`, `newByType[typeKey]` is
    already truthy at line 2399, so the `.push` at line 2400 throws. The catch at line 2430
    then reports 'Upload failed' and the form is left unchanged. The model instead reports
    `Added` and merges the row.
- `loadState`, `saveState`, `refresh` and local-storage failures of the unread badges are
  not modelled. The state is the map they would load. `UnreadEntityDot` is presentation
  only.

## Findings

| source | as written | input that shows it | evidently intended | confidence | as-written member | corrected member |
|---|---|---|---|---|---|---|
| src/utils/parseActivitiesExcel.ts:78-82 | serial n is read as day n - 1 after 1900-01-01 | serial 45292 (Excel: 2024-01-01) gives 2024-01-02; serial 2958465 (Excel: 9999-12-31) gives 10000-01-01 | the date Excel shows, which counts a phantom 1900-02-29, so serials from 61 on are one day earlier | not executed | `ActivityDates.CellNewYear2024` | `ActivityDates.NumberCell` |

The model of the code, `ActivityDates.ParseDateCell`, reads serials as written
(`ActivityDates.SerialDateAsWritten`, stated by `ActivityDates.NumberCellAsWritten`), and the
import uses it. `ActivityDates.SerialAsWrittenOneDayLate` shows the one-day shift for every
serial from 61 on, and `ActivityDates.SerialTopAsWritten` shows that the last date has no ISO
shape. The corrected reading is `ActivityDates.ParseDateCellExcel`, built on
`ActivityDates.ExcelSerialDate`; `ActivityDates.NumberCell` proves that it gives the ISO date
Excel shows for every accepted serial.
