# CRM backend: appointments and service centers

A Dafny model of the business core of a small CRM backend. It covers:

- **Appointments.** A member of the public asks for one, and it is stored
  as *pending*. An administrator can also schedule one directly as
  *upcoming*. After that an appointment is confirmed, rescheduled,
  cancelled or rejected, each with a reason where one is needed.
  Administrators can list appointments with filters, search, ordering
  and pagination, and can delete them.
- **Service centers.** They are created under a unique name, updated
  field by field, listed with pagination and deleted.

The model follows the repository's layers:

- `appointment_model.dfy` and `center_model.dfy`: the stored records, with
  their column widths and defaults.
- `appointment_schema.dfy` and `center_schema.dfy`: the request
  validators. These cover whitespace cleanup, the contact and pincode
  patterns, length bounds, date checks, "at least one field" on an
  update, and the search parameters. They also hold the response
  schemas, which validate every listed row again before it is
  returned.
- `appointment_crud.dfy`: the appointment repository, as a class over a
  map of rows. It models:
  - lookups by id and by email, where two or more matches raise an error;
  - the filtered, counted, ordered and paginated listing;
  - inserts that fail on a clashing id or an overflowing column;
  - field-by-field updates that refresh `updated_at`;
  - deletes.
- `appointment_service.dfy` and `center_service.dfy`: the two services,
  as classes over their repositories. Beside the appointment service
  sits the status lifecycle (`Step`, `Run`) and the record invariant
  every operation keeps (`Lawful`).
- Shared pieces:
  - `text.dfy`: Python's `strip`, `split` and `join`, lower-casing and
    substring matching.
  - `validators.dfy`: the cleaning and pattern checks.
  - `pagination.dfy`: page number, page count and the `has_next` and
    `has_previous` flags.
  - `ordering.dfy`: the `ORDER BY` sort.
  - `store.dfy`: selecting and paging rows of a table.

Outside inputs are parameters:

- The clock is a `now` parameter.
- New row ids are an `id` parameter.
- The acting user is an `actor` id.
- The e-mail and URL validators from the validation library are
  `FormatCheck` functions.

Where the documentation and the code disagree, the model follows the code:

- **Rejecting an appointment requires status *upcoming*.** The
  documentation says a pending request can be rejected, but
  `reject_appointment` raises unless the status is `UPCOMING`
  (`src/app/services/appointment_service.py:281-285`).
- **A date equal to the current instant is accepted.** The validators
  reject only `v < now`.
- **Over-long center names are refused by the database.** An update may
  carry a name of up to 200 characters, but the column holds 100. Such
  an update is refused by the database rather than by validation.

## Model

| member | source | states |
|---|---|---|
| Text.StripIdempotent | src/app/schemas/appointment_schema.py:58 | stripping twice is stripping once |
| Text.Strip | src/app/schemas/appointment_schema.py:58 | strip removes leading and trailing whitespace only: the result is a slice of the input that neither starts nor ends with whitespace, and it is empty exactly when the input is all whitespace |
| Text.WordsOfJoin | src/app/schemas/appointment_schema.py:49 | splitting a single-space join of words gives the same words back |
| Text.Collapse | src/app/schemas/appointment_schema.py:49 | `" ".join(v.strip().split())` neither starts nor ends with whitespace |
| Text.CollapseEmpty | src/app/schemas/appointment_schema.py:49-51 | `" ".join(v.strip().split())` is empty exactly when v is all whitespace |
| Text.CollapseKeepsWords | src/app/schemas/appointment_schema.py:49 | collapsing keeps the words of the stripped text, in order |
| Text.CollapseIdempotent | src/app/schemas/appointment_schema.py:49 | collapsing twice is the same as collapsing once |
| Text.Lower | src/app/crud/appointment_crud.py:222-224 | case folding keeps the length and lowers each character |
| Text.IsSubstringIffOccurs | src/app/crud/appointment_crud.py:219-225 | the `%term%` pattern matches exactly when the term occurs at some offset of the value |
| Validators.CleanText | src/app/schemas/appointment_schema.py:44-52 | None passes through; a whitespace-only value fails with "Field cannot be empty or whitespace"; any other value becomes its words joined by single spaces, never empty |
| Validators.CleanTextIdempotent | src/app/schemas/appointment_schema.py:75-83 | a cleaned value passes the cleaner again unchanged |
| Validators.CollapseShorter | src/app/schemas/appointment_schema.py:49 | cleaning never lengthens a value |
| Validators.CheckLength | src/app/schemas/appointment_schema.py:21-33 | a length-bounded field passes unchanged exactly when its length is within the bounds; otherwise it is a validation error for that field |
| Validators.FullMatchTrimmed | src/app/schemas/appointment_schema.py:59 | for a value without a trailing whitespace character, the anchored pattern is a full match of the character class with a length in range |
| Validators.ContactMatch | src/app/schemas/appointment_schema.py:55-61 | on a value without trailing whitespace, the `$` of the contact pattern adds nothing: it matches exactly the 7 to 20 contact characters |
| Validators.ValidateContactStable | src/app/schemas/appointment_schema.py:55-61 | a contact validate_contact returned passes it again unchanged |
| Validators.ValidateContact | src/app/schemas/appointment_schema.py:55-61 | succeeds exactly when the stripped value matches `[0-9+\-\s]{7,20}`, and returns the stripped value; otherwise "Invalid contact number format" |
| Validators.ValidatePincode | src/app/schemas/center_schema.py:107-112 | succeeds exactly when the value matches `^[0-9A-Za-z\-]{4,10}$` (where `$` also accepts one final newline), returns it unchanged; otherwise "Invalid pincode format" |
| Validators.PincodeTrailingNewline | src/app/schemas/center_schema.py:110 | the pincode pattern accepts "1234\n", because `$` matches before a final newline |
| Validators.CheckFormat | src/app/schemas/appointment_schema.py:71 | a format-checked field (EmailStr) passes exactly when the checker accepts it, taking the checker's normalised value; otherwise a validation error names the field |
| Validators.CheckOptionalFormat | src/app/schemas/center_schema.py:65-76 | an optional format-checked field passes when absent or accepted by the checker |
| Pagination.CheckPaging | src/app/services/appointment_service.py:73-77 | the listing is refused exactly when skip < 0 ("Skip parameter must be non-negative") or limit is outside 1..100 ("Limit must be between 1 and 100"), skip being checked first |
| Pagination.PageNumber | src/app/services/appointment_service.py:90 | `skip // limit + 1` is the 1-based page whose offsets contain skip |
| Pagination.PageCount | src/app/services/appointment_service.py:91 | `(total + limit - 1) // limit` is the fewest pages of limit rows that hold total rows, and is 0 exactly when there are no rows |
| Pagination.Respond | src/app/schemas/appointment_schema.py:199-206 | the list response meets its schema bounds (total >= 0, page >= 1, pages >= 0, 1 <= size <= 100) and reports the page containing skip and the ceiling page count |
| Pagination.HasNext | src/app/schemas/appointment_schema.py:208-210 | on a well-formed response, a next page is reported only when there are at least two pages |
| Pagination.HasPrevious | src/app/schemas/appointment_schema.py:212-214 | on a well-formed response, a previous page is reported exactly when the page is not the first |
| Pagination.AlignedFlags | src/app/schemas/appointment_schema.py:208-214 | when skip is a multiple of limit, has_next holds exactly when rows remain after this page, and has_previous exactly when skip > 0 |
| Pagination.NextIffRowsRemain | src/app/schemas/appointment_schema.py:208-210 | against the ceiling page count, page p < pages exactly when p * limit < total |
| Pagination.UnalignedHasNext | src/app/schemas/appointment_schema.py:208-210 | with an unaligned skip, has_next can report a next page although no row follows (skip 5, limit 10, total 12) |
| Pagination.ValidateItems | src/app/schemas/appointment_schema.py:201 | a list of items is validated item by item: it is accepted exactly when every item is, then holds each item's validated value in order; otherwise the error is that of the first refused item |
| Ordering.LexLeTotal | src/app/crud/appointment_crud.py:236-239 | the sort key order is total |
| Ordering.LexLeTransitive | src/app/crud/appointment_crud.py:236-239 | the sort key order is transitive |
| Ordering.PrecedesTotal | src/app/crud/appointment_crud.py:236-239 | any two rows are comparable, ascending or descending |
| Ordering.PrecedesTransitive | src/app/crud/appointment_crud.py:236-239 | the row order is transitive, ascending or descending |
| Ordering.SortBy | src/app/crud/appointment_crud.py:233-239 | ORDER BY returns a permutation of its rows, sorted by the key in the requested direction |
| Store.SelectIds | src/app/crud/appointment_crud.py:97-101 | the WHERE clause returns every id whose row the filter keeps, each once, and no other |
| Store.Rows | src/app/crud/appointment_crud.py:112-113 | fetching rows by id returns, in order, the stored row for each id |
| Store.PageOf | src/app/crud/appointment_crud.py:111 | OFFSET skip LIMIT limit returns the rows from position skip on, at most limit of them, fewer only at the end |
| AppointmentModel.ParseStatus | src/app/models/appointment_model.py:10-15 | a status string parses only to the status whose value it is |
| AppointmentModel.ParseStatusValue | src/app/models/appointment_model.py:10-15 | every status parses back from its value |
| AppointmentModel.NewAppointment | src/app/models/appointment_model.py:18-30 | a new row has status pending, no notes, no cancellation reason and no appointment date, and carries its given id, contact fields and timestamps |
| AppointmentCrud.Matches | src/app/crud/appointment_crud.py:173-231 | a row kept by an appointment-date bound has an appointment date, since NULL fails every comparison; an upper day bound is exclusive at the next day's start, which exists only below the last representable day (the listing fails otherwise, see GetAll) |
| AppointmentCrud.Mentions | src/app/crud/appointment_crud.py:218-226 | a row the search term matches has a name, contact or email at least as long as the term |
| AppointmentCrud.NoFiltersKeepAll | src/app/crud/appointment_crud.py:100-101 | with no filters every row is listed |
| AppointmentCrud.NarrowingNeverWidens | src/app/crud/appointment_crud.py:173-231 | adding filter conditions can only remove rows from the listing and never raises the count |
| AppointmentCrud.UpperBoundKeepsWholeDay | src/app/crud/appointment_crud.py:193-196 | created_before d keeps every row created on day d, up to its last second, and drops the next day's first second |
| AppointmentCrud.LowerBoundInclusive | src/app/crud/appointment_crud.py:190-191 | created_after d keeps a row created at the first instant of day d and drops one created just before it |
| AppointmentCrud.SearchFindsOccurrence | src/app/crud/appointment_crud.py:218-226 | a non-empty search term keeps exactly the rows whose name, contact or email contains the term, ignoring case |
| AppointmentCrud.SearchIgnoresCase | src/app/crud/appointment_crud.py:222-224 | two search terms that differ only in letter case keep the same rows |
| AppointmentCrud.EmptySearchIgnored | src/app/crud/appointment_crud.py:218 | an empty search term is treated as no search |
| AppointmentCrud.ColumnNamed | src/app/crud/appointment_crud.py:233-239 | an order_by naming a non-column attribute of the model (metadata, model_config, `__tablename__`, ...) yields no column, so `.desc()`/`.asc()` raises; created_at is used exactly for "created_at" and for names that are no attribute at all |
| AppointmentCrud.LastWriteNone | src/app/crud/appointment_crud.py:143-150 | an update list writes a field exactly when one of its entries targets it |
| AppointmentCrud.AssignAllReads | src/app/crud/appointment_crud.py:143-150 | after the setattr loop each field holds the last value written to it, or its old value when none was; the id never changes |
| AppointmentCrud.StripTimestamps | src/app/services/appointment_service.py:162-164 | popping created_at and updated_at leaves no timestamp entry in the update |
| AppointmentCrud.StrippedUpdateTimestamps | src/app/models/appointment_model.py:53-59 | after an update whose timestamp entries were popped, created_at is unchanged; updated_at is the update instant when an entry is left to write, and unchanged when none is (no UPDATE is emitted) |
| AppointmentCrud.Updated | src/app/models/appointment_model.py:53-59 | an update keeps the id; an empty one leaves the row exactly as it was; a non-empty one that does not itself set updated_at sets it to the update instant |
| AppointmentCrud.AppointmentRepository.Get | src/app/crud/appointment_crud.py:58-65 | finds the row stored under the id, or nothing |
| AppointmentCrud.AppointmentRepository.GetByEmail | src/app/crud/appointment_crud.py:71-79 | no pending row with the email gives None; exactly one gives that row; two or more fail as `scalar_one_or_none` does |
| AppointmentCrud.AppointmentRepository.GetAll | src/app/crud/appointment_crud.py:85-115 | the total counts every matching row; the page holds at most limit stored, matching rows, taken from position skip of an ordering of all matching rows sorted by the requested column; it fails with an internal error exactly when end_date, created_before or updated_before is 9999-12-31 (adding a day overflows) or order_by names a non-column attribute |
| AppointmentCrud.AppointmentRepository.Create | src/app/crud/appointment_crud.py:121-128 | inserts the row unless its id is taken or a column overflows, in which case nothing changes and the database error surfaces |
| AppointmentCrud.AppointmentRepository.Update | src/app/crud/appointment_crud.py:134-159 | replaces the row by the result of the setattr loop, with updated_at refreshed when an entry was written and not itself updated_at, leaving other rows alone; an overflowing column is an internal error with nothing changed |
| AppointmentCrud.AppointmentRepository.Delete | src/app/crud/appointment_crud.py:165-171 | removes the row with the id and nothing else |
| AppointmentSchema.ValidateAppointmentDate | src/app/schemas/appointment_schema.py:98-106 | accepts exactly the instants not before now, reading a naive value as UTC and keeping the instant; otherwise "Appointment date must be in the future" |
| AppointmentSchema.DateBoundary | src/app/schemas/appointment_schema.py:104 | the current instant itself is accepted, one second earlier is refused, and an aware value is compared by its instant |
| AppointmentSchema.ValidateDateIdempotent | src/app/schemas/appointment_schema.py:116-124 | a validated date validates again to itself |
| AppointmentSchema.CleanName | src/app/schemas/appointment_schema.py:70-83 | the raw name must have 2 to 100 characters and not be all whitespace; the stored name is its collapsed form |
| AppointmentSchema.CleanContact | src/app/schemas/appointment_schema.py:72-91 | the raw contact must have 7 to 20 characters and its stripped form must match the contact pattern; the stripped form is kept |
| AppointmentSchema.CleanNotes | src/app/schemas/appointment_schema.py:73-83 | notes are optional; given notes must have at most 1000 characters and not be all whitespace, and are collapsed |
| AppointmentSchema.ValidatePublicRequest | src/app/schemas/appointment_schema.py:67-91 | a public request is accepted exactly when name, email, contact and notes each pass their checks, and carries the cleaned values |
| AppointmentSchema.ValidateAdminRequest | src/app/schemas/appointment_schema.py:20-61 | an admin request also needs an email of at least 2 characters and a date not in the past, and carries the cleaned values and the UTC-read date |
| AppointmentSchema.ValidatedFitsNameAndContact | src/app/models/appointment_model.py:19-21 | a validated request's name and contact fit their columns |
| AppointmentSchema.NameMayShrinkBelowMinimum | src/app/schemas/appointment_schema.py:70-83 | the length bound applies before cleaning, so "a " is accepted and stored as the one-character name "a" |
| AppointmentSchema.ResponseRow | src/app/schemas/appointment_schema.py:176-193 | a stored row read as AppointmentResponse passes exactly when the AppointmentBase checks pass again (name 2 to 100 characters and not blank, e-mail of at least 2 characters accepted by the checker, contact length and pattern, notes at most 1000 characters and not blank); it then carries the cleaned name, notes and contact and the checker's e-mail, the other columns as stored |
| AppointmentSchema.ResponseRows | src/app/schemas/appointment_schema.py:199-201 | the list's items are accepted exactly when every row is, and are then the rows as ResponseRow returns them; otherwise the error is a validation error of one refused row |
| AppointmentSchema.ResponseRowStable | src/app/schemas/appointment_schema.py:18-61 | a row the listing returned passes the response schema again unchanged, when its cleaned name kept two characters and the e-mail checker leaves its own output alone |
| AppointmentSchema.ShrunkNameFailsListing | src/app/schemas/appointment_schema.py:18-61 | what the create payload accepts, the response refuses: "a " is stored as "a", which the response's name bound rejects, and whitespace-only notes are rejected too |
| AppointmentSchema.ValidateConfirm | src/app/schemas/appointment_schema.py:112-124 | confirming needs a date not in the past; notes are only length-checked, not cleaned |
| AppointmentSchema.ValidateReschedule | src/app/schemas/appointment_schema.py:127-138 | rescheduling needs a date not in the past |
| AppointmentSchema.ValidateCancel | src/app/schemas/appointment_schema.py:141-155 | a reason of 3 to 500 raw characters that is not all whitespace is accepted and collapsed; a whitespace-only one fails with "Cancellation reason cannot be empty" |
| AppointmentSchema.ValidateComplete | src/app/schemas/appointment_schema.py:158-170 | completion notes are collapsed without the emptiness check, so whitespace-only notes become the empty string |
| Validators.StripGiven | src/app/schemas/appointment_schema.py:249-252 | a non-empty search field is stripped; an empty or absent one is kept as is (the center search fields at src/app/schemas/center_schema.py:203-206 alike) |
| AppointmentSchema.CheckRanges | src/app/schemas/appointment_schema.py:254-262 | the search is refused exactly when created_after > created_before ("created_after must be before created_before") or updated_after > updated_before ("updated_after must be before updated_before"), the created range checked first |
| AppointmentSchema.ValidateSearch | src/app/schemas/appointment_schema.py:220-262 | search parameters are accepted exactly when the term length, email, status and ranges are valid; the filter carries the checker's e-mail value, and a status filter exactly when one was given, with that value |
| AppointmentSchema.SearchStatusFilter | src/app/crud/appointment_crud.py:178-179 | a validated status filter keeps exactly the rows whose stored status has the value the caller gave |
| AppointmentSchema.RangeExamples | src/app/schemas/appointment_schema.py:254-262 | an equal created range passes, a reversed created or updated range fails with its own message, and a reversed appointment-date range is not checked |
| AppointmentSchema.LastDayAcceptedThenOverflows | src/app/crud/appointment_crud.py:185-205 | the search schema accepts 9999-12-31 as end_date, created_before and updated_before, and the listing's filter on such a bound overflows |
| AppointmentService.Step | src/app/services/appointment_service.py:194-198 | an action is allowed exactly when the status is the one it requires (confirm: pending; cancel and reject: upcoming; reschedule: any) |
| AppointmentService.RunNeverCompletes | src/app/services/appointment_service.py:182-311 | no sequence of service actions reaches completed from another status |
| AppointmentService.TerminalAbsorbing | src/app/services/appointment_service.py:237-241 | cancelled and rejected appointments never change status again |
| AppointmentService.RunFromPending | src/app/services/appointment_service.py:194-203 | a pending request leaves pending only through a confirmation |
| AppointmentService.RejectNeedsUpcoming | src/app/services/appointment_service.py:281-285 | reject, like cancel, is allowed only on an upcoming appointment; a pending one cannot be rejected |
| AppointmentService.ConfirmOutcome | src/app/services/appointment_service.py:199-213 | confirming writes the date, the notes when given, and status upcoming, and refreshes updated_at |
| AppointmentService.RescheduleOutcome | src/app/services/appointment_service.py:158-170 | rescheduling writes only the date and refreshes updated_at |
| AppointmentService.CancelOutcome | src/app/services/appointment_service.py:243-257 | cancelling or rejecting writes the reason and the new status and refreshes updated_at |
| AppointmentService.TransitionKeepsLawful | src/app/services/appointment_service.py:182-311 | every allowed transition yields the status the lifecycle names and keeps the record invariant (never completed, a date once past pending, a reason exactly when cancelled or rejected) |
| AppointmentService.RescheduleDoesNotConfirm | src/app/services/appointment_service.py:144-170 | rescheduling a pending request gives it a date but leaves it pending |
| AppointmentService.AppointmentService.Transition | src/app/services/appointment_service.py:182-311 | a missing id is NotFound; a status the action does not allow is BadRequest naming the action and the status, with nothing changed; otherwise the row takes the action's fields and the status the lifecycle names |
| AppointmentService.AppointmentService.GetAppointmentById | src/app/services/appointment_service.py:42-60 | returns the stored appointment, or NotFound for "Appointment" |
| AppointmentService.AppointmentService.GetAllAppointments | src/app/services/appointment_service.py:62-98 | refuses bad paging; an upper day bound of 9999-12-31 or an order_by naming a non-column attribute is an internal error; otherwise the page at skip of an ordered listing of the matching rows is validated again as AppointmentResponse: the call fails with a validation error exactly when a row of that page is refused, it succeeds whenever every matching row validates, and on success the items are the page's rows as ResponseRow returns them, with the matching total, the page holding skip and the ceiling page count |
| AppointmentService.AppointmentService.constructor | src/app/services/appointment_service.py:32-38 | a service over a consistent repository of lawful records starts in its invariant |
| AppointmentService.AppointmentService.CreatePendingRequest | src/app/services/appointment_service.py:100-117 | stores a pending appointment with the request's fields, no date, and both timestamps at now |
| AppointmentService.AppointmentService.ScheduleAppointment | src/app/services/appointment_service.py:119-142 | stores an upcoming appointment with the request's fields and date, and both timestamps at now |
| AppointmentService.AppointmentService.ConfirmAppointment | src/app/services/appointment_service.py:182-223 | a missing id is NotFound; a status other than pending is BadRequest naming the status, with nothing changed; otherwise the row becomes upcoming with the new date |
| AppointmentService.AppointmentService.RescheduleAppointment | src/app/services/appointment_service.py:144-180 | a missing id is NotFound; otherwise the date changes whatever the status |
| AppointmentService.AppointmentService.CancelAppointment | src/app/services/appointment_service.py:225-267 | a missing id is NotFound; a status other than upcoming is BadRequest; otherwise the row is cancelled with its reason |
| AppointmentService.AppointmentService.RejectAppointment | src/app/services/appointment_service.py:269-311 | a missing id is NotFound; a status other than upcoming is BadRequest; otherwise the row is rejected with its reason |
| AppointmentService.AppointmentService.DeleteAppointment | src/app/services/appointment_service.py:313-343 | a missing id is NotFound; otherwise the row is removed and "Appointment deleted successfully" returned |
| CenterModel.NewCenter | src/app/models/center_model.py:13-26 | a new center has no services, landmark, email or links, and carries its given columns |
| CenterSchema.CleanThenBound | src/app/schemas/center_schema.py:79-95 | cleanup runs before the bounds, so a value passes exactly when it is not all whitespace and its collapsed form has a length in range |
| CenterSchema.CleanThenBoundOptional | src/app/schemas/center_schema.py:53-58 | an absent landmark passes; a given one is cleaned and then bounded |
| CenterSchema.CleanPincode | src/app/schemas/center_schema.py:59-112 | a pincode is collapsed, then must match the pincode pattern; the collapsed form is kept |
| CenterSchema.CleanPincodeNoNewline | src/app/schemas/center_schema.py:86-112 | because cleanup runs first, a stored pincode never holds the newline the pattern alone would let through |
| CenterSchema.ValidateCenterCreate | src/app/schemas/center_schema.py:18-112 | a center is accepted exactly when every field passes its check, and carries the cleaned values and the checker's e-mail, clinic URL and map URL values |
| CenterSchema.ValidatedCenterFits | src/app/models/center_model.py:14-23 | a validated new center fits every bounded column |
| CenterSchema.UpdateLengthError | src/app/schemas/center_schema.py:125-132 | an update's given fields are refused exactly when one lies outside its bounds |
| CenterSchema.ValidateCenterUpdate | src/app/schemas/center_schema.py:124-143 | an update with no field given fails with "At least one field must be provided for update", before any other check; otherwise it passes exactly when every given field is within its bounds and formats, and carries the given values with the checker's e-mail and URL values |
| CenterSchema.UpdateExamples | src/app/schemas/center_schema.py:137-143 | an empty update is refused; one that only sets an unknown key passes |
| CenterSchema.UpdateSkipsPatterns | src/app/schemas/center_schema.py:124-135 | an update does not apply the create-time cleanup or patterns: a blank pincode or a letters-only contact passes |
| CenterSchema.CenterResponseRow | src/app/schemas/center_schema.py:149-158 | a stored center read as CenterResponse passes exactly when its CenterBase fields pass the create checks again; it then carries the validated fields, with the id, owner and timestamps as stored |
| CenterSchema.CenterResponseRows | src/app/schemas/center_schema.py:161-164 | the list's items are accepted exactly when every row is, and are then the rows as CenterResponseRow returns them; otherwise the error is a validation error of one refused row |
| CenterSchema.UpdateStoredRowsFailListing | src/app/schemas/center_schema.py:124-168 | an update may store what the response refuses: a blank pincode or a letters-only contact passes the update payload, and a stored row holding it fails CenterResponse |
| CenterSchema.BlankPincodeFails | src/app/schemas/center_schema.py:59-112 | a center whose pincode is four spaces is refused by the create checks |
| CenterSchema.CenterResponseRowStable | src/app/schemas/center_schema.py:149-158 | a row the listing returned passes CenterResponse again unchanged, when the e-mail and URL checkers leave their own output alone |
| CenterSchema.ValidateCenterCreateStable | src/app/schemas/center_schema.py:18-112 | a center the create checks accepted is accepted again as it is, when the checkers leave their own output alone |
| CenterSchema.ValidateCenterSearch | src/app/schemas/center_schema.py:179-213 | search parameters are accepted exactly when the term length and email are valid and created_after is not after created_before; the e-mail filter is the checker's value; contact is not stripped |
| CenterService.AssignAllAppend | src/app/services/center_service.py:157-161 | applying two update lists in a row is applying their concatenation |
| CenterService.PatchFields | src/app/services/center_service.py:149-151 | the update list is empty exactly when no field was given non-null |
| CenterService.PatchOutcome | src/app/services/center_service.py:149-155 | the update writes exactly the fields given and non-null, keeping every other column |
| CenterService.AssignAllKeepsId | src/app/services/center_service.py:157-161 | an update never changes the id, the owner or created_at |
| CenterService.CenterFrom | src/app/services/center_service.py:116-121 | a new center is the model's constructor applied to the validated fields: every column holds the validated value, the owner is the acting user, and both timestamps are now |
| CenterService.CenterUpdated | src/app/models/center_model.py:53-59 | an empty update leaves the row as it is; a non-empty one sets updated_at to now; id, owner and created_at never change |
| CenterService.UpdateOutcome | src/app/services/center_service.py:149-161 | the updated row is the old one with the given fields written, and updated_at refreshed when a field was written |
| CenterService.LongNameUpdateFails | src/app/schemas/center_schema.py:127 | a name longer than 100 characters passes the update schema but no longer fits its column |
| CenterService.CenterRepository.Get | src/app/services/center_service.py:52 | finds the row stored under the id, or nothing |
| CenterService.CenterRepository.GetByName | src/app/services/center_service.py:106-108 | finds a stored center with exactly the name, or nothing when none has it |
| CenterService.CenterRepository.GetAll | src/app/services/center_service.py:81-88 | the total counts every kept row; the page holds at most limit stored, kept rows, taken from position skip of an ordering of all kept rows |
| CenterService.CenterRepository.Create | src/app/services/center_service.py:124 | inserts the row unless its id is taken or a column overflows |
| CenterService.CenterRepository.Update | src/app/services/center_service.py:157-161 | replaces the row by the result of the setattr loop, with updated_at refreshed when a field was written |
| CenterService.CenterRepository.Delete | src/app/services/center_service.py:188 | removes the row with the id and nothing else |
| CenterService.CenterService.GetCenterById | src/app/services/center_service.py:47-61 | returns the stored center, or NotFound for "Center" |
| CenterService.CenterService.GetAllCenters | src/app/services/center_service.py:63-99 | refuses bad paging; otherwise the page at skip of a listing of all kept rows is validated again as CenterResponse: the call fails with a validation error exactly when a row of that page is refused, it succeeds whenever every kept row validates, and on success each item is the response of the stored, kept row under its id, with the kept total, the page holding skip and the ceiling page count |
| CenterService.CenterService.constructor | src/app/services/center_service.py:37-43 | a service over a consistent repository starts in its invariant |
| CenterService.ResponsesOfStoredRows | src/app/schemas/center_schema.py:149-168 | validating a page of stored, kept rows yields, item by item, the response of the row stored under the item's id |
| CenterService.StoredRowsRespond | src/app/schemas/center_schema.py:149-168 | when every kept row validates as a CenterResponse, any page of stored, kept rows validates |
| CenterService.CenterService.CreateCenter | src/app/services/center_service.py:101-127 | a clashing name is AlreadyExists for "Center" with nothing changed; otherwise the center is stored; unique names stay unique |
| CenterService.CenterService.UpdateCenter | src/app/services/center_service.py:129-171 | a missing id is NotFound; otherwise the row is updated with the given fields |
| CenterService.CenterService.DeleteCenter | src/app/services/center_service.py:173-197 | a missing id is NotFound; otherwise the row is removed and nothing is returned |

## Left out

- The HTTP endpoints, authentication and authorization are not modelled. The e-mail notifications and the background task queue are also left out. They sit outside the services, and the services do not depend on them.
- Logging is omitted. It changes no state the model tracks.
- Asynchronous sessions and concurrent requests are not modelled. Each service call is one atomic step over the repository.
- The clock, new row ids and the acting user are parameters. The UUID generator and server defaults that produce them are not modelled. Creating an appointment or a center reads the clock twice, once per timestamp, so created_at and updated_at can differ by microseconds. The model reads it once, and both timestamps are the same `now` (CreatePendingRequest, ScheduleAppointment, CenterFrom).
- Day bounds of the listing filters are compared at midnight UTC. PostgreSQL compares a date with a timestamptz column at midnight in the session time zone, which the model fixes at UTC.
- E-mail and URL syntax (EmailStr, HttpUrl) comes from the validation library. It is a `FormatCheck` parameter, not a definition.
- The ILIKE wildcards `%` and `_` inside a user's search term are not modelled, nor is backslash, PostgreSQL's default LIKE escape character. The term is matched literally as a substring.
- Case folding covers ASCII letters only. Unicode case mapping and database collation are left out.
- The center repository's source is not part of this model. Its behaviour is assumed from its calls:
  - a lookup by exact name returns some matching row;
  - a listing applies a caller-chosen filter, counts and pages in some order;
  - an update refreshes `updated_at` only when a column is written.
- The center listing's filter dictionary is an arbitrary `keep` predicate. The filters the center repository would build from `CenterSearchParams` are not modelled.
- The appointment date goes through `model_dump(mode="json")` as an ISO string. It is modelled as stored at the same instant.
- Center services are a JSON object. Its values are kept as their JSON text.
- setattr of a key that names no column is not modelled.
- AppointmentCrud.ColumnNamed: the non-column attributes are those the model declares plus the common SQLModel and pydantic members. Other inherited class attributes would also raise, but they are not listed.
- When several fields of one payload fail, the validation library reports all of them. The model reports the first, in field order.
- AppointmentSchema.CleanName: states only that a failure is a validation error, not which message it carries. The same holds for CleanContact, CleanNotes, ValidatePublicRequest, ValidateAdminRequest, ValidateConfirm and ValidateCancel's length failures.
- CenterSchema.ValidateCenterCreate: states only that a failure is a validation error, not which field's message is reported. The same holds for ValidateCenterUpdate's length and format failures.
- AppointmentService.AppointmentService.ConfirmAppointment: the BadRequest message shows the status by its value. Python's formatting of the enum member is not modelled.
- No service operation completes an appointment. `CompleteAppointment` exists only as a schema, and the model validates it but applies it nowhere.
- AppointmentCrud.Updated: an update whose entries all write the value a column already holds still counts as a write and refreshes updated_at. The ORM would find no net change, emit no UPDATE and keep updated_at. The same holds for AppointmentRepository.Update and for CenterService.CenterUpdated.
- AppointmentSchema.ResponseRowStable and CenterSchema.CenterResponseRowStable take as a premise that the e-mail and URL checkers leave their own output unchanged. The validation library's normalisation is not modelled, so this is assumed rather than proved.
- Integer widths are not modelled. Counts and offsets are unbounded integers, as in Python. Days and timestamps are unbounded integers too, although Python's date and datetime stop at year 9999 and start at year 1. The only place the range matters, the day added to an upper filter bound of 9999-12-31, is modelled (`LastDay`). Days outside the range cannot be parsed in the source, and the model's types do not exclude them.
