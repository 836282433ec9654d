# A verified model of the therapy-booking backend's rule-carrying core

The backend is a REST service for a therapy practice: therapists publish
available time slots, patients book them, sessions and feedback are
recorded, users message each other, and payments go through M-Pesa STK
push. Almost all of it is controllers and ORM pass-through queries. This
project models the parts that hold rules, and proves what those rules
promise:

- the database schema's logic: the enumerations and their defaults, the
  default working day of five two-hour blocks, the mapping of slot lists
  to fresh unbooked rows, and the unique (therapist, date, start time)
  index (`Schema`);
- the time-slot service over the `available_time_slots` table: batch
  creation, the two queries, and update and delete by id, as a class whose
  field is the table (`TimeSlotStore`);
- every request schema of the core: time slots (current and older
  variant), bookings, feedback, sessions, messages, registration and login,
  the STK push request and the payment callback. Each schema is a parse
  function from a JavaScript value to its typed output. It comes with an
  encoder and a round-trip lemma, and a lemma linking its enumeration to
  the table's where there is one;
- the M-Pesa service's string logic (phone rewrite, timestamp squeeze) and
  what a payment callback does to the transaction table
  (`MpesaService`);
- the central error handler and the custom error classes
  (`ErrorHandler`).

Request bodies are modelled by `Common.Value`, a JavaScript value in which
a key absent from an object stands for `undefined`. zod internals the
schemas rely on are passed in as function parameters: email syntax, the
offset date-time check, `new Date(string)`, `z.coerce.date` and
`toISOString`. The same goes for the runtime's number-to-text conversion,
the clock and an error's stack. The model says nothing about what these
compute.

A slot's `is_booked` flag is not tied to its bookings anywhere in the
code: `src/bookings/bookings.service.ts` inserts, updates and deletes
bookings without reading or writing it, and only a slot update that sends
`is_booked` changes it. The model follows the code, so it has no step that
claims a slot when it is booked or releases it on cancellation.

Times of day are stored in `time` columns (`src/drizzle/schema.ts:66-67`),
so the unique index on (therapist, date, start time) compares times, not
their text: "8:00" and "08:00" are the same start. The store keys its
index on minutes since midnight, refuses a time it cannot read, and keeps
every time in the two-digit-hour form HH:MM.

The slot update route validates the body but hands the body itself, not
the validator's output, to the service
(`src/timeSlot/timeSlot.controller.ts:45-47`). The update schema lets
unknown keys through, so a body can also set `id`, `therapist_id` or
`date`; the store's patch covers every column, and an update that would
repeat an id is refused by the primary key.

Behaviour of the code that the lemmas make explicit:

- an empty `slots` list is not replaced by the defaults;
- the update schema for slots accepts `{}`, and the database then refuses
  the empty update;
- a creation request with an empty `slots` list passes validation, and the
  insert of no rows is then refused;
- the message validator accepts the status `Delivered`, which the
  `message_status` column does not have, and refuses `Deleted`, which it
  has;
- a `ValidationError` answers 500 and its `details` never reach the
  response;
- a slot's start is never required to precede its end.

## Model

| member | source | states |
|---|---|---|
| Clock.ReadTimeText | src/timeSlot/timeSlot.validator.ts:6 | a time written as H:MM or HH:MM reads back as its hour and minute |
| Clock.PaddedTimeIsClockTime | src/drizzle/schema.ts:66-67 | the HH:MM texts are exactly the clock times of five characters |
| Clock.PaddedTime | src/drizzle/schema.ts:66-67 | a clock time is written HH:MM naming the same hour and minute |
| Clock.SameMinutesSamePadding | src/drizzle/schema.ts:66-67 | two clock times naming the same time of day are written alike |
| Schema.RoleOf | src/drizzle/schema.ts:18 | a role is accepted exactly when it is admin, therapist or patient, and the decoded role's label is the input |
| Schema.BookingStatusOf | src/drizzle/schema.ts:19 | a booking status is accepted exactly when it is Pending, Confirmed or Cancelled, and decodes back to its label |
| Schema.EnumLabelsRoundTrip | src/drizzle/schema.ts:18-79 | every role and booking status survives label and decode; the column defaults are patient and Pending |
| Schema.DefaultSlotsAreTwoHourBlocks | src/drizzle/schema.ts:244-252 | the default day has exactly five blocks, block i running from 8+2i o'clock to 10+2i o'clock, in that order |
| Schema.DefaultSlotsContiguous | src/drizzle/schema.ts:246-250 | each default block ends where the next starts, and each starts strictly before it ends |
| Schema.DefaultStartsDistinct | src/drizzle/schema.ts:246-250 | the default start times are pairwise distinct times of day |
| Schema.RowsFor | src/drizzle/schema.ts:261-267 | one row per specification in input order, copying start and end, owned by the therapist, on the date, unbooked |
| Schema.CreateAvailableTimeSlots | src/drizzle/schema.ts:256-268 | an omitted list means the default blocks; output length is the list's length; every row is the therapist's, on the date, unbooked |
| Schema.DistinctStartsGiveUniqueKeys | src/drizzle/schema.ts:66-70 | rows made for one therapist and date satisfy the unique slot index exactly when their starts are pairwise distinct times of day |
| Schema.DefaultBatchIsUnique | src/drizzle/schema.ts:254 | one default batch for a therapist and date satisfies the unique slot index |
| TimeSlotStore.SlotsToCreate | src/timeSlot/timeSlot.service.ts:11-17 | no custom list gives the five default blocks; a given list, even an empty one, is used as it is; each row is the therapist's, on the date, unbooked |
| TimeSlotStore.Number | src/timeSlot/timeSlot.service.ts:19 | the inserted rows keep their columns and get consecutive serial ids |
| TimeSlotStore.IndexOfId | src/timeSlot/timeSlot.service.ts:36 | the position found holds the id and no earlier row does; no position means no row has the id |
| TimeSlotStore.StoredRow | src/drizzle/schema.ts:66-67 | a row with valid times is stored with both times written HH:MM, naming the same times of day, with the same slot key and other columns |
| TimeSlotStore.StoredRowNormalForm | src/drizzle/schema.ts:66-67 | storing a stored row changes nothing, and rows whose times differ only in how they are written are stored alike |
| TimeSlotStore.StoredRowsKeepKeys | src/drizzle/schema.ts:66-70 | the unique index sees a batch with its times stored exactly as it sees the batch sent |
| TimeSlotStore.PatchLaws | src/timeSlot/timeSlot.service.ts:35 | the empty patch changes nothing, a patch applied twice changes no more than once, a patch naming only valid times leaves valid times, and a patch without key columns keeps the slot key |
| TimeSlotStore.FirstRefused | src/timeSlot/timeSlot.service.ts:19 | the position of the first row of a multi-row insert that breaks the primary key or the unique index given the rows before it: every shorter prefix goes in, that one does not, and no position means the whole batch goes in |
| TimeSlotStore.FirstRowClashDrawsOneId | src/timeSlot/timeSlot.service.ts:19 | a batch whose first row repeats a stored start of the same therapist and date is refused at position 0, so it draws one id |
| TimeSlotStore.InsertKeepsWellFormedIff | src/drizzle/schema.ts:63-70 | appending numbered stored rows keeps the primary key and the unique index exactly when no issued id is taken and no start repeats a time of day of the same therapist and date |
| TimeSlotStore.ReplaceKeepsWellFormedIff | src/drizzle/schema.ts:63-70 | replacing one row keeps the primary key and the index exactly when its new id and its new slot key are no other row's |
| TimeSlotStore.NonKeyPatchNeverConflicts | src/timeSlot/timeSlot.service.ts:34-37 | an update naming no id, therapist, date or start never breaks the primary key or the index |
| TimeSlotStore.PaddingDoesNotEvadeIndex | src/drizzle/schema.ts:66-70 | a start of 8:00 collides with a start of 08:00 of the same therapist and date |
| TimeSlotStore.RemovePreservesWellFormed | src/timeSlot/timeSlot.service.ts:44-46 | dropping one row keeps ids distinct, the index intact and times stored, and removes exactly the rows with that id |
| TimeSlotStore.TimeSlotService.CreateTimeSlots | src/timeSlot/timeSlot.service.ts:10-20 | an empty batch, a time that is not a time of day, or a batch that takes an id in use or repeats a time of day of a start for the therapist and date is refused and leaves the table as it was (a constraint refusal still uses up the serial ids of the rows up to and including the first one refused); otherwise the batch is appended with its times stored and fresh serial ids, returned, and found by both queries |
| TimeSlotStore.TimeSlotService.GetTimeSlots | src/timeSlot/timeSlot.service.ts:23-30 | a row is returned exactly when it is in the table with that therapist and that date |
| TimeSlotStore.TimeSlotService.GetAvailableSlotsInRange | src/timeSlot/timeSlot.service.ts:52-61 | a row is returned exactly when it is that therapist's, dated within the range with both ends included, and unbooked |
| TimeSlotStore.TimeSlotService.UpdateTimeSlot | src/timeSlot/timeSlot.service.ts:33-40 | an empty patch or one with an invalid time is refused; a missing id changes nothing; otherwise only the row with the id gets the patched columns, the id included, with its times stored, unless that repeats another row's id or slot key |
| TimeSlotStore.TimeSlotService.DeleteTimeSlot | src/timeSlot/timeSlot.service.ts:43-49 | the row with the id is removed and returned, all other rows stay; a missing id returns nothing and changes nothing |
| TimeSlotValidator.TimePatternSound | src/timeSlot/timeSlot.validator.ts:6 | a time the pattern accepts has length 4 or 5 and reads as an hour below 24 and a minute below 60 |
| TimeSlotValidator.TimePatternComplete | src/timeSlot/timeSlot.validator.ts:6 | every hour 0-23 and minute 0-59, with or without a leading zero on the hour, is accepted |
| TimeSlotValidator.TimePatternIsClockTime | src/timeSlot/timeSlot.validator.ts:6 | the pattern accepts exactly the H:MM and HH:MM clock times |
| TimeSlotValidator.TimePatternExamples | src/timeSlot/timeSlot.validator.ts:6 | 7:05, 07:05 and 23:59 are accepted; 24:00, 12:60 and 7:5 are refused |
| TimeSlotValidator.DefaultSlotsMatchPattern | src/timeSlot/timeSlot.validator.ts:6-7 | every default start and end passes the time pattern |
| TimeSlotValidator.ParseSlotSpec | src/timeSlot/timeSlot.validator.ts:5-8 | a slot object is accepted exactly when start and end are both strings the pattern accepts, and the output carries them |
| TimeSlotValidator.ParseSlotList | src/timeSlot/timeSlot.validator.ts:13 | a list is accepted exactly when every element is, and the output keeps length and order |
| TimeSlotValidator.SlotSpecRoundTrip | src/timeSlot/timeSlot.validator.ts:5-8 | a written slot passes exactly when both its times are clock times, and then parses back to itself |
| TimeSlotValidator.SlotOrderNotChecked | src/timeSlot/timeSlot.validator.ts:5-8 | a slot from 18:00 to 08:00 is accepted: start and end are checked independently |
| TimeSlotValidator.ParseCreateTimeSlots | src/timeSlot/timeSlot.validator.ts:11-14 | accepted exactly with a string date and an optional valid slot list; the date is the parsed instant; no list in means no list out, and a list sent comes out as ParseSlotList parses it |
| TimeSlotValidator.OmittedSlotsReachDefaults | src/timeSlot/timeSlot.validator.ts:13 | a create request without slots leads the service to the five default blocks |
| TimeSlotValidator.ParseUpdateTimeSlot | src/timeSlot/timeSlot.validator.ts:17-21 | every key optional; each patched column is present exactly when its key is and carries the sent value; the schema's own output never names the id, therapist or date (the route forwards the raw body, which may) |
| TimeSlotValidator.ValidatedPatchHasTimes | src/timeSlot/timeSlot.validator.ts:18-19 | an accepted update names only valid times of day |
| TimeSlotValidator.ValidatedSlotsHaveTimes | src/timeSlot/timeSlot.validator.ts:5-14 | every row the service builds from an accepted creation request has valid times |
| TimeSlotValidator.UpdateLetsOtherColumnsThrough | src/timeSlot/timeSlot.validator.ts:17-21 | a body naming id and therapist_id passes the update schema, whose own output drops them |
| TimeSlotValidator.UpdateAcceptsEmptyAndEitherFlag | src/timeSlot/timeSlot.validator.ts:17-21 | the empty object is accepted as the empty patch, and is_booked may be set to either value |
| TimeSlotValidator.ParseGetAvailableSlots | src/timeSlot/timeSlot.validator.ts:24-27 | accepted exactly with string start and end dates, which come out parsed |
| LegacyTimeSlotValidator.ParseLegacySlot | src/time-slot/timeSlot.validator.ts:3-9 | four keys required; therapist_id any number; times any strings; is_booked true exactly when sent as true, false by default |
| LegacyTimeSlotValidator.LegacySlotRoundTrip | src/time-slot/timeSlot.validator.ts:3-9 | every slot parses back from its encoding, the flag omitted only when false |
| LegacyTimeSlotValidator.LegacyRequiredKeys | src/time-slot/timeSlot.validator.ts:4-7 | leaving out therapist_id, date, start_time or end_time makes the request fail |
| BookingsValidator.ParseBookings | src/bookings/validator.ts:15-20 | the output has positive ids and a status from the enum, the input is exactly its encoding (strict), and an absent status gives Pending |
| BookingsValidator.BookingsRoundTrip | src/bookings/validator.ts:15-20 | every valid booking is accepted as written, with its status key left out when Pending |
| BookingsValidator.UnknownKeyRejected | src/bookings/validator.ts:20 | any key outside the schema makes the request fail |
| BookingsValidator.StatusEnumMatchesTable | src/bookings/validator.ts:13 | the validator's statuses are exactly the booking_status column's |
| FeedbackValidator.ParseFeedback | src/feedback/validator.ts:3-9 | accepted exactly when only schema keys appear, all but the notes are present and each meets its bound; the input is the output's encoding |
| FeedbackValidator.DecodeUpdateEncodes | src/feedback/validator.ts:11 | an object of schema keys meeting their bounds decodes to a valid update whose encoding is that object |
| FeedbackValidator.ParseFeedbackUpdate | src/feedback/validator.ts:11 | every key optional, each present key meets the same bound, still strict; the input is the output's encoding |
| FeedbackValidator.FeedbackRoundTrip | src/feedback/validator.ts:3-9 | every valid feedback is accepted as written |
| FeedbackValidator.FeedbackUpdateRoundTrip | src/feedback/validator.ts:11 | every valid update is accepted as written |
| FeedbackValidator.FullFeedbackIsValidUpdate | src/feedback/validator.ts:11 | an accepted full feedback is also an accepted update with every field sent |
| SessionValidator.ParseSession | src/session/validator.ts:3-14 | accepted exactly with all five keys and no other, each meeting its rule; ids positive, notes non-empty, date the ISO text of its instant |
| SessionValidator.ParseSessionUpdate | src/session/validator.ts:16-27 | accepted exactly when strict, non-empty and each present key meets its rule; the empty object is refused with the refinement's message; each field is present exactly when its key is sent, ids are the positive integers sent, notes the non-empty string sent, and the date the ISO text of the instant sent |
| SessionValidator.FullSessionIsValidUpdate | src/session/validator.ts:14-27 | an accepted full session is also an accepted update with every field sent |
| SessionValidator.NotesOnlyUpdate | src/session/validator.ts:20-27 | an update of the notes alone is accepted exactly when the notes are non-empty |
| MessagingValidator.DecodeMessageEncodes | src/messaging/messaging.validator.ts:11-18 | an object meeting the schema decodes to a valid message whose encoding is the object's schema keys |
| MessagingValidator.ParseMessage | src/messaging/messaging.validator.ts:11-18 | accepted exactly when sender, receiver and content are present and every schema key meets its rule; status defaults to Sent, is_read to false |
| MessagingValidator.MessageRoundTrip | src/messaging/messaging.validator.ts:11-18 | every valid message is accepted as written, status and flag omitted when they hold their defaults |
| MessagingValidator.ExtraKeyStripped | src/messaging/messaging.validator.ts:11 | a key outside the schema does not change the outcome |
| MessagingValidator.StatusEnumDiffersFromTable | src/messaging/messaging.validator.ts:3-7 | Delivered is accepted but not a message_status label, Deleted is a label but refused, and only Sent and Read are in both |
| AuthValidator.DecodeRegistrationEncodes | src/authentication/validator.ts:4-13 | an object meeting the schema decodes to a valid registration whose encoding is the object's schema keys |
| AuthValidator.ParseRegistration | src/authentication/validator.ts:4-13 | accepted exactly when name, email and password are present and every schema key meets its rule; role defaults to patient |
| AuthValidator.ParseLogin | src/authentication/validator.ts:15-18 | accepted exactly with an email of the right format and a password of at least four characters, which the output carries |
| AuthValidator.RegistrationRoundTrip | src/authentication/validator.ts:4-13 | every valid registration is accepted as written, the role omitted when patient |
| AuthValidator.LoginRoundTrip | src/authentication/validator.ts:15-18 | every valid login is accepted as written |
| AuthValidator.RegistrationGivesLogin | src/authentication/validator.ts:15-18 | a request that registers also logs in with the same email and password: both schemas ask the same of those keys |
| AuthValidator.RoleEnumMatchesTable | src/authentication/validator.ts:9 | the schema's roles are exactly the role column's, and the default patient is the column default |
| MpesaValidator.PhonePatternByCharacters | src/mpesa/validator.ts:6 | the four-way prefix alternation agrees with a reading of the number character by character |
| MpesaValidator.PhoneShape | src/mpesa/validator.ts:6 | an accepted number has 10 to 13 characters, all digits except a leading '+' |
| MpesaValidator.PhoneAcceptedExamples | src/mpesa/validator.ts:6 | numbers in the 07, 01, 254 and +254 forms are accepted |
| MpesaValidator.PhoneRejectedExamples | src/mpesa/validator.ts:6 | a 08 prefix, too few digits and a trailing letter are refused |
| MpesaValidator.DecodeStkPushEncodes | src/mpesa/validator.ts:10-16 | an object meeting the schema decodes to a valid request whose encoding is the object's schema keys |
| MpesaValidator.ParseStkPush | src/mpesa/validator.ts:10-16 | accepted exactly with a Kenyan phone, amount of at least 1, reference of 1-50 and description of 1-255 characters, positive booking id; description defaults to Payment |
| MpesaValidator.StkPushRoundTrip | src/mpesa/validator.ts:10-16 | every valid push request is accepted as written, the description omitted when it is Payment |
| MpesaValidator.AmountBelowOneRejected | src/mpesa/validator.ts:12 | an amount below 1 makes the request fail whatever else it holds |
| MpesaValidator.ParseItemValue | src/mpesa/validator.ts:29 | an item value is accepted exactly when it is a string or a number |
| MpesaValidator.ParseItem | src/mpesa/validator.ts:27-30 | an item needs a string Name; its Value is optional, and when present a string or number that the output carries |
| MpesaValidator.ParseItems | src/mpesa/validator.ts:26-31 | an item array is accepted exactly when every element is, keeping length and order |
| MpesaValidator.ParseMetadata | src/mpesa/validator.ts:25-32 | metadata is accepted exactly when its Item key is an array of valid items, and its items are those items parsed |
| MpesaValidator.ParseStkCallback | src/mpesa/validator.ts:20-33 | accepted exactly with string request ids and description, a numeric result code and optional valid metadata; the output carries the scalars as sent, and metadata exactly when sent, as ParseMetadata parses it |
| MpesaValidator.ParseCallback | src/mpesa/validator.ts:18-35 | accepted exactly when Body.stkCallback is an accepted callback |
| MpesaValidator.ItemRoundTrip | src/mpesa/validator.ts:27-30 | every item parses back from its encoding |
| MpesaValidator.ItemsRoundTrip | src/mpesa/validator.ts:26-31 | every item list parses back from its encoding |
| MpesaValidator.CallbackRoundTrip | src/mpesa/validator.ts:18-35 | every callback parses back from its encoding |
| MpesaValidator.CallbackRequiredKeys | src/mpesa/validator.ts:21-24 | a callback missing MerchantRequestID, CheckoutRequestID, ResultCode or ResultDesc is refused |
| MpesaService.FormatPhoneFixedPoints | src/mpesa/mpesa.service.ts:44-50 | a number is returned unchanged exactly when it starts neither with +254 nor with 0 |
| MpesaService.FormatPhoneIdempotent | src/mpesa/mpesa.service.ts:44-50 | formatting twice gives what formatting once gives |
| MpesaService.FormattedAcceptedPhone | src/mpesa/mpesa.service.ts:44-50 | every number the phone schema accepts is formatted into 254 followed by digits, 11 to 13 characters in all: for +254 and 254 the subscriber digits after the prefix, for 07 and 01 the 7 or 1 and the digits after it |
| MpesaService.StripSeparators | src/mpesa/mpesa.service.ts:40 | the result is no longer than the input and holds none of - : T . Z |
| MpesaService.StripKeepsOtherCharacters | src/mpesa/mpesa.service.ts:40 | every character other than - : T . Z occurs in the result exactly as often as in the input, and no separator occurs |
| MpesaService.Timestamp | src/mpesa/mpesa.service.ts:40 | the result has 14 characters, or fewer when fewer remain after the separators go |
| MpesaService.TimestampOfIsoInstant | src/mpesa/mpesa.service.ts:39-41 | for YYYY-MM-DDTHH:mm:ss.sssZ the timestamp is the 14 digits YYYYMMDDHHmmss |
| MpesaService.FirstNamed | src/mpesa/mpesa.service.ts:145-147 | the index found is the first item with the name; none found means no item has it |
| MpesaService.StatusFor | src/mpesa/mpesa.service.ts:159 | Completed exactly when ResultCode is 0, Failed otherwise, always a payment_status label |
| MpesaService.ReceiptChangeFor | src/mpesa/mpesa.service.ts:142-152 | the receipt is set from the first MpesaReceiptNumber item only for result 0 with metadata; null when the code is not 0, metadata is absent or no item has the name; left alone when that item has no Value |
| MpesaService.ApplyCallback | src/mpesa/mpesa.service.ts:155-162 | rows whose reference is the checkout id get the status, the receipt change and the update time; every other row and column is unchanged |
| MpesaService.ApplyCallbackIdempotent | src/mpesa/mpesa.service.ts:155-162 | applying the same callback twice leaves the table as applying it once |
| MpesaService.ApplyCallbackUnknownReference | src/mpesa/mpesa.service.ts:162 | a callback whose reference matches no row changes nothing |
| MpesaService.TransactionTable.ProcessCallback | src/mpesa/mpesa.service.ts:132-169 | no stkCallback answers false and changes nothing; otherwise the table becomes ApplyCallback of the derived status and receipt, statuses stay labels, and it answers true |
| ErrorHandler.Join | src/utils/errorHandler.ts:30 | joining no part gives the empty string and one part gives that part |
| ErrorHandler.Split | src/utils/errorHandler.ts:30 | splitting on '.' gives at least one part (the partner of the join) |
| ErrorHandler.SplitJoin | src/utils/errorHandler.ts:30 | splitting a joined path gives its parts back when no part holds a dot |
| ErrorHandler.DetailsFor | src/utils/errorHandler.ts:29-32 | one detail per issue, in order, with the issue's message and its path joined by '.' |
| ErrorHandler.DetailPathsSplit | src/utils/errorHandler.ts:29-32 | a detail's path splits back into its segments' texts when no key holds a dot |
| ErrorHandler.StatusFor | src/utils/errorHandler.ts:23-41 | 400 exactly for a zod error; 404, 401 and 409 exactly for the three names; 500 for any other Error and for non-errors |
| ErrorHandler.Fallback | src/utils/errorHandler.ts:20 | a given non-empty custom message is used, and the default message otherwise |
| ErrorHandler.ResponseFor | src/utils/errorHandler.ts:19-49 | a zod error gives "Validation error" and its details; an Error gives its message, no details, and its stack only in development; anything else gives the fallback message alone |
| ErrorHandler.HandleError | src/utils/errorHandler.ts:17-52 | status and body are those of StatusFor and ResponseFor; a stack appears only for an Error in development; details appear exactly for a zod error |
| ErrorHandler.NewNotFoundError | src/utils/errorHandler.ts:57-62 | the error is named NotFoundError and keeps its message |
| ErrorHandler.NewUnauthorizedError | src/utils/errorHandler.ts:64-69 | the error is named UnauthorizedError and keeps its message |
| ErrorHandler.NewConflictError | src/utils/errorHandler.ts:71-76 | the error is named ConflictError and keeps its message |
| ErrorHandler.NewValidationError | src/utils/errorHandler.ts:78-86 | the error is named ValidationError and keeps its message and its details |
| ErrorHandler.CustomErrorStatuses | src/utils/errorHandler.ts:35-41 | the three classes answer 404, 401 and 409; ValidationError answers 500 and its details do not reach the body |
| ErrorHandler.ErrorMessageWins | src/utils/errorHandler.ts:43 | for an Error, even one with an empty message, the body's error is its message and never the custom one |

## Left out

- The booking/slot claim, release and compensation protocol: the code has none, and the bookings service never touches `is_booked`.
- Controllers, routers, the application entry point and the validation middleware: HTTP plumbing with no rules of their own.
- The CRUD services for users, sessions, feedback, messaging, authentication, bookings and the older time-slot service: plain ORM calls.
- `initiateSTKPush`, `getAccessToken`, `generatePassword`, `getTransactionByReferenceCode` and `getAllTransactions`: network calls, base64 encoding, the clock and ORM reads with joins.
- bcrypt hashing and JWT signing: foreign libraries.
- zod's email syntax, offset date-time check, date coercion and `toISOString`: passed in as parameters, not interpreted.
- zod issue lists: a refused request is only `None`; the one message modelled is the session update refinement's.
- Concurrency: every operation is sequential; the store's isolation is not modelled.
- Explicit `undefined` values: an object key is either present with a value or absent.
- String lengths count characters, not UTF-16 code units.
- Dates are day numbers and instants are integers: no time zones and no calendar arithmetic.
- Serial ids: a batch refused by the primary key or the unique index has drawn one id for each row up to and including the first row refused (`TimeSlotStore.FirstRefused`), since the rows go in one at a time; those ids are not given back. A batch refused for an empty list or an invalid time draws none; whether the database has already drawn ids before it rejects a time value is not modelled.
- Query results come back in table order; SQL leaves that order unspecified, so the contracts speak of membership.
- Foreign keys (a slot's therapist must exist, a booked slot cannot be deleted) and varchar length limits: the model has no other tables.
- How a raw update body's JSON values become column values: the store takes a patch of typed columns, and the database's refusal of a wrongly typed value (a string id, say) is not modelled.
- Times with seconds, "24:00", or the other forms a `time` column reads ("8:00:00", "8am"): the store accepts H:MM and HH:MM with an hour below 24 and refuses others; the route validators refuse these too.
- TimeSlotStore.TimeSlotService.CreateTimeSlots: stored times are returned as HH:MM; the database returns them with seconds (HH:MM:SS).
- TimeSlotStore.TimeSlotService.CreateTimeSlots: an empty batch is modelled as the store's own refusal; the ORM throws before reaching the database.
- TimeSlotStore.TimeSlotService.UpdateTimeSlot: a patched id is a natural number; negative ids, which the column would take, are not modelled.
- MpesaValidator.ParseStkPush: the amount is a real number, not an IEEE double; rounding is not modelled.
- MpesaService.Timestamp: only years 0 to 9999 are covered by the lemma; `toISOString` writes other years with six digits and a sign.
- MpesaService.ReceiptChangeFor: a numeric receipt is converted to text by a parameter, not by JavaScript's number formatting.
- MpesaService.TransactionTable.ProcessCallback: a null payment status is not modelled, nor a failing database call (the `catch` branch).
- SessionValidator.ParseSessionUpdate: when both the schema and the refinement fail, only the schema failure is reported.
- TimeSlotStore.TimeSlotService.UpdateTimeSlot: the database's refusal of an empty update is modelled as its own error rather than as a thrown exception.
