# Salon booking core, modelled in Dafny

The salon site has three pieces of booking logic, and this project models them as pure Dafny functions with proofs about what they do:

* **The chat widget's booking conversation** (`script.js`).
  * `processUserMessage` dispatches on `bookingStep`: 0 service, 1 date, 2 time, 3 contact details, 4 confirmation.
  * Each handler either fills one field of `currentBooking` and moves on, or leaves everything as it was.
  * On "yes" the collected booking is written with status `pending`, and `resetBookingSystem` starts over, keeping only the stylist.
  * Around the handlers sit:
    * `parseTime`, two anchored regular expressions;
    * `isValidEmail` and `isValidPhone`;
    * the fixed catalog of services and weekly hourly templates;
    * `getAvailableTimesForDate`, which removes the template slots that a stored, non-cancelled booking of the same stylist holds on that date.
* **The admin dashboard's mirror of the bookings** (`admin.js`):
  * the replication subscription's upsert by id;
  * `updateBookingStatus`;
  * the pending count;
  * the "recent bookings" panel, which shows the five most recently created bookings;
  * the in-place sort of the all-bookings table;
  * which confirm/cancel actions the cards and the booking modal enable.
* **`extractTime`** (`chatbot.js`): an unanchored, case-insensitive regular expression that finds a time anywhere in a message, converts am/pm and zero-pads the result.

Modules, one per concern:

| module | file | what it holds |
|---|---|---|
| `Base` | base.dfy | `Option` (null or a value) and `Try` (a value or a thrown exception) |
| `Records` | records.dfy | the booking record |
| `Text` | text.dfy | JavaScript's white space and digit classes, ASCII lowercasing, `trim`, `includes`, decimal digits and `padStart(2, '0')` |
| `TimeParse` | time_parse.dfy | `parseTime` |
| `Contact` | contact.dfy | `isValidEmail`, `isValidPhone` |
| `Catalog` | catalog.dfy | services, weekly templates, `getAvailableTimesForDate` |
| `Chat` | chat.dfy | the step machine: handlers, `processUserMessage`, `sendUserMessage`, `selectStylist` |
| `ChatRun` | chat_run.dfy | whole visits: messages, stylist clicks and `closeChat` in any order |
| `Mirror` | mirror.dfy | the dashboard's `bookings` array: upsert, `updateBookingStatus`, pending count |
| `Recent` | recent.dfy | the created-descending sort and the top five |
| `Actions` | actions.dfy | the card and modal action rules |
| `ExtractTime` | extract_time.dfy | `extractTime` |

Each regular expression is modelled in two parts. The first is the language it denotes: a record of the pieces a match is made of, and the text those pieces spell. The second is a deterministic matcher. Soundness lemmas (whatever the matcher accepts is spelled by well-formed pieces) and completeness lemmas (every well-formed spelling is accepted, split into the same pieces) together show that the matcher accepts exactly that language.

Inputs the handlers read from outside are parameters of `Chat.Env`:

* `parseDate` stands for `new Date(text)` with its weekday name and ISO date, and is `None` for an invalid date.
* `stored` stands for the bookings in the local store.
* `freshId` stands for `generateBookingId()`.
* `now` stands for the timestamp.
* `saveFails` says whether `saveBooking` throws. It throws when the GunDB write throws and then the local-storage fallback throws too. `handleConfirmation` catches it, and the booking is neither saved nor reset.

The conversation's step function returns the next state, the record handed to the store (if any), and whether the handler ended in an uncaught exception. That is a `TypeError` from reading the week of a stylist the catalog does not know, or a `RangeError` from `toISOString` on a stored date that does not parse.

### Replication and conflicts

* **Upsert.** The subscription callback replaces the entry unconditionally (admin.js:30). No `updatedAt` comparison is made, so the last delivery wins. Two mirrors that receive the same two updates in different orders therefore differ (`Mirror.LastDeliveryWins`, `Mirror.DeliveryOrderMatters`).
* **Conflicts.** A conflict is an exact start-time match: `getAvailableTimesForDate` compares date, start time and stylist for equality (script.js:969-974). A two-hour colour treatment at 17:00 leaves the 18:00 slot free (`Catalog.ExactMatchOnly`).

### Behaviour of the code worth knowing

* **`bookingStep` stays within 0..4.** The `default` branch of the switch never runs (`Chat.StepDiscipline`).
* **`closeChat` does not restart the booking.** It resets an unrelated `bookingState` object, so the conversation goes on where it was (`ChatRun.CloseResumes`).
* **`selectStylist` sets only the stylist.** A card clicked after the time was chosen changes the stylist of the saved booking. The time saved was checked against the previous stylist's bookings (`ChatRun.SwitchAfterTimeChosen`).
* **The two time parsers disagree on three digits.** The anchored `parseTime` backtracks, so "930" gives "09:30". The unanchored `extractTime` stops after the greedy hours, so "930" gives "93:00" (`ExtractTime.ParsersDisagreeOnThreeDigits`).
* **Neither parser range-checks its result.** "10:75" and "99:99" come out as written.
* **Step 2 checks a time against a list recomputed from the stored date.** That list is not the one shown at step 1. The stored ISO date (script.js:829) is read back with `new Date` (script.js:845). A date-only ISO text reads as midnight UTC, but the weekday is taken in local time (script.js:961). West of UTC, a Saturday picked at step 1 is re-read as a Friday, so a listed "09:00" is refused and an unlisted "17:00" is accepted (`Chat.WeekdayReread`). East of UTC, the ISO date recorded is already the day before.
* **The booking modal can go stale.** `openBookingModal` keeps the booking object it was opened with (admin.js:253-254), and the subscription handler (admin.js:24-34) redraws the stats, grid and recent list but not an open modal. If another dashboard confirms the booking meanwhile, the modal still offers Confirm and Cancel. Cancel then turns "confirmed" into "cancelled", and the pending count does not change (`Actions.StaleModalAction`).
* **A failed save keeps the booking.** If `saveBooking` throws, the widget apologises and stays at step 4 with the draft intact, so "yes" can be sent again (`Chat.Confirmation`).

## Model

| member | source | states |
|---|---|---|
| Chat.FirstMentioned | script.js:803-806 | The chosen service is the first catalog entry, in declaration order, whose key or lowercased name occurs in the message. There is none exactly when no entry occurs. |
| Chat.ServiceStep | script.js:802-819 | Step 0 moves to step 1 exactly when a service is mentioned, and records that service's key. With no match, nothing changes and nothing throws. The date list built afterwards throws for an unknown stylist, after the state has changed. Nothing is emitted. |
| Chat.DateStep | script.js:821-839 | Step 1 moves to step 2 exactly when the date parses and the stylist's list of free slots for it is non-empty. It then records the ISO date. Otherwise the state is unchanged. |
| Chat.TimeStep | script.js:841-858 | Step 2 moves to step 3 exactly when `parseTime` succeeds and its result is among the slots free at that moment for the stored date and current stylist. It then records that time. Otherwise the state is unchanged. |
| Chat.ContactOrder | script.js:860-894 | Name, email and phone are filled in that order, each only once the earlier fields are set. An awaited name is recorded, whatever the message. An awaited email that passes its pattern is recorded. Reaching step 4 records the phone. An email failing its pattern while the email is awaited changes nothing, and neither does a phone failing its pattern while the phone is awaited. Stylist, service, date and time are never touched. The step stays 3 or becomes 4, and it becomes 4 exactly when the phone is accepted. |
| Chat.Confirmation | script.js:896-928 | "yes" with a save that does not throw emits exactly one record: the collected fields, the fresh id, status "pending" and the timestamp, all fields set and valid. It then resets, as "no" does: the stylist is kept, every other field is cleared, and the step returns to 0. "yes" with a save that throws is caught: nothing is emitted or reset, and nothing escapes. Any other reply changes nothing. |
| Chat.ProcessPreservesWf | script.js:778-800 | Every message keeps the conversation reachable: step 0..4, the fields filled are exactly those of the steps passed, and each holds an accepted value. |
| Chat.StepDiscipline | script.js:778-800 | The step stays in 0..4 and moves only by: staying put; advancing by one while filling exactly the field it leaves; filling one contact field at step 3; or resetting to 0 from step 4. |
| Chat.DispatchEmits | script.js:778-800 | A record is handed to the store exactly at step 4 on "yes", when the save does not throw. It carries the fresh id and is a valid pending booking. |
| Chat.Reset | script.js:1053-1064 | Resetting gives the page's starting draft with the chosen stylist kept. At step 0 that state is reachable whatever the draft held before. |
| Chat.TypingOfferedSlotAdvances | script.js:841-849 | Typing, exactly as written, a slot of the list recomputed for the stored date moves step 2 on with that time. |
| Chat.WeekdayReread | script.js:825-849 | When the stored ISO date reads back as Friday after the user picked a Saturday, a Saturday-only slot that was listed is refused at step 2. A Friday-only slot that was not listed is accepted. |
| Chat.SlotIsClockText | script.js:727-740 | Every template slot is written as two digits, a colon and two digits. |
| ChatRun.SelectKeepsWf | script.js:128-145 | Clicking a stylist card sets the lowercased card name as the stylist. Step and every other field stay as they were. |
| ChatRun.CloseResumes | script.js:575-600 | Closing the chat does not change the booking conversation: later events behave as if it had not happened. |
| ChatRun.RunKeepsWf | script.js:691-697 | From any reachable state, any sequence of messages, card clicks and closes keeps the state reachable. Every record handed to the store is a pending booking of a catalog service at a template slot, with a non-empty name, a valid email and a valid phone. |
| ChatRun.FromInitial | script.js:765-774 | The page's starting state is reachable, so every visit from page load keeps those guarantees. |
| ChatRun.SwitchAfterTimeChosen | script.js:143-144 | A stylist picked at step 4 is the stylist of the record saved on "yes", with the time chosen earlier. When the save throws, nothing is saved. |
| Catalog.Template | script.js:960-962 | Reading the weekly template throws exactly when the stylist is not in the catalog. A known stylist's list is empty exactly on Sunday and Monday. |
| Catalog.FreeSlots | script.js:968-975 | The result keeps the template's order, and a slot is in it exactly when no stored booking with that date, time and stylist and a status other than "cancelled" exists. |
| Catalog.AvailableTimes | script.js:960-976 | `getAvailableTimesForDate` throws exactly for an unknown stylist. Otherwise it returns, in template order, exactly the weekday's slots that no non-cancelled booking of that stylist holds on that date. |
| Catalog.CancelledNeverBlocks | script.js:969-974 | Storing a cancelled booking leaves every availability list unchanged. |
| Catalog.BookingOnlyRemoves | script.js:968-975 | Storing one more booking can only remove slots, and what is left keeps its order. |
| Catalog.ExactMatchOnly | script.js:969-974 | Conflicts are exact start-time matches: a two-hour booking at 17:00 blocks 17:00 but leaves 18:00 free. |
| Catalog.ClosedDays | script.js:727-740 | On Sunday and Monday nothing is offered, whatever is stored. |
| Catalog.OffersAreSlots | script.js:960-976 | Every time offered is a slot of the weekly template. |
| TimeParse.MatchFirstSound | script.js:989 | What the matcher for the first pattern accepts is spelled by hours, an optional colon, optional minutes, white space and an optional period, each as the pattern allows. |
| TimeParse.MatchFirstComplete | script.js:989 | Every string the first pattern describes is accepted, and split back into the pieces it was built from, so the pattern is unambiguous. |
| TimeParse.SecondPatternSubsumed | script.js:988-990 | Whatever the second pattern accepts, the first already accepts, as the same hours, white space and period. |
| TimeParse.FirstPatternDecides | script.js:993-1008 | `parseTime` fails exactly when the first pattern rejects the lowercased, trimmed input, and otherwise renders the first pattern's groups. The second pattern never decides. |
| TimeParse.ParseTimeMeaning | script.js:983-1009 | On success the result is two digits spelling the 24-hour value of the matched hours, a colon, and the matched minute digits or "00". Nothing is range-checked. |
| TimeParse.To24Cases | script.js:999-1001 | "pm" adds 12 to every hour below 12, so "0pm" gives 12, and leaves hours of 12 and above unchanged ("13pm" stays 13). "12am" gives 0, and "am" changes no other hour. Without a period the hours are unchanged. |
| TimeParse.ClockRoundTrip | script.js:983-1009 | Any "HH:MM" text parses to itself. |
| Contact.EmailSound | script.js:1011-1013 | An accepted address is a non-empty local part, '@', a host, '.' and a top-level part. None of the pieces contains white space or '@'. |
| Contact.EmailComplete | script.js:1011-1013 | Every address built from such pieces is accepted. |
| Contact.EmailHasOneAt | script.js:1012 | An accepted address contains no white space and exactly one '@'. |
| Contact.PhoneSound | script.js:1015-1017 | An accepted phone number is spelled by: an optional '(', three digits, an optional ')', an optional separator, three digits, an optional separator and four digits. |
| Contact.PhoneComplete | script.js:1015-1017 | Every text of that shape is accepted, split into the same pieces. |
| Contact.PhoneHasTenDigits | script.js:1016 | An accepted phone number holds exactly ten digits, grouped 3-3-4, and is 10 to 14 characters long. |
| Mirror.FindIndex | admin.js:26 | The position of the first entry with the id, or -1 exactly when there is none. |
| Mirror.UpsertBounded | admin.js:24-31 | The length grows by at most one, and by one exactly when the id is new. The record ends up in the mirror. Entries with other ids keep their values and positions. |
| Mirror.UpsertPlacesRecord | admin.js:28-31 | With unique ids, the entry carrying the record's id afterwards is the record itself. |
| Mirror.UpsertKeepsUnique | admin.js:26-31 | The upsert keeps ids unique, whatever record (or none) arrives. |
| Mirror.UpsertAllKeepsUnique | admin.js:24-31 | Any sequence of deliveries keeps ids unique. |
| Mirror.UpsertIdempotent | admin.js:26-31 | Delivering the same record twice gives the same mirror as delivering it once. |
| Mirror.LastDeliveryWins | admin.js:30 | Two deliveries for one id leave the mirror as if only the second had arrived. No `updatedAt` comparison is made. |
| Mirror.DeliveryOrderMatters | admin.js:26-31 | Two different records with the same id, delivered in opposite orders, leave different mirrors. |
| Mirror.UpdateOnlyTouchesTarget | admin.js:139-144 | With an unknown id nothing changes and nothing is published. Otherwise only the first entry with that id changes, and only its status and `updatedAt`. The published record is that entry, and the length is unchanged. |
| Mirror.EchoIsNoOp | admin.js:139-143 | The record `updateBookingStatus` publishes, when replicated back to the subscription, leaves the mirror as it is. |
| Mirror.UpdateKeepsUnique | admin.js:139-144 | A status update keeps ids unique. |
| Mirror.PendingCountIsIndexCount | admin.js:69 | The pending count equals the number of positions whose status is exactly "pending". |
| Mirror.PendingAfterUpdate | admin.js:139-145 | Changing an entry's status from pending to something else lowers the count by one. Changing it to pending raises it by one. Otherwise the count stays. |
| Recent.SortByCreatedCorrect | admin.js:205 | The table's sort is a permutation of the mirror, ordered by `created`, later first. |
| Recent.SortIsStable | admin.js:205 | The sort is stable: for every instant, the entries created then keep the order they had in the mirror, as `Array.prototype.sort` guarantees. |
| Recent.RecentCorrect | admin.js:122-124 | The panel shows min(5, n) mirror entries, later first, and nothing it leaves out was created later than anything it shows. |
| Recent.RenderAllKeepsRecent | admin.js:311-313 | After the all-bookings table has sorted the mirror in place, the panel shows the same list as before. |
| Actions.ClickThenDisabled | admin.js:104-112 | After a click on "confirm" (or "cancel") the redrawn card has that button disabled and the other one enabled, and a second click on it leaves the mirror as it is. |
| Actions.EnabledIffEffective | admin.js:104-112 | A card button is enabled exactly when using it would change the booking's status: "confirm" exactly when the booking is not already confirmed, "cancel" exactly when it is not already cancelled. |
| Actions.ModalImpliesCard | admin.js:270-280 | A card never has both buttons disabled. The modal offers confirm and cancel only for pending bookings, whose cards have both buttons enabled. Statuses outside pending, confirmed and cancelled get both card buttons but no modal actions. |
| Actions.ModalActionLeavesPending | admin.js:270-297 | Confirming or cancelling from the modal lowers the pending count by one when the booking is still pending in the mirror, and the modal then offers no actions for that booking. |
| Actions.StaleModalAction | admin.js:250-297 | A modal opened on a booking that the mirror no longer holds as pending still offers both actions. Using one overwrites the mirror's status, so a confirmed booking can be cancelled, and the pending count stays the same. |
| ExtractTime.NullIffNoDigit | chatbot.js:49-51 | `extractTime` returns null exactly when the message contains no digit. |
| ExtractTime.MatchStartsAtFirstDigit | chatbot.js:49-50 | The match starts at the first digit of the message. |
| ExtractTime.MatchAtDigits | chatbot.js:49 | The hours take two digits exactly when a second digit follows. A colon is taken exactly when it follows the hours. Minutes are taken exactly when two digits follow, after the colon if there is one. |
| ExtractTime.MatchAtPeriod | chatbot.js:49 | After the digits the whole run of white space is skipped. The period is "am" or "pm" in any letter case, read right after that run. |
| ExtractTime.ExtractTimeMeaning | chatbot.js:53-60 | The result is two digits spelling the converted hours, a colon, and the matched minute digits or "00". Nothing is range-checked. |
| ExtractTime.ExtractIgnoresCase | chatbot.js:49-55 | Two messages that differ only in letter case give the same result. |
| ExtractTime.ExtractOfLower | chatbot.js:55 | Lowercasing the message first changes nothing. |
| ExtractTime.FindsClockText | chatbot.js:48-61 | An "HH:MM" time after text without digits is returned exactly as written. |
| ExtractTime.ThreeDigitsReadAsHours | chatbot.js:49-54 | Three digits read as two-digit hours and minutes "00"; the third digit is ignored. |
| ExtractTime.ParsersDisagreeOnThreeDigits | chatbot.js:48-61 | On three digits, `extractTime` gives "AB:00" and `parseTime` gives "0A:BC". The two differ unless the first digit is 0. |
| Text.Trim | script.js:985 | `trim` removes exactly the leading white space run and a white space suffix. Neither end of the result is white space. |

## Left out

- The page itself is left out, because it has no logic beyond what is modelled. This covers the DOM, rendering, notifications, typing delays, the chat's welcome and general-inquiry messages, and the admin page's panels.
- Persistence and replication (GunDB and the `localStorage` fallback) are left out. Stored bookings are an input to the chat, and a save is the record the step function emits. Convergence between replicas is concurrency and is not modelled beyond one mirror's upsert.
- `parseDate`, `toLocaleDateString`, `toISOString` and `getNextWeekDates` depend on the browser's clock and time zone. They are the `parseDate` parameter. The same parser reads both the typed date and the stored ISO date.
- `generateBookingId` and the timestamps depend on `Date.now` and `Math.random`. They are the `freshId` and `now` parameters. One `now` stands for both `created` and `updatedAt`, and timestamps are integers, not ISO strings.
- Stylist names that hit `Object.prototype` properties (for example "constructor") are modelled as throwing. The catalog is only read for "natasha" and "justina".
- The appointment grid's sort by `new Date(a.time)` (admin.js:85), the "today" count, calendar navigation and date formatting are left out. They need wall-clock dates.
- appointment.js, stylist.js and client.js are database queries and schemas and are not part of this model. The rest of chatbot.js (classifier, date extraction, server routes) is not part of it either.
- Text.Lower: lowercasing is ASCII only. A few non-ASCII characters do lowercase to ASCII letters: U+212A (the Kelvin sign) gives "k", and U+0130 gives "i" followed by U+0307. No such character can produce a match of a service key or name, "yes" or "no", "am" or "pm", a digit or white space, so the handlers' decisions are unaffected.
- Contact.EmailComplete: proves that every address of the pattern's shape is accepted. `Contact.EmailSound` states the other direction separately.
- Chat.MatchService: carries no contract of its own. It is `Chat.FirstMentioned` applied to the salon's catalog, and that member states the property.
