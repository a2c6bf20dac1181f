# Volunteer event booking: a Dafny model

This project models the booking logic of a volunteer-events web application. The logic exists in two independent versions, and the model keeps them apart.

**Server side.** Four Cloud Functions, modelled in `CloudFunctions` and `Sanitizer`:
- `processEventBooking`;
- `cancelEventBooking`;
- `processDonation`;
- the scheduled `cleanupPastEvents`.

They work over an abstract document store `Db`, which holds maps of events, bookings, user profiles and donations. Each Firestore transaction is one atomic step. Its callback either refuses with an `HttpsError` kind, or returns a list of writes. The writes are committed all together or not at all. The string sanitiser `sanitizeInput` is modelled on its own in `Sanitizer`.

**Client side.** Three Pinia stores, each a `class` whose fields are the in-memory lists it updates in place:
- `BookingStore`. Its `bookEvent` checks in a different order from the server. It adds a time-conflict check, and it has no "active" or "already started" check.
- `ResourcesStore`: articles and their ratings, with the published-content getters and the rating upsert.
- `UserStore`: the signed-in user and their profile, the role derived from the profile, and the first/last name split.

The getters and derivations are functions. The actions are methods, proved against those functions. Every remote write an action makes (`addDoc`, `updateDoc`, `deleteDoc`) is taken to succeed. Its only trace in the model is the id it returns, which is passed in as a parameter (`newId`).

Shared pieces:
- `Common`: JavaScript values as far as the code inspects them, truthiness, `||`, and object spread over records.
- `Seqs`: `filter`, `findIndex` and `find` over sequences.

Timestamps are integers, and "now" is a parameter.

## Model

| member | source | states |
|---|---|---|
| Sanitizer.TrimStart | functions/index.js:25 | the result is the suffix left after a run of leading whitespace/line terminators, does not start with one, and has only characters of the input |
| Sanitizer.TrimEnd | functions/index.js:25 | the result is the prefix left after a run of trailing whitespace/line terminators, does not end with one, and has only characters of the input |
| Sanitizer.SliceFromStart | functions/index.js:26 | `slice(0, n)` is a prefix of length `min(n, len)` for `n >= 0`, and `max(len + n, 0)` for negative `n` |
| Sanitizer.SanitizeInput | functions/index.js:22-29 | `''` for a non-string; otherwise at most `maxLength` characters (when it is non-negative), none of them `<`, `>`, U+0000-U+001F or U+007F, all taken from the input |
| Sanitizer.SanitizedChars | functions/index.js:24-28 | the trim-slice-replace chain respects the length bound, removes every forbidden character, and introduces no character |
| Sanitizer.TrimChars | functions/index.js:25 | every character of the trimmed string occurs in the input |
| Sanitizer.CleanInputUnchanged | functions/index.js:22-29 | a string with no surrounding whitespace, no forbidden character and within the length is returned unchanged |
| CloudFunctions.AuthenticationFirst | functions/index.js:37-41 | all three callable functions check the caller first, with the same test at lines 134-138 and 197-201: a request without `request.auth` or with an empty uid is refused as unauthenticated and changes nothing, and no other request is refused as unauthenticated |
| CloudFunctions.IdArgumentsChecked | functions/index.js:43-45 | for an authenticated caller, a booking is refused as invalid-argument exactly when the event id is missing, empty or not a string; such a booking id makes the cancellation fail as internal, with the store unchanged |
| CloudFunctions.BookingCallback | functions/index.js:50-115 | the transaction callback refuses only with not-found, failed-precondition, resource-exhausted or already-exists. It succeeds exactly when the event exists, is bookable and the caller holds no confirmed booking for it, and then returns the new id and the event title |
| CloudFunctions.ProcessEventBooking | functions/index.js:35-126 | any refusal leaves the store unchanged, and a success returns the generated booking id; the full outcome is in BookingRejections, BookingAccepted and BookingWrites |
| CloudFunctions.BookingRejections | functions/index.js:35-125 | each error kind of `processEventBooking` is returned exactly when every earlier check passed and its own failed, in this order: unauthenticated, invalid-argument, not-found, inactive, no spots, already started, already booked (confirmed only). A store failure gives internal, and every refusal leaves the store unchanged |
| CloudFunctions.BookedCommit | functions/index.js:104-112 | the booking `set` and the event `update` always commit together once the event has been read |
| CloudFunctions.BookingWrites | functions/index.js:90-114 | a successful booking writes one booking and changes only that booking and the event's two counters. The booking is confirmed, belongs to the caller, and carries the event id, the event title, start and end, and `sanitizeInput(userNotes \|\| '', 500)`. The counters change by +1 booked and -1 available, availability stays `>= 0`, and booked + available is unchanged |
| CloudFunctions.CancellationOutcomes | functions/index.js:132-188 | the error kinds of `cancelEventBooking`, each as an if-and-only-if, in order: unauthenticated, not-found, permission-denied (neither the owner nor an admin), failed-precondition (already cancelled), internal (bad id, store failure, or the booking's event is missing). On success the booking becomes cancelled and its event gets -1 booked and +1 available; nothing else changes |
| CloudFunctions.CancellationCallback | functions/index.js:143-178 | the transaction callback refuses only with not-found, permission-denied or failed-precondition. It succeeds exactly when the booking exists, the caller owns it or is an admin, and it is not yet cancelled |
| CloudFunctions.CancelEventBooking | functions/index.js:132-189 | any refusal leaves the store unchanged; a success needs an authenticated caller and an existing booking id. The full outcome is in CancellationOutcomes |
| CloudFunctions.CancelJustBooked | functions/index.js:166-177 | the owner can cancel a confirmed booking that was just written together with its seat; afterwards the events are as before and only the cancelled booking remains |
| CloudFunctions.BookThenCancelRestoresSeats | functions/index.js:104-112 | booking and then cancelling that booking as the same caller leaves every event exactly as before the booking |
| CloudFunctions.BookingAccepted | functions/index.js:39-83 | a booking succeeds exactly when the request is well formed and the event exists, is active, has a spot, has not started, and the caller holds no confirmed booking for it |
| CloudFunctions.CancelAddsNoConfirmed | functions/index.js:166-169 | setting a booking to cancelled creates no confirmed booking |
| CloudFunctions.RebookAfterCancel | functions/index.js:73-83 | only a confirmed booking blocks: after booking and cancelling, the same user can book the same event again, and the first booking stays cancelled |
| CloudFunctions.ValidBounds | functions/index.js:64-66 | under the store invariant, `0 <= spotsAvailable <= spotsTotal` |
| CloudFunctions.ConfirmedForAfterSet | functions/index.js:104-105 | writing one booking document adds its id to its event's confirmed set when it is confirmed, and removes the id otherwise |
| CloudFunctions.SeatTakenAccounts | functions/index.js:104-112 | after a confirmed booking with a new id is written, the booked event (which had a spot) takes one seat and still matches its confirmed bookings; other events are unaffected |
| CloudFunctions.NewConfirmedKeepsOnePerUser | functions/index.js:73-105 | a confirmed booking by a user holding none for the event keeps one confirmed booking per user and event |
| CloudFunctions.SeatTakenKeepsValid | functions/index.js:104-112 | adding a confirmed booking (for an event with a spot, by a user without one) and taking a seat keeps the invariant |
| CloudFunctions.BookingKeepsValid | functions/index.js:35-125 | `processEventBooking` with a new booking id keeps the invariant: counters match confirmed bookings and capacity, and no user holds two confirmed bookings for one event |
| CloudFunctions.SeatReleasedKeepsValid | functions/index.js:166-177 | cancelling a confirmed booking and releasing its seat keeps the invariant |
| CloudFunctions.CancellationKeepsValid | functions/index.js:132-188 | `cancelEventBooking` keeps the invariant |
| CloudFunctions.DonationOutcomes | functions/index.js:195-235 | unauthenticated is checked first. Next, invalid-argument is returned exactly when the amount is not a number from 1 to 100000. A recorded donation is the only write; it is `completed` and carries the caller, the amount and the sanitised message |
| CloudFunctions.ProcessDonation | functions/index.js:195-236 | a donation never touches events, bookings or profiles; a refusal changes nothing, and a success returns the new donation's id, which is then recorded |
| CloudFunctions.DonationKeepsValid | functions/index.js:195-235 | a donation touches neither events nor bookings, so it keeps the invariant |
| CloudFunctions.CleanupPastEvents | functions/index.js:242-274 | exactly the active events with `end < now` get `isActive = false`. Every other event and collection is unchanged, the count returned is the number deactivated, and the invariant is kept |
| BookingStore.AvailableEvents | src/stores/bookingStore.js:26-30 | exactly the active events with a spot left that start after now |
| BookingStore.UserBookings | src/stores/bookingStore.js:32-36 | exactly the signed-in user's bookings, and none without a user |
| BookingStore.EventIndex | src/stores/bookingStore.js:216 | the first index whose event has the id, or none when no event has it |
| BookingStore.EventById | src/stores/bookingStore.js:157 | `find` by id returns an element of the list with that id, none exactly when no event has it, and always the element at the index `findIndex` gives, so the two lookups of an action agree |
| BookingStore.BookingIndex | src/stores/bookingStore.js:262 | the first index whose booking has the id, or none when no booking has it |
| BookingStore.TimesConflict | src/stores/bookingStore.js:169-173 | the three-clause test flags every pair of intervals that share an instant |
| BookingStore.ConflictIsHalfOpenOverlap | src/stores/bookingStore.js:169-173 | for non-empty intervals the three-clause test is exactly `s1 < e2 && s2 < e1`, so back-to-back intervals do not conflict |
| BookingStore.EmptyIntervalConflicts | src/stores/bookingStore.js:169-173 | for a zero-length event the test and half-open overlap differ: `[5,5)` conflicts with `[5,10)` |
| BookingStore.FindConflictIsOverlap | src/stores/bookingStore.js:163-178 | with well-formed times, a conflict is found exactly when the user holds a confirmed booking whose event is in the list and overlaps the candidate |
| BookingStore.WithoutEvent | src/stores/bookingStore.js:308 | keeps exactly the events with another id |
| BookingStore.WithoutBooking | src/stores/bookingStore.js:344 | keeps exactly the bookings with another id |
| BookingStore.ReleaseSeat | src/stores/bookingStore.js:254-258 | releasing a seat keeps total = booked + available, keeps the length, and changes no event with another id; the event with the id gets -1 booked and +1 available |
| BookingStore.Capacity | src/stores/bookingStore.js:111-113 | an event never gets capacity 0: a missing or non-negative total gives a positive capacity, 10 when it is absent or 0, and a non-zero total is kept |
| BookingStore.NewEventAsWritten | src/stores/bookingStore.js:119-127 | the local event as written has 0 booked and the defaulted number available, and its counters are consistent exactly when a non-zero total is given |
| BookingStore.NewEventAsWrittenBreaksCounters | src/stores/bookingStore.js:119-128 | as written, a local event created without a total (or with 0) has a total that disagrees with its counters |
| BookingStore.NewEvent | src/stores/bookingStore.js:105-130 | the new event has the given title and times, the defaulted total, 0 booked, every spot available, and is active; its counters are consistent |
| BookingStore.SeatTakenKeepsConsistent | src/stores/bookingStore.js:216-220 | taking a seat keeps total = booked + available |
| BookingStore.Updated | src/stores/bookingStore.js:283-286 | an update that sets none of the counters keeps them, and keeps them consistent; an empty update changes nothing |
| BookingStore.BookingStore.constructor | src/stores/bookingStore.js:20-21 | both lists start empty |
| BookingStore.BookingStore.CreateEvent | src/stores/bookingStore.js:105-135 | appends exactly the new event and returns its id; bookings are unchanged |
| BookingStore.BookingStore.BookEvent | src/stores/bookingStore.js:137-227 | each refusal is returned exactly when the earlier checks passed and its own failed, in this order: not logged in, already booked (confirmed), event missing or no spot, conflicting booking. No other refusal is possible, so a booking that passes every check succeeds. A refusal changes nothing. Success appends exactly one confirmed booking copying the event, and applies +1 booked and -1 available (staying `>= 0`) to that event only; the counters stay consistent |
| BookingStore.BookingStore.TakeLocalSeat | src/stores/bookingStore.js:216-220 | one spot of the event at the index moves from available to booked |
| BookingStore.BookingStore.ReleaseLocalSeat | src/stores/bookingStore.js:244-259 | the local seat release: the event, if present, gets one spot back |
| BookingStore.BookingStore.CancelBooking | src/stores/bookingStore.js:229-271 | an unknown id is refused and changes nothing, and it is the only refusal. Otherwise the booking becomes cancelled and its event, if present, gets a seat back. The prior status is not checked |
| BookingStore.BookingStore.UpdateEvent | src/stores/bookingStore.js:273-293 | merges the updates into the first event with the id only; bookings are unchanged, and an update that sets no counter keeps the counters consistent |
| BookingStore.BookingStore.DeleteEvent | src/stores/bookingStore.js:295-313 | refused, with that error only, exactly when a confirmed booking references the event. Otherwise exactly the events with that id are removed |
| BookingStore.BookingStore.DeleteBooking | src/stores/bookingStore.js:315-349 | an unknown id is refused, and it is the only refusal. Otherwise the bookings with that id are removed, and the event gets a seat back only if the booking was confirmed |
| ResourcesStore.PublishedArticles | src/stores/resourcesStore.js:36 | exactly the articles whose `published` is truthy |
| ResourcesStore.PublishedOfType | src/stores/resourcesStore.js:24-34 | exactly the published articles of the type, all among the published articles |
| ResourcesStore.TypesDisjoint | src/stores/resourcesStore.js:24-34 | no article is listed under two types |
| ResourcesStore.NewsArticles | src/stores/resourcesStore.js:24-26 | exactly the published articles of type news |
| ResourcesStore.BlogPosts | src/stores/resourcesStore.js:28-30 | exactly the published articles of type blog |
| ResourcesStore.MediaItems | src/stores/resourcesStore.js:32-34 | exactly the published articles of type media |
| ResourcesStore.RatingsFor | src/stores/resourcesStore.js:167 | exactly the ratings of the article |
| ResourcesStore.Sum | src/stores/resourcesStore.js:170 | the `reduce` of non-negative ratings is non-negative; its bounds are SumBounds |
| ResourcesStore.SumBounds | src/stores/resourcesStore.js:170 | ratings between lo and hi sum to between lo and hi times their number |
| ResourcesStore.ArticleRating | src/stores/resourcesStore.js:166-175 | count is the number of the article's ratings and sum their total. With no rating the summary is all zero; otherwise the average is their mean |
| ResourcesStore.Mean | src/stores/resourcesStore.js:172 | the mean taken `count` times gives the sum |
| ResourcesStore.MeanBounds | src/stores/resourcesStore.js:172 | a mean of values between lo and hi lies between lo and hi |
| ResourcesStore.ArticleSumBounds | src/stores/resourcesStore.js:167-170 | the article's rating sum lies between lo and hi times its count |
| ResourcesStore.AverageWithinBounds | src/stores/resourcesStore.js:166-175 | when every rating of the article lies between lo and hi, so does its average |
| ResourcesStore.UserRatingIndex | src/stores/resourcesStore.js:178 | the first index holding a rating by the user of the article, or none when there is no such rating |
| ResourcesStore.GetUserRating | src/stores/resourcesStore.js:177-179 | the first rating in the list by that user of that article, or none exactly when there is no such rating |
| ResourcesStore.RatingIndex | src/stores/resourcesStore.js:197 | the first index holding the id, or none when no rating has it |
| ResourcesStore.Upserted | src/stores/resourcesStore.js:186-219 | with no rating by the user, exactly one new rating is appended; otherwise the length is unchanged |
| ResourcesStore.UpsertReplacesFound | src/stores/resourcesStore.js:187-200 | with unique ids, the upsert changes only the value of the rating `getUserRating` found |
| ResourcesStore.GetAfterUpsert | src/stores/resourcesStore.js:186-219 | with unique ids, reading back after the upsert gives the new value: the appended rating, or the found rating with the new value and its old id |
| ResourcesStore.UpsertKeepsUniquePairs | src/stores/resourcesStore.js:186-219 | the upsert keeps at most one rating per (article, user) |
| ResourcesStore.UpsertKeepsUniqueIds | src/stores/resourcesStore.js:201-219 | with unique ids and an id not yet used, ids stay unique |
| ResourcesStore.UpsertCounts | src/stores/resourcesStore.js:181-224 | with unique ids, the article's count grows by one for a first rating and is unchanged for a re-rating; other articles' summaries are unchanged |
| ResourcesStore.StoredArticle | src/stores/resourcesStore.js:89-94 | the stored document's `published` is always truthy or `false`, and truthy exactly when the data's is |
| ResourcesStore.NewArticle | src/stores/resourcesStore.js:96-101 | the local article has the new id (unless the data sets one), every supplied field, and the creation stamps |
| ResourcesStore.NewArticleAgreesOnPublished | src/stores/resourcesStore.js:89-101 | the local article is published exactly when the stored document is; the document's `published` is truthy or `false` |
| ResourcesStore.ArticleIndex | src/stores/resourcesStore.js:119 | the first index of an article with the id, or none when no article has it |
| ResourcesStore.WithoutArticle | src/stores/resourcesStore.js:136 | keeps exactly the articles with another id |
| ResourcesStore.ResourcesStore.constructor | src/stores/resourcesStore.js:18-19 | both lists start empty |
| ResourcesStore.ResourcesStore.AddArticle | src/stores/resourcesStore.js:87-109 | the new article goes first and the rest keep their order; the new id is returned |
| ResourcesStore.ResourcesStore.UpdateArticle | src/stores/resourcesStore.js:111-131 | merges the updates into the first article with the id only |
| ResourcesStore.ResourcesStore.DeleteArticle | src/stores/resourcesStore.js:133-141 | removes exactly the articles with the id; ratings stay |
| ResourcesStore.ResourcesStore.AddRating | src/stores/resourcesStore.js:181-224 | refused exactly when no user is signed in, changing nothing. Otherwise the ratings become the upsert, and one rating per (article, user) is preserved |
| UserStore.UserRole | src/stores/userStore.js:23-25 | the role names admin exactly when `isAdmin` holds and advocate exactly when `isAdvocate` holds. It is never empty, and it is `'user'` without a profile or role |
| UserStore.IsAdmin | src/stores/userStore.js:23 | nobody without a profile is an admin, and no admin is an advocate |
| UserStore.IsAdvocate | src/stores/userStore.js:24 | nobody without a profile is an advocate, and an advocate's role is a set, truthy value, which `userRole` therefore shows |
| UserStore.Split | src/stores/userStore.js:74 | `split(' ')` gives at least one piece, none containing a space |
| UserStore.Join | src/stores/userStore.js:75 | a join starts with the first piece, followed by a space when more pieces follow; JoinSplit and SplitJoin make it the inverse of Split |
| UserStore.JoinSplit | src/stores/userStore.js:74-75 | joining the pieces of a split with single spaces gives back the string |
| UserStore.SplitJoin | src/stores/userStore.js:74-75 | splitting a join of space-free pieces gives back the pieces |
| UserStore.FirstName | src/stores/userStore.js:74 | the first name is a prefix of the display name and holds no space |
| UserStore.LastName | src/stores/userStore.js:75 | the last name is empty when there is no display name or it holds no space |
| UserStore.NameSplit | src/stores/userStore.js:74-75 | the first name has no space. With a space in the display name, first name + ' ' + last name is the display name; without one, the first name is the whole name and the last name is empty |
| UserStore.DefaultNames | src/stores/userStore.js:72-80 | the default first name holds no space, both default names are empty without a display name, and with a space in the display name first name, one space and last name rebuild it |
| UserStore.NewProfile | src/stores/userStore.js:69-88 | the new profile's role is `'user'` unless the additional data sets one, and it carries the creation stamps |
| UserStore.NewProfileNames | src/stores/userStore.js:72-83 | unless the additional data overrides them, the names come from the display name |
| UserStore.NewProfileId | src/stores/userStore.js:83 | unless the additional data overrides it, the id is the uid |
| UserStore.NewProfileIsPlainUser | src/stores/userStore.js:76 | a profile created without a role override is not admin and has role `'user'` |
| Common.MergeStamped | src/stores/userStore.js:100-104 | the local merge of `updateUserProfile`, and of `updateArticle` at resourcesStore.js:121-125: the updated fields overwrite, every other field is kept, with `updatedAt` set to now |
| UserStore.UserStore.constructor | src/stores/userStore.js:15-18 | no user, no profile, not authenticated |
| UserStore.UserStore.CreateUserProfile | src/stores/userStore.js:69-88 | the profile becomes the new profile; the user is unchanged |
| UserStore.UserStore.FetchUserProfile | src/stores/userStore.js:52-67 | a stored profile is loaded with its id, and a missing one is created |
| UserStore.UserStore.Login | src/stores/userStore.js:27-43 | sets the user, marks the session authenticated, and loads or creates the profile |
| UserStore.UserStore.Logout | src/stores/userStore.js:45-50 | clears user and profile and the authenticated flag, so the role is back to `'user'` |
| UserStore.UserStore.UpdateUserProfile | src/stores/userStore.js:90-109 | refused exactly when no user is set, changing nothing. Otherwise the profile becomes the merge |

## Left out

- Firestore and Cloud Functions plumbing. This covers `runTransaction` retries and isolation, `getDocs`/`addDoc`/`updateDoc`/`deleteDoc`, logging and the `async`/`await` error wrapping.
  - A transaction is one atomic step, and a failure of the store itself is the parameter `storeFault`.
  - The client actions assume their remote writes succeed; a failed write (which throws before the local update) is not modelled.
- Concurrency. This includes the duplicate-booking query at functions/index.js:74-79, which runs outside the transaction. The model is sequential, so its race cannot be expressed.
- Server timestamps, `cancelledAt`, and the `updatedAt` written to event and booking documents. These are not modelled as values. Client-side `createdAt`/`updatedAt` stamps are modelled as the integer `now` where records are open maps, and dropped from the typed event and booking records.
- Fields copied but never inspected are not modelled, because no check reads them:
  - `userEmail` and `userDisplayName` of bookings and donations;
  - `eventDate`;
  - the email and name drawn from `request.auth.token`;
  - everything read from the caller's profile in `processEventBooking` and `processDonation`.
- Documents with missing or ill-typed fields. Every event document has all six counter and time fields with their types; a missing `spotsAvailable` (which `<= 0` would let through) is not represented.
- `BookingStore.BookingStore.CreateEvent`: pushes the corrected local event `NewEvent`, whose total is defaulted like the stored document's, not the object the source pushes (`NewEventAsWritten`, see Findings). Its consistency clause therefore holds of the corrected program only; as written it holds only when a non-zero total is given. The local object is built from `...eventData` with typed fields only, so an `id` inside `eventData` overriding the generated id is not represented.
- `ResourcesStore.Rating`: a rating's value is an integer, while the source stores whatever number the caller passes. The typed rating drops the `createdAt`/`updatedAt` stamps of resourcesStore.js:199 and 216-217, as no getter reads them.
- `CloudFunctions.CleanupPastEvents`: a failing `batch.commit()` (functions/index.js:270-273 rethrows it) is not modelled; the batch is taken to commit.
- Fetching and sorting: `fetchEvents`, `fetchBookings`, `fetchArticles`, `fetchRatings`, `fetchAllUsers`, `refreshUserProfile`, `clearError`, the `loading` and `error` flags. These are reads from the store or UI state with no checks of their own. A fetched document is a parameter (`FetchUserProfile`'s `stored`).
- `localStorage` in `login`/`logout`: browser I/O.
- `ResourcesStore.ArticleRating`: the average is the exact mean as a real. The floating-point division and `toFixed(1)` string rounding are not modelled; its bounds are proved on the exact value.
- `CloudFunctions.ProcessDonation`: amounts are exact reals, so NaN, the infinities and `parseFloat` are not represented. The displayed name and the email are left out as above.
- `Sanitizer.SanitizeInput`: strings are sequences of code points. JavaScript's UTF-16 code units differ only for characters outside the Basic Multilingual Plane, where `slice` may split a surrogate pair.
- Ids that Firestore would reject are not represented on the client side: one containing `/`, or the empty id, for which `doc(db, collection, '')` throws before any write. On the server an empty booking id is modelled as the internal error that throw becomes.
- `CloudFunctions.BookingRejections`: a non-empty event id is used as an ordinary document key. An id that `collection(...).doc(id)` rejects as a document path (such as `a/b`, functions/index.js:51) makes the program's callback throw a plain error, which the handler answers as internal (functions/index.js:119-124). The model looks such an id up like any other and answers not-found, so the not-found and internal cases do not cover it. Firestore's path rules, under which some ids with `/` name documents in subcollections, are not modelled.
- `CloudFunctions.BookingCallback`: for an event id that `doc()` rejects, the program's callback throws outside the listed error kinds; the model treats the id as an ordinary key, as above.
- `CloudFunctions.CancellationOutcomes`: a booking id that `doc()` rejects as a document path (functions/index.js:144) gives internal in the program (functions/index.js:182-187) but not-found in the model, which treats it as an ordinary key.
- `CloudFunctions.CancellationCallback`: for a booking id that `doc()` rejects, the program's callback throws outside the listed error kinds; the model treats the id as an ordinary key, as above.
- `UserStore.FetchUserProfile` and `UserStore.UserStore.Login`: the profile document that `createUserProfile` writes is not modelled, only the local profile.
- The other source files (the donation store, the router, the sanitising composable, the Firebase setup and the generated data-connect SDK) are not part of this model: they are I/O, configuration or foreign libraries.

## Findings

| source | as written | input that shows it | evidently intended | confidence | as-written member | corrected member |
|---|---|---|---|---|---|---|
| src/stores/bookingStore.js:119-128 | the local event object takes `spotsTotal` from `...eventData` without the `\|\| 10` default, while its `spotsAvailable` gets the default | `createEvent({title, start, end})` with no `spotsTotal`, or `spotsTotal: 0`: the local event has 0 booked and 10 available but no total, or a total of 0, while the stored document has 10 | the local total matches the stored document's `eventData.spotsTotal \|\| 10` (line 111), so total = booked + available | not executed; high that the two disagree, medium that it was unintended | BookingStore.NewEventAsWrittenBreaksCounters | BookingStore.NewEvent |

The model's `CreateEvent` uses the corrected `NewEvent`.
