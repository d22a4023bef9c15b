# Salon reservation app — a Dafny model of its booking core

The app lets customers book a hair artist. A one-time code sent to the customer confirms each booking. Hair artists see their appointments on a calendar dashboard. This project models the parts of the app that compute or keep state, and proves what they promise:

- **the dashboard's date-range cache**: which instants of a calendar window are already fetched, which sub-ranges still have to be fetched, how a fetched range joins the cache, how fetched bookings become calendar events filed per date, and how cached and fetched events are de-duplicated by booking id;
- **the `bookings` slice of the Redux store** (module `BookingsSlice`): `mergeDateRanges` and every reducer of the slice;
- **the `useBookings` hook** (module `UseBookings`): its own variant of the range cache, the guarded, time-limited `getBookings`, and the service lookups;
- **`appointmentUtils`** (module `AppointmentUtils`): service durations, end times, and the conversion of bookings into coloured calendar events;
- **`serviceService`** (module `ServiceService`): services stamped with their fetch time, and the refresh rule of the lookup by name;
- **the `auth` slice** (module `AuthSlice`): the reducer of the login session;
- **`tokenUtils`** (module `TokenUtils`): reading the claims of a JWS in compact serialisation (RFC 7515, section 7.1), in the base64url alphabet (RFC 4648, section 5), with `exp` a NumericDate (RFC 7519, section 4.1.4);
- **the backend** (modules `Otp` and `BookingRouter`): one-time codes, the hourly slots of a day, and the endpoint that confirms a booking.

Modules `HairArtistDashboard` and `DashboardRanges` together model the dashboard. The supporting modules are `Wrappers`, `Text`, `Dates`, `Sorting` and `Records`.

How values are modelled:

- Frontend instants are milliseconds since the epoch.
- A `yyyy-MM-dd` string is a day number.
- The store keeps range endpoints as whatever the caller gave, either a `Date` or a date string (`Dates.DateValue`).
- Backend datetimes are naive, in seconds since the epoch.
- HTTP responses, clock readings, random draws and the JSON decoder are parameters.
- React state setters that read a snapshot take the snapshot as a parameter.
- Redux reducers are methods of classes whose fields are the slice's state.

## Model

| member | source | states |
|---|---|---|
| DashboardRanges.IsDateRangeCached | frontend/src/components/HairArtistDashboard.jsx:46-65 | true exactly when one single cached range holds the whole request; an empty cache holds nothing |
| DashboardRanges.TouchingRangesNotCombined | frontend/src/components/HairArtistDashboard.jsx:55-62 | two ranges that only touch never count as covering a request that spans both |
| DashboardRanges.GetUncachedSubRanges | frontend/src/components/HairArtistDashboard.jsx:68-119 | equals the gap specification; an empty cache gives the whole request back; a covered request gives nothing |
| DashboardRanges.CollectGaps | frontend/src/components/HairArtistDashboard.jsx:85-118 | the loop over consecutive cached ranges and the trailing test compute exactly the specified gaps |
| DashboardRanges.SubRangesInsideRequest | frontend/src/components/HairArtistDashboard.jsx:85-118 | with a well-formed, non-empty cache, every sub-range returned is a non-empty part of the request |
| DashboardRanges.RequestBeforeCacheYieldsNothing | frontend/src/components/HairArtistDashboard.jsx:89-116 | a request that ends before every cached range starts yields no sub-range at all, although none of it is cached |
| DashboardRanges.UncachedInstantsFetched | frontend/src/components/HairArtistDashboard.jsx:68-119 | when some cached range starts before the request ends, every uncached instant of the request lies in a returned sub-range |
| DashboardRanges.Hull | frontend/src/components/HairArtistDashboard.jsx:147-154 | the merged range reaches from the earlier start to the later end, and takes both endpoints from its inputs |
| DashboardRanges.AddRangeToCache | frontend/src/components/HairArtistDashboard.jsx:122-169 | an empty cache becomes the new range; if the date strings of the first range do not overlap the new range's, the updater throws a TypeError; on success at most the first range is widened |
| DashboardRanges.AddKeepsCoverage | frontend/src/components/HairArtistDashboard.jsx:127-168 | when the update succeeds, every instant the old cache or the new range held is still held |
| HairArtistDashboard.CalculateEndTime | frontend/src/components/HairArtistDashboard.jsx:294-299 | the only failure is the RangeError that `toISOString` throws on an Invalid Date |
| HairArtistDashboard.ToEvents | frontend/src/components/HairArtistDashboard.jsx:242-250 | a conversion that succeeds gives one event per booking |
| HairArtistDashboard.ToEventsOneHour | frontend/src/components/HairArtistDashboard.jsx:184-192 | the conversion succeeds exactly when every booking's date and time form a valid date-time; event i then shows booking i, starting at the booking's start and lasting one hour |
| HairArtistDashboard.ToEventsOk | frontend/src/components/HairArtistDashboard.jsx:184-192 | `bookings.map` throws exactly when some booking's date and time do not form a valid date-time |
| HairArtistDashboard.ToEventsShowBookings | frontend/src/components/HairArtistDashboard.jsx:184-192 | after a successful conversion, event i carries booking i's id, its start and an end one hour later |
| HairArtistDashboard.DateKeyIsDatePart | frontend/src/components/HairArtistDashboard.jsx:262 | an event with a valid start is filed under the date part of its start |
| HairArtistDashboard.AddEventKeys | frontend/src/components/HairArtistDashboard.jsx:261-265 | filing an event keeps one bucket per date; the dates are the old ones plus the event's own |
| HairArtistDashboard.AddEventKeyed | frontend/src/components/HairArtistDashboard.jsx:262-264 | filing an event keeps every event under its own date |
| HairArtistDashboard.AddEventKeepsEvents | frontend/src/components/HairArtistDashboard.jsx:263-264 | filing an event adds exactly that event to the flattened cache |
| HairArtistDashboard.AddEventsFacts | frontend/src/components/HairArtistDashboard.jsx:259-267 | filing events keeps one bucket per date, with every event under its date, and loses and invents no event (as multisets) |
| HairArtistDashboard.InRange | frontend/src/components/HairArtistDashboard.jsx:274-277 | the filtered events are exactly the events whose start lies within the window, ends included |
| HairArtistDashboard.PutFacts | frontend/src/components/HairArtistDashboard.jsx:281 | `Map.set` keeps ids distinct; afterwards the map holds the new event and the old entries of other ids |
| HairArtistDashboard.LastOfIdStep | frontend/src/components/HairArtistDashboard.jsx:281 | appending an event makes it the last of its id and ends that status for earlier events of the same id |
| HairArtistDashboard.DedupLastWins | frontend/src/components/HairArtistDashboard.jsx:280-281 | the de-duplicated events have distinct ids; an event is kept exactly when no later event has its id |
| HairArtistDashboard.DedupKeepsIds | frontend/src/components/HairArtistDashboard.jsx:281 | every id of the input survives the de-duplication |
| HairArtistDashboard.FreshWins | frontend/src/components/HairArtistDashboard.jsx:280-281 | for an id that was fetched, the event kept is the last fetched one, never a cached one |
| HairArtistDashboard.ResponseEvents | frontend/src/components/HairArtistDashboard.jsx:239-250 | events are produced only from a response that converts without throwing |
| HairArtistDashboard.CrashSticks | frontend/src/components/HairArtistDashboard.jsx:232-268 | once a state updater has thrown, the rest of the loop leaves the component crashed |
| HairArtistDashboard.FetchKeepsBuckets | frontend/src/components/HairArtistDashboard.jsx:232-268 | the fetch loop keeps the event cache one bucket per date, with each event under its date |
| HairArtistDashboard.FetchCachesRanges | frontend/src/components/HairArtistDashboard.jsx:232-268 | when every request succeeds and nothing throws, every instant of the old cache or of the remaining uncached ranges is recorded as cached afterwards, although each request asked for today's bookings only |
| HairArtistDashboard.FileEvents | frontend/src/components/HairArtistDashboard.jsx:259-267 | the updater's loop files the events exactly as the filing specification does |
| HairArtistDashboard.FetchRanges | frontend/src/components/HairArtistDashboard.jsx:232-268 | the loop over the uncached ranges computes the specified progress: request today's bookings once per range, convert them, record the range as cached, file the events, stop at the first failure |
| HairArtistDashboard.Dashboard.constructor | frontend/src/components/HairArtistDashboard.jsx:26-38 | empty caches, no events, no fetch time |
| HairArtistDashboard.Dashboard.FetchBookings | frontend/src/components/HairArtistDashboard.jsx:171-291 | a forced refresh shows the response and leaves the cache alone; a covered window is filled from the cache; otherwise today's bookings are requested once per uncached range and the ranges are recorded as cached, and the window shows the cached events in it plus the fetched ones, de-duplicated by id; a failure keeps the events and the fetch time |
| HairArtistDashboard.Dashboard.FetchUncached | frontend/src/components/HairArtistDashboard.jsx:225-290 | the cache, the events and the fetch time become those of the fetch specification over the uncached ranges, one request for today's bookings per range; the buckets stay filed by date |
| BookingsSlice.LaterEnd | frontend/src/redux/slices/bookingsSlice.js:26 | the later of two ends, taken from one of them |
| BookingsSlice.CoalesceFrom | frontend/src/redux/slices/bookingsSlice.js:17-36 | coalescing emits at least one range and never more than it was given |
| BookingsSlice.Widen | frontend/src/redux/slices/bookingsSlice.js:43-50 | the widened range covers both ranges, and takes its endpoint values from them |
| BookingsSlice.MergeDateRanges | frontend/src/redux/slices/bookingsSlice.js:5-61 | equals the merge specification; an empty list becomes the new range alone |
| BookingsSlice.CoalesceSorted | frontend/src/redux/slices/bookingsSlice.js:13-36 | the first loop computes the specified coalescing of the sorted copy |
| BookingsSlice.InsertRange | frontend/src/redux/slices/bookingsSlice.js:39-60 | the second loop merges the new range into the first range it meets, or inserts it before the first range it precedes, or appends it |
| BookingsSlice.CoalesceSeparated | frontend/src/redux/slices/bookingsSlice.js:17-36 | after coalescing, consecutive ranges are more than a day apart, and the first keeps its start |
| BookingsSlice.SeparatedApart | frontend/src/redux/slices/bookingsSlice.js:21-22 | in a coalesced list every range ends more than a day before any later one starts |
| BookingsSlice.SeparatedSorted | frontend/src/redux/slices/bookingsSlice.js:17-36 | a coalesced list is sorted by start |
| BookingsSlice.InsertSorted | frontend/src/redux/slices/bookingsSlice.js:39-60 | placing the new range keeps the list sorted |
| BookingsSlice.MergedSorted | frontend/src/redux/slices/bookingsSlice.js:5-61 | with well-formed ranges, the merged list is sorted by start |
| BookingsSlice.CoalesceCovers | frontend/src/redux/slices/bookingsSlice.js:17-36 | coalescing loses no instant |
| BookingsSlice.InsertCovers | frontend/src/redux/slices/bookingsSlice.js:39-60 | placing the new range loses no instant, of the list or of the new range |
| BookingsSlice.MergedCovers | frontend/src/redux/slices/bookingsSlice.js:5-61 | every instant of the new range or of an existing range is held by some merged range |
| BookingsSlice.CoalescedCovers | frontend/src/redux/slices/bookingsSlice.js:5-36 | sorting and coalescing the cached ranges loses no instant any of them held |
| BookingsSlice.CoalesceSeparatedIdentity | frontend/src/redux/slices/bookingsSlice.js:17-36 | coalescing an already coalesced list returns it unchanged |
| BookingsSlice.InsertHeldIdentity | frontend/src/redux/slices/bookingsSlice.js:39-51 | a new range held by an existing range leaves the list unchanged |
| BookingsSlice.MergeHeldRange | frontend/src/redux/slices/bookingsSlice.js:5-61 | merging into a coalesced cache a range that one cached range already holds returns the cache as it was |
| BookingsSlice.MergeTwiceDiffers | frontend/src/redux/slices/bookingsSlice.js:21-44 | merging a range that starts a day after the cached one keeps the two apart, and merging the same range again joins them: the merge is not idempotent |
| Sorting.SortSpansAppend | frontend/src/redux/slices/bookingsSlice.js:9-11 | sorting a list with one more range at its end places that range into the sorted list |
| BookingsSlice.InsertSpanBetween | frontend/src/redux/slices/bookingsSlice.js:9-11 | a range goes after the ranges that start no later than it and before those that start later |
| BookingsSlice.SortHeld | frontend/src/redux/slices/bookingsSlice.js:9-11 | sorting a coalesced list with a range that its range k holds puts that range right after range k |
| BookingsSlice.CoalesceHeld | frontend/src/redux/slices/bookingsSlice.js:17-36 | coalescing such a sorted list merges the held range into range k and keeps every other range |
| BookingsSlice.CoalescedSeparated | frontend/src/redux/slices/bookingsSlice.js:5-36 | sorting and coalescing well-formed ranges leaves them more than a day apart and well-formed |
| BookingsSlice.WithinOneRange | frontend/src/redux/slices/bookingsSlice.js:17-36 | in a list whose ranges are more than a day apart, a range whose every instant is held lies within a single range |
| BookingsSlice.MergedCoalescingHolds | frontend/src/redux/slices/bookingsSlice.js:5-36 | with the new range coalesced like the cached ones, the result is separated and one of its ranges holds the new range |
| BookingsSlice.MergeCoalescingHeld | frontend/src/redux/slices/bookingsSlice.js:5-36 | with the new range coalesced like the cached ones, merging a range the cache already holds changes no instant of the cache |
| BookingsSlice.MergedCoalescingIdempotent | frontend/src/redux/slices/bookingsSlice.js:5-36 | with the new range coalesced like the cached ones, merging the same range twice gives the same ranges, as instants, as merging it once |
| BookingsSlice.BookingsState.constructor | frontend/src/redux/slices/bookingsSlice.js:97-105 | the initial state: nothing stored, not loading, no error, no fetch time |
| BookingsSlice.BookingsState.ClearBookingsError | frontend/src/redux/slices/bookingsSlice.js:111-113 | clears the error and nothing else |
| BookingsSlice.BookingsState.AddDateRange | frontend/src/redux/slices/bookingsSlice.js:114-116 | the cached ranges become the merge of the old ones with the new range; nothing else changes |
| BookingsSlice.BookingsState.FetchPending | frontend/src/redux/slices/bookingsSlice.js:121-124 | loading, error cleared, nothing else changes |
| BookingsSlice.BookingsState.FetchBookingsFulfilled | frontend/src/redux/slices/bookingsSlice.js:125-130 | the bookings become the payload, the fetch time becomes now, loading and error are cleared |
| BookingsSlice.BookingsState.FetchBookingsRejected | frontend/src/redux/slices/bookingsSlice.js:131-135 | not loading; the error is the payload, or the fallback message when the payload is missing or empty |
| BookingsSlice.BookingsState.FetchServicesFulfilled | frontend/src/redux/slices/bookingsSlice.js:141-145 | the services become the payload; loading and error are cleared |
| BookingsSlice.BookingsState.FetchServicesRejected | frontend/src/redux/slices/bookingsSlice.js:146-150 | not loading; the error is the payload or the fallback message |
| UseBookings.IsDateRangeCached | frontend/src/hooks/useBookings.js:13-29 | true exactly when one cached range holds the request; a missing bound (NaN) is never held; an empty cache holds nothing |
| UseBookings.DayGapsAreDays | frontend/src/hooks/useBookings.js:52-86 | every gap the hook computes is a pair of day strings |
| UseBookings.SubRangesAreDays | frontend/src/hooks/useBookings.js:32-90 | once the cache holds anything, the hook answers in day strings only |
| UseBookings.GetUncachedSubRanges | frontend/src/hooks/useBookings.js:32-90 | equals the gap specification; an empty cache gives the request back unchanged; a covered request gives nothing |
| UseBookings.CollectDayGaps | frontend/src/hooks/useBookings.js:51-86 | the loop and the trailing test compute exactly the specified day gaps |
| UseBookings.DayGapIncludes | frontend/src/hooks/useBookings.js:65-71 | the day span of a gap includes the day of every instant in the gap |
| UseBookings.DayGapsCover | frontend/src/hooks/useBookings.js:61-86 | from any cached range at or before an uncached instant, the gaps include that instant's day |
| UseBookings.SortedDayGapsCover | frontend/src/hooks/useBookings.js:42-86 | for a sorted cache that starts before the request ends, every uncached instant's day is included in some gap |
| UseBookings.UncachedDaysFetched | frontend/src/hooks/useBookings.js:32-90 | when some cached range starts before the request ends, the day of every uncached instant lies in a returned span |
| UseBookings.TrailingRuleDiffers | frontend/src/hooks/useBookings.js:76-86 | a request wholly before the only cached range comes back whole from the hook, where the dashboard's variant (HairArtistDashboard.jsx:111) finds nothing to fetch |
| UseBookings.DispatchFetchBookings | frontend/src/redux/slices/bookingsSlice.js:64-81 | the payload is the data or the rejection message; the store is settled (bookings and fetch time replaced on success, error recorded on failure), and its ranges are kept |
| UseBookings.GetBookings | frontend/src/hooks/useBookings.js:93-146 | a call while another is in progress returns `[]` and touches nothing; a forced call, an uncovered range or a first fetch dispatches the fetch (recording the range when both bounds are given); bookings under five minutes old are returned as stored; older ones are fetched again; a fetch is stamped with the later clock reading of the settling reducer, not the one the five-minute test used; the in-progress flag is restored on the way out |
| UseBookings.GetServices | frontend/src/hooks/useBookings.js:149-162 | stored services are returned untouched; otherwise the fetch's payload, with the store settled: the services replaced and the error cleared on success, the rejection message or the fallback recorded on failure |
| UseBookings.GetServiceByName | frontend/src/hooks/useBookings.js:165-167 | none exactly when no service has that exact name; otherwise a service with that exact name |
| AppointmentUtils.FirstMatch | frontend/src/utils/appointmentUtils.js:70-74 | the first service whose name matches ignoring case, or none exactly when none matches |
| AppointmentUtils.GetServiceDuration | frontend/src/utils/appointmentUtils.js:57-87 | the duration is never 0; it is 60 minutes when the list or the name is missing, or no service matches |
| AppointmentUtils.DurationOfFirstMatch | frontend/src/utils/appointmentUtils.js:70-81 | the duration is that of the first matching service, or 60 when that one is 0 |
| AppointmentUtils.CalculateEndTime | frontend/src/utils/appointmentUtils.js:13-49 | null when an argument is missing; a result needs numeric hours and minutes, and lies in the `Date` time range (at most 8.64e15 ms from the epoch either way) |
| AppointmentUtils.ShortTimeShape | frontend/src/utils/appointmentUtils.js:28 | a valid `HH:mm` time splits at its one colon into two digit pairs |
| AppointmentUtils.LongTimeShape | frontend/src/utils/appointmentUtils.js:116-126 | a valid `HH:mm:ss` time has a colon and no dot |
| AppointmentUtils.EndTimeAddsDuration | frontend/src/utils/appointmentUtils.js:13-49 | for a valid date and `HH:mm` time, the end is the start plus the service's duration in minutes when that lies in the time range; past it, the Invalid Date's `toISOString` throws and the result is null |
| AppointmentUtils.FarEndGivesNull | frontend/src/utils/appointmentUtils.js:39-48 | a service of 400 billion minutes starting `2024-03-01T10:00` ends past the time range, so the end time is null |
| AppointmentUtils.SecondsGiveNull | frontend/src/utils/appointmentUtils.js:35-47 | a time that already carries seconds gives null, since `HH:mm:ss:00` is no date-time |
| AppointmentUtils.StatusColor | frontend/src/utils/appointmentUtils.js:149-162 | green, orange or red exactly for confirmed, pending or cancelled, ignoring case; blue otherwise |
| AppointmentUtils.TimeString | frontend/src/utils/appointmentUtils.js:116-121 | the time without a dot; a time without a dot is unchanged |
| AppointmentUtils.ToCalendarEvent | frontend/src/utils/appointmentUtils.js:108-180 | a booking is skipped exactly when its date, time or service is missing, or its time has no colon; a kept booking throws a RangeError exactly when its end cannot be computed and its start is no valid date-time; an event carries the booking's id, its service as title, its start, and the colour of its status |
| AppointmentUtils.EventLastsServiceDuration | frontend/src/utils/appointmentUtils.js:129-146 | a booking with a valid date and `HH:mm` time becomes an event that ends after its service's duration, or one hour after its start when the duration's end is past the time range |
| Dates.StartsInTimeRange | frontend/src/utils/appointmentUtils.js:141-146 | every start a `YYYY-MM-DD` date and a time denote, and the instant an hour later, lie in the time range, so the one-hour fallback never meets an Invalid Date from its addition |
| AppointmentUtils.SecondsEventLastsAnHour | frontend/src/utils/appointmentUtils.js:134-146 | a booking whose time carries seconds becomes an event of one hour, whatever its service |
| AppointmentUtils.ConvertAll | frontend/src/utils/appointmentUtils.js:108-181 | never more events than bookings; a throw is a RangeError |
| AppointmentUtils.ConvertAllThrows | frontend/src/utils/appointmentUtils.js:108-181 | the map throws exactly when the conversion of some booking throws |
| AppointmentUtils.BookingsToEvents | frontend/src/utils/appointmentUtils.js:95-185 | a missing bookings or services list gives no events; otherwise at most one event per booking; the call throws a RangeError exactly when both lists are given and the conversion of some booking throws |
| AppointmentUtils.InvalidDateThrows | frontend/src/utils/appointmentUtils.js:129-146 | a kept booking whose ten-character date is no valid date makes its conversion throw |
| AppointmentUtils.InvalidDateLosesBatch | frontend/src/utils/appointmentUtils.js:95-185 | one booking dated `not-a-date` at `10:00` makes the whole call throw, whatever the other bookings |
| AppointmentUtils.BookingsToEventsSkipping | frontend/src/utils/appointmentUtils.js:95-104 | corrected: a missing bookings or services list gives no events |
| AppointmentUtils.ConvertShowable | frontend/src/utils/appointmentUtils.js:108-181 | corrected: never more events than bookings |
| AppointmentUtils.SkippingAgrees | frontend/src/utils/appointmentUtils.js:108-181 | where nothing throws, the corrected conversion gives exactly the events of the source |
| AppointmentUtils.SkippingDropsOnlyBad | frontend/src/utils/appointmentUtils.js:108-181 | corrected: a booking whose conversion would throw is dropped, and the events of the bookings before and after it are kept, in order |
| AppointmentUtils.Kept | frontend/src/utils/appointmentUtils.js:180 | a booking is kept exactly when it is not skipped |
| AppointmentUtils.EventsFollowKept | frontend/src/utils/appointmentUtils.js:108-181 | when nothing throws, there is one event per kept booking, and event i is the conversion of kept booking i |
| AppointmentUtils.KeptIsSubsequence | frontend/src/utils/appointmentUtils.js:180 | the kept bookings are the input with some bookings left out, order kept |
| ServiceService.GetServices | frontend/src/api/services/services/serviceService.js:12-25 | a failed request is rethrown; otherwise one service per entry, each stamped with the fetch time and otherwise unchanged |
| ServiceService.GetServiceById | frontend/src/api/services/services/serviceService.js:32-45 | a failed request is rethrown; otherwise the service, stamped and otherwise unchanged |
| ServiceService.FindByName | frontend/src/api/services/services/serviceService.js:59-61 | the first service whose name matches ignoring case, or none exactly when none matches |
| ServiceService.GetServiceByName | frontend/src/api/services/services/serviceService.js:53-82 | a failed list request is rethrown |
| ServiceService.UnknownNameGivesNull | frontend/src/api/services/services/serviceService.js:63-66 | no service of that name gives null |
| ServiceService.FreshListRefetchesIffForced | frontend/src/api/services/services/serviceService.js:69-77 | within five minutes of the list being fetched, the entry found is fetched again exactly when the caller forces it |
| ServiceService.StaleListRefetches | frontend/src/api/services/services/serviceService.js:69-74 | more than five minutes after the list was fetched, the entry found is always fetched again by id |
| ServiceService.FoundAt | frontend/src/api/services/services/serviceService.js:56-61 | the lookup finds the first matching entry of the stamped list |
| Otp.DigitChar | backend/app/utils/otp.py:7 | `str(d)` of a decimal digit is a digit |
| Otp.GenerateOtp | backend/app/utils/otp.py:6-8 | six characters, each the decimal digit drawn |
| Otp.DrawsOf | backend/app/utils/otp.py:7 | six draws, each within 0..9 |
| Otp.EveryCodeGenerated | backend/app/utils/otp.py:6-8 | every six-digit string is a code the generator can return |
| Otp.Newest | backend/app/utils/otp.py:39-44 | the record picked matches (contact, code, not expired, not used) and was created last; there is none exactly when no record matches |
| Otp.MatchCount | backend/app/utils/otp.py:39-44 | the number of matching records is at most the number of records |
| Otp.NoMatchCountsZero | backend/app/utils/otp.py:39-44 | no record matches exactly when the count is zero |
| Otp.VerifyingRemovesOne | backend/app/utils/otp.py:45-48 | marking the record verified removes exactly that one from the matching records |
| Otp.VerifyUsesOneRecord | backend/app/utils/otp.py:26-50 | verification succeeds exactly when some record matches; success uses exactly one record up; failure changes nothing |
| Otp.SecondUseFails | backend/app/utils/otp.py:26-50 | with a single record holding the code, the second verification fails |
| Otp.OtpTable.constructor | backend/app/utils/otp.py:10-24 | an empty table |
| Otp.OtpTable.CreateOtpRecord | backend/app/utils/otp.py:10-24 | appends an unused record with the generated code, expiring ten minutes after now, with the next id |
| Otp.OtpTable.VerifyOtp | backend/app/utils/otp.py:26-50 | the table and the answer are those of the verification specification; true exactly when some record matches; on failure nothing changes |
| Otp.NewCodeVerifies | backend/app/utils/otp.py:10-50 | a code just created verifies for its contact until it expires |
| Otp.ExpiredCodeRejected | backend/app/utils/otp.py:38-50 | a code whose every record for the contact has expired is rejected and leaves the table as it was, whatever other records the table holds |
| Otp.OtpAsWrittenAlwaysRaises | backend/app/utils/otp.py:2-44 | as written, creating and verifying a code both raise AttributeError, whatever the table, contact and instant |
| BookingRouter.TimeOfDay | backend/app/routers/booking.py:80 | the time of day lies within one day |
| BookingRouter.GetAvailableSlots | backend/app/routers/booking.py:67-95 | raises ValueError exactly when `strptime` rejects the date; raises OverflowError exactly for 9999-12-31, whose next day `datetime` cannot hold; otherwise the slots of that day, with the bookings of that day marking them |
| BookingRouter.HourlySlots | backend/app/routers/booking.py:82-93 | the loop builds the slots of the day, one per opening hour, each free unless its time is booked |
| BookingRouter.StrptimeFields | backend/app/routers/booking.py:70 | a date `strptime` reads has a month from 1 to 12 and a day from 1 to 31 |
| BookingRouter.StrptimeReadsPaddedDates | backend/app/routers/booking.py:70 | a zero-padded date of a year from 1 on reads as the same day in the backend as in the browser |
| BookingRouter.YearZeroRejected | backend/app/routers/booking.py:70 | `0000-01-01` is a valid browser date, but `strptime` raises on it |
| BookingRouter.UnpaddedDateAccepted | backend/app/routers/booking.py:70 | `2024-3-5` reads as 5 March 2024 |
| BookingRouter.SpacedDayAccepted | backend/app/routers/booking.py:70 | a day written as a space and one digit, `2024-03- 5`, reads as 5 March 2024 |
| BookingRouter.LastDayReads | backend/app/routers/booking.py:70-76 | `9999-12-31` reads as the last day, the one whose next day overflows |
| BookingRouter.SlotsUpToAt | backend/app/routers/booking.py:82-93 | the slots list the hours from 9 on, in order, one per hour |
| BookingRouter.TimeOfDayWithin | backend/app/routers/booking.py:80 | the time of day of an instant within a day is its offset from midnight |
| BookingRouter.SlotFreeIffUnbooked | backend/app/routers/booking.py:80-91 | a slot is free exactly when no booking on the table starts at its start |
| BookingRouter.SlotsOfDay | backend/app/routers/booking.py:67-95 | a day has eight one-hour slots, 9:00 to 16:00 in order; each is free exactly when no booking is at its start |
| BookingRouter.OtherDaysIrrelevant | backend/app/routers/booking.py:74-80 | bookings on other days do not change the slots of a day |
| BookingRouter.AsWrittenNeverBooks | backend/app/routers/booking.py:36-61 | as written, a request never books; it raises exactly when the code verifies, and the code is spent all the same |
| BookingRouter.FreshCodeBooksOnlyWhenCorrected | backend/app/routers/booking.py:38-48 | with one fresh code, as written the first request raises and the retry is told the code is invalid; corrected, it books the slot |
| BookingRouter.EndpointBooksFreeSlots | backend/app/routers/booking.py:36-61 | corrected, a request books exactly when the code verifies and the slot is free; the code is spent even when the slot is taken |
| BookingRouter.EndpointKeepsSlotsDistinct | backend/app/routers/booking.py:41-57 | corrected, the endpoint never books two bookings at the same datetime |
| BookingRouter.BookingTable.constructor | backend/app/routers/booking.py:49-59 | an empty table |
| BookingRouter.BookingTable.Add | backend/app/routers/booking.py:49-59 | appends the row with the next id and returns that id |
| BookingRouter.VerifyOtpEndpointAsWritten | backend/app/routers/booking.py:36-61 | the tables and the response are those of the as-written endpoint specification |
| BookingRouter.VerifyOtpEndpoint | backend/app/routers/booking.py:36-61 | the tables and the response are those of the corrected endpoint specification |
| AuthSlice.AuthState.constructor | frontend/src/redux/slices/authSlice.js:42-47 | the initial state |
| AuthSlice.AuthState.ClearError | frontend/src/redux/slices/authSlice.js:54-56 | the state the reducer gives for clearing the error |
| AuthSlice.AuthState.Pending | frontend/src/redux/slices/authSlice.js:61-64 | the state the reducer gives for a pending login or user fetch |
| AuthSlice.AuthState.UserArrived | frontend/src/redux/slices/authSlice.js:65-70 | the state the reducer gives for a fulfilled login or user fetch |
| AuthSlice.AuthState.LoginRejected | frontend/src/redux/slices/authSlice.js:71-76 | the state the reducer gives for a failed login |
| AuthSlice.AuthState.FetchCurrentUserRejected | frontend/src/redux/slices/authSlice.js:87-94 | the state the reducer gives for a failed user fetch |
| AuthSlice.AuthState.LogoutFulfilled | frontend/src/redux/slices/authSlice.js:95-100 | the state the reducer gives for a logout |
| AuthSlice.Reduce | frontend/src/redux/slices/authSlice.js:50-101 | only a fulfilled login or user fetch authenticates; an authenticated session keeps a user; a failed login keeps the session and records an error; a failed user fetch and a logout end the session; a logout keeps `loading` |
| AuthSlice.AuthenticatedHasUser | frontend/src/redux/slices/authSlice.js:50-101 | along any sequence of actions, an authenticated session has a user |
| AuthSlice.AuthenticationNeedsAUser | frontend/src/redux/slices/authSlice.js:50-101 | without a fulfilled login or user fetch, an unauthenticated session stays unauthenticated |
| AuthSlice.LogoutEndsSession | frontend/src/redux/slices/authSlice.js:95-100 | after a logout the session stays unauthenticated until a login or user fetch succeeds |
| TokenUtils.AlphabetRoundTrip | frontend/src/utils/tokenUtils.js:16 | the mapping yields base64 text and is undone by the inverse on base64url text |
| TokenUtils.ParseCompact | frontend/src/utils/tokenUtils.js:11-29 | for `header.payload.signature`, the claims are the decoded payload, whatever the other two segments |
| TokenUtils.NoSegmentNoClaims | frontend/src/utils/tokenUtils.js:14-27 | a token without a dot has no claims |
| TokenUtils.IsTokenExpired | frontend/src/utils/tokenUtils.js:36-50 | a missing token, or one that cannot be decoded, counts as expired |
| TokenUtils.GetTokenExpirationTime | frontend/src/utils/tokenUtils.js:57-70 | 0 for a missing token or one that cannot be decoded |
| TokenUtils.GetTimeUntilExpiration | frontend/src/utils/tokenUtils.js:77-82 | never negative; when positive, it is the expiry minus now |
| TokenUtils.ExpiryAgreesWithTimeLeft | frontend/src/utils/tokenUtils.js:36-82 | with a non-zero `exp`, the token is expired exactly when no time is left, except at the expiry instant itself |
| TokenUtils.NoExpNeverExpires | frontend/src/utils/tokenUtils.js:36-82 | a token without `exp` never expires, yet has no time left |
| TokenUtils.GetUserFromToken | frontend/src/utils/tokenUtils.js:89-105 | null exactly when the token is missing or cannot be decoded; otherwise the subject as email, the `exp` claim, and admin exactly when `is_admin` is true |
| TokenUtils.UserFromPayload | frontend/src/utils/tokenUtils.js:89-105 | the user read from a compact token depends on its payload segment only |

## Left out

- Rendering, dialogs, navigation, toasts, `console` logging, `localStorage` and the `tokenStorage` object (tokenUtils.js:110-140): they only display or persist, and compute nothing checked here.
- The dashboard's `loading` and `error` state, and the refresh and view handlers: display only.
- HairArtistDashboard.Dashboard.FetchBookings: a state updater that throws while React renders is modelled as the component crashing (a `crashed` flag); React's own error handling is not modelled.
- The order in which `Map` returns the de-duplicated events is not stated: the contracts say which events are kept, not their positions.
- Time zones and daylight saving: local time is taken to be UTC, and `format(date, 'yyyy-MM-dd')` is the UTC day.
- Date parsing follows the date-time string format of ECMAScript only: `YYYY-MM-DD` with `HH:mm`, `HH:mm:ss` or `HH:mm:ss.sss`. Implementation-specific fallback formats are not modelled.
- The string form of `toISOString` is not modelled: ends are kept as instants.
- `Number()` of a time piece: whitespace, sign, exponent and hexadecimal forms are read as NaN. Only the empty string and digit runs are numbers.
- `toLowerCase` is ASCII only: Unicode case mapping is left out.
- `strptime("%Y-%m-%d")` reads ASCII digits only. Python's `\d` in its pattern also matches the decimal digits of other scripts, and those dates are not modelled.
- `atob`, `decodeURIComponent` and `JSON.parse` are a decoder parameter. Claims of other JSON types than the ones read are not modelled.
- TokenUtils.GetUserFromToken: `is_admin || false` is read on a boolean claim only, so a truthy non-boolean claim is not modelled.
- HTTP requests, `Date.now()`, `datetime.now` and `random.randint` are parameters. Each thunk's settling (data or rejection message) is a parameter of the dispatch.
- UseBookings.GetBookings: the `catch` branches are not modelled, because dispatching a thunk does not throw. The branch after the five-minute test compares ISO strings; it is modelled as a comparison of instants.
- UseBookings.GetServices: `hairArtistService.getServices` is not defined in the source, so the thunk always rejects. The model takes the settling as a parameter and covers both outcomes.
- `getUncachedSubRanges` of the hook (useBookings.js:32-90) is unreachable in the source: the hook never calls it and does not return it (lines 169-178). It is modelled anyway, as the hook's variant of the range cache beside the dashboard's and the store's.
- The dashboard's requests do not carry the range. It imports `hairArtistService` from frontend/src/api/services/hairArtistService.js, whose `getBookings(date)` (lines 17-22) sends only `date`. The calls `getBookings(todayDate, startDate, endDate)` at HairArtistDashboard.jsx:181 and :239 therefore ask for today's bookings every time, and the dashboard still records each range as cached. A window in another week shows today's bookings and never requests its own. The model keeps this: `HairArtistDashboard.Server` answers request `k` of a call from today's date alone. The three-argument `getBookings` of frontend/src/api/services/hairArtist/hairArtistService.js is not the one imported.
- Otp.Newest: the database's order among records created at the same instant is unspecified. The model picks the first in table order.
- `created_at` is taken as the same instant as the clock reading that sets `expires_at`.
- The router module as written does not load. The hardcoded `SERVICES` list (booking.py:19-24) builds `Service` objects without the `description`, `created_at` and `updated_at` fields that the `Service` schema requires (backend/app/models/schemas.py:22-37). Importing booking.py therefore raises a pydantic ValidationError, and so does importing `main.py`, which imports the router at its line 3: as written, no endpoint is ever served. The model assumes the module has loaded and models each endpoint as its body runs.
- `get_services` (booking.py:63-65) only returns that list, and is not modelled.
- `send_otp` (booking.py:26-34) sends no e-mail: it calls `create_otp_record`, modelled as `Otp.OtpTable.CreateOtpRecord`, and prints the code. The print is not modelled.
- Concurrency between requests and between dashboard fetches is not modelled: each call runs to completion in turn.

## Findings

| source | as written | input that shows it | evidently intended | confidence | as-written member | corrected member |
|---|---|---|---|---|---|---|
| backend/app/routers/booking.py:43 | the endpoint reads `otp_request.datetime`, but the request model has no `datetime` field; this raises AttributeError after `verify_otp` has already spent the code | one unused, unexpired code for the contact, sent with its date and time: the first request raises, and the retry is told "Invalid or expired OTP" | the booking is made at the slot the request's date and time denote, unless that slot is taken | not executed | BookingRouter.EndpointAsWritten, BookingRouter.FreshCodeBooksOnlyWhenCorrected | BookingRouter.Endpoint, BookingRouter.EndpointBooksFreeSlots |
| backend/app/utils/otp.py:12 | `from datetime import datetime` binds the class, so `datetime.timezone.utc` (lines 12, 34, 41) raises AttributeError: `create_otp_record` raises before writing any record, and `verify_otp` raises after counting the contact's records (line 29) but before it looks at any code | any contact: `create_otp_record` raises, and so does `verify_otp` for any code | the clock is read as `datetime.now(timezone.utc)`, so codes are issued for ten minutes and verify once | not executed | Otp.CreateOtpRecordAsWritten, Otp.OtpAsWrittenAlwaysRaises | Otp.OtpTable.CreateOtpRecord, Otp.NewCodeVerifies |
| frontend/src/utils/appointmentUtils.js:146 | when the end cannot be computed, the fallback calls `toISOString` on the start's `Date`, outside any `try`; an invalid start throws a RangeError and `bookings.map` loses every event | one booking dated `not-a-date` at `10:00` among any others: no engine parses its start, so the call throws and no event is shown | a booking whose start is no valid date-time is skipped like the other malformed bookings, and the rest are shown | not executed | AppointmentUtils.BookingsToEvents, AppointmentUtils.InvalidDateLosesBatch | AppointmentUtils.BookingsToEventsSkipping, AppointmentUtils.SkippingDropsOnlyBad |
| frontend/src/redux/slices/bookingsSlice.js:43-44 | coalescing joins ranges that start within a day of the previous end (lines 21-22), but placing the new range joins it only to a range it meets | cached `1970-01-01` to `1970-01-02`, new `1970-01-03` to `1970-01-05`: the first merge keeps two ranges, and merging the same range again joins them into `1970-01-01` to `1970-01-05` | merging the same range twice gives the same cache as merging it once | not executed | BookingsSlice.Merged, BookingsSlice.MergeTwiceDiffers | BookingsSlice.MergedCoalescing, BookingsSlice.MergedCoalescingIdempotent |

The corrected endpoint, and the as-written endpoint that shows the first finding, both use the corrected `verify_otp` of the second finding. The store's `addDateRange` reducer and the `useBookings` hook keep the as-written `mergeDateRanges`, and nothing else in the model calls `bookingsToEvents`: the corrected merge and conversion stand beside them, with their properties proved, so that the reducers stay as the source runs them.
