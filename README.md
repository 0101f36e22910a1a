# Appointment booking on a shared calendar — Dafny model

This project models the booking logic of a small Django service that checks
and books 30-minute appointments on one shared Google calendar. It covers four
pieces of `calendar_integration/views.py`:

- `refresh_access_token_if_needed`: load the single credential in the token
  file. Refresh it and overwrite the file only when it is expired and carries
  a refresh token.
- `check_appointment`: replace spaces in the requested time with `+`, parse
  it, form the window from start to start + 30 minutes, and ask the provider for
  events in that window. The slot is booked exactly when the list is non-empty.
- `CheckAppointmentView.get`: map that verdict or exception to a JSON response.
- `CreateAppointmentView.post`: validate the four fields, check the slot,
  refuse a booked slot, reload the credential, build the event, insert it, and
  answer with the success payload. Every exception raised from the
  availability check onwards becomes a 500 payload; a body that is not JSON is
  answered 400.

Modules:

- `Wrappers` holds `Option` and `Result`.
- `External` holds the entities exchanged with the outside world: the
  credential, the listing window, the event body, and the trace of external
  effects.
- `TokenStore` holds the loader. It is a pure function, `LoadCredentials`,
  and a class, `TokenFile`, whose method `RefreshIfNeeded` updates the stored
  credential in place and is proved equal to that function.
- `Availability` holds the normalisation and `check_appointment`.
- `Views` holds the two views.

The views are functions of three things: the request, the token file's
content, and an `Externals` value. They return a `Step`: the response, the
token file afterwards, and the effects in order. The effects are a refresh
exchange, a token-file write, an event listing or an event insert. Statements
such as "no insert happens" are about that trace.

Time is whole minutes (`int`). The ISO 8601 parser (`datetime.fromisoformat`)
is the abstract partial function `Externals.fromIsoFormat: string -> Option<int>`.
The OAuth refresh exchange and the provider's list and insert calls are also
`Externals` functions. Their `Err` carries the text of the exception the
library raises.

## Behaviour worth knowing

- An expired credential without a refresh token is returned unchanged; the loader raises no error for it (calendar_integration/views.py:55-62).
- Credentials are loaded before the requested time is parsed, so a missing token file wins over a malformed time (calendar_integration/views.py:85-97).
- With no token file, the create view answers 500 "Error creating event: No tokens found". Its own redirect to the authorization flow (calendar_integration/views.py:154-155) is unreachable: the second load always finds the file that the first load found.

## Model

| member | source | states |
|---|---|---|
| `TokenStore.LoadCredentials` | calendar_integration/views.py:45-62 | No token file gives "no credentials" and no effect. A refresh is attempted exactly when the stored credential is expired and has a non-empty refresh token. A successful refresh returns the refreshed credential and overwrites the file with it. A failed refresh raises its error and leaves the file as it was. Without the need to refresh, the stored credential is returned unchanged and the file is untouched. A file that exists is never removed. |
| `TokenStore.TokenFile.RefreshIfNeeded` | calendar_integration/views.py:45-62 | The new file content, the outcome and the effects are those of `LoadCredentials` on the old content. The file changes only by a refresh of an expired credential that has a refresh token, and then holds the returned credential. |
| `Availability.ReplaceSpaces` | calendar_integration/views.py:93-94 | Replacing spaces keeps the length, turns every space into `+`, and keeps every other character in place. |
| `Availability.ReplaceSpacesWithoutSpaces` | calendar_integration/views.py:93-94 | A string without spaces is left unchanged by the replacement. |
| `Availability.NormalizeIsReplaceSpaces` | calendar_integration/views.py:93-94 | The `' ' in date_time` guard is redundant: normalising always equals replacing every space. |
| `Availability.Normalize` | calendar_integration/views.py:93-94 | The time the parser sees: with a space in the input it is the full replacement; a time without a space reaches the parser unchanged. Either way it contains no space. |
| `Availability.NormalizeReplacesEverySpace` | calendar_integration/views.py:93-94 | A normalised time contains no space and keeps the input's length. Every space becomes `+`, and every other character is kept in place. |
| `Availability.NormalizeIdempotent` | calendar_integration/views.py:93-94 | Normalising twice gives the same result as normalising once. |
| `Availability.NormalizeSeparator` | calendar_integration/views.py:91-95 | A date and a time separated by one space reach the parser separated by `+`, as `2024-06-01 10:00:00` becomes `2024-06-01+10:00:00`. |
| `Availability.CheckAppointment` | calendar_integration/views.py:84-116 | With no token file it fails with "No tokens found" before parsing and with no provider call. A failed refresh is reported as that refresh error, and only a failed refresh is. With loaded credentials, an unparseable time fails with "Invalid datetime format: " and the normalised text, and nothing is listed. With loaded credentials and a parseable normalised time, it always lists the 30-minute window at that time, once, as its last effect. The verdict is "booked" exactly when the answer is non-empty, whatever the events contain; a provider error is reported as such. It never inserts, and it changes the token file only through the credential load. |
| `Views.CheckAppointmentGet` | calendar_integration/views.py:119-129 | A missing or empty `date_time` gives 400 with no effect. A response of 200 `True` means booked and 200 `False` means free, exactly as `check_appointment` decides. A 500 with "Error checking appointment: " happens exactly when `check_appointment` raises, and it carries that exception. The view never redirects and never inserts. |
| `Views.DatePart` | calendar_integration/views.py:184 | The success date is a prefix of the raw time that contains no `T`. It is either the whole string or stops at the first `T`. |
| `Views.DatePartOfDateTime` | calendar_integration/views.py:184 | For a date-time `date + "T" + time` whose date has no `T`, the success date is exactly the date. |
| `Views.CreateAppointmentPost` | calendar_integration/views.py:132-191 | A body that is not JSON gives 400 "Invalid JSON". A missing or falsy field gives 400 "All fields are required" with no check and no insert. With no token file the answer is a 500 error payload ("No tokens found") with no effect; the view never redirects. An exception from the check becomes a 500 payload carrying it. A booked slot gives 400 "Sorry, date already booked…" and no insert. For a free slot the credential is reloaded, the raw time is parsed, and the event of `BookingEvent` ending 30 minutes after it is inserted. The first of these that fails gives a 500 payload with its own cause (refresh error, parser rejection, provider error). If all succeed the answer is 200 `SUCCESS` with the date before the first `T` and the three fields echoed. An insert happens at most once, as the last effect, and only for a slot found free. |
| `Views.BookFreeSlot` | calendar_integration/views.py:153-188 | After a free slot: the credential is reloaded, the raw time is parsed, and the event of `BookingEvent` ending 30 minutes after it is inserted. The first of these that fails gives a 500 "Error creating event: " payload with its own cause (refresh error, parser rejection, provider error); if all succeed the answer is 200 `SUCCESS` with the date before the first `T` and the three fields echoed. With no token file it redirects to `/authorize` with no further effect; a token file that the check found is found again, so from the create view that redirect is never taken. The insert is the last effect and the only one. |
| `Views.BookingEvent` | calendar_integration/views.py:159-178 | The name, email (as the only attendee), raw start time and end time of the booking can be read back from the event, and the description is "Contact Number: " followed by the contact number. Both ends are in America/Los_Angeles, default reminders are off, and the overrides are exactly an email 24 × 60 minutes before and a popup 10 minutes before. |
| `Views.InsertOnlyWhenCheckViewReportsFree` | calendar_integration/views.py:148-180 | The create view inserts only when the check view, asked about the same time with the same token file, would answer `False`. |
| `Views.CreateRefusesExactlyWhatCheckViewReportsBooked` | calendar_integration/views.py:149-151 | For a complete request, the create view answers "already booked" exactly when the check view answers `True`. |
| `Views.EventCoversCheckedSlot` | calendar_integration/views.py:163-167 | When the requested time has no space, the inserted event's 30-minute span is exactly the window that was listed. |
| `Views.RawTimeParsedAgainForEventEnd` | calendar_integration/views.py:166-167 | The event end is computed from the raw, un-normalised time. Suppose a time parses only after normalisation, passes the check with the slot free, and the second credential load succeeds. Then the create view lists the slot, inserts nothing, and answers 500 with the parser's rejection of the raw time. |

## Left out

- The OAuth redirect flow (`GoogleCalendarInitView`, `GoogleCalendarRedirectView`) and the event listing view (`GoogleCalendarEventsView`) contain no booking logic. They are library calls and a file write.
- The Google client calls (`events().list/insert().execute()`), `Credentials.refresh` and `datetime.fromisoformat` are foreign code. They are `Externals` parameters, so their behaviour (ISO 8601 grammar, `isoformat` output, the America/Los_Angeles zone rules, the provider's overlap rule and result cap) is not modelled. The listing window's bounds and the event end are minutes, not `isoformat` strings.
- `build('calendar', 'v3', ...)` (calendar_integration/views.py:89, 157) is not modelled: it is assumed to succeed, so an exception it raises is not covered.
- The token file is one `Option<Credential>` value. JSON (de)serialisation and file I/O are not modelled, and a credential is assumed to read back as it was written. `expired` is a flag, because the library computes it from the expiry and the clock.
- `CreateAppointmentView.post` fields are absent or strings. JSON values of other types (numbers, lists, booleans) and a JSON body that is not an object are not modelled. A body that is not JSON is `None`.
- Logging, `print` calls and the text of library exceptions are not modelled. A library exception is carried as its detail string, or for the parser as the raw time it rejected.
- The race between the availability check and the insert across concurrent requests is not modelled: each request is one sequential function.
- `calendar_integration/urls.py` is only the routing table.
- The `OverflowError` that `start + timedelta(minutes=30)` raises near the largest representable datetime (calendar_integration/views.py:99, 167) is not modelled: the service answers it with a 500, while the model, on unbounded minutes, goes on to list or insert.
- Views.BookFreeSlot: `expired` is fixed for the whole request, so a credential that expires between the check's load (calendar_integration/views.py:85) and the reload (calendar_integration/views.py:153) is not modelled; in the service that reload would refresh and rewrite the token file, or answer 500 with the refresh error.
