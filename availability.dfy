/** `check_appointment`: normalise the requested time, parse it, form the
    30-minute candidate slot and ask the provider whether any event falls in it. */
module Availability {
  import opened Wrappers
  import opened External
  import opened TokenStore

  /** Length of every candidate slot and of every created event, in minutes. */
  const SlotMinutes := 30

  /** The candidate slot starting at `start`. */
  function Slot(start: int): Window
  {
    Window(start, start + SlotMinutes)
  }

  /** `str.replace(' ', '+')`: every space becomes a plus sign, every other
      character is kept in place. */
  function ReplaceSpaces(s: string): (r: string)
    ensures |r| == |s|
    ensures forall i | 0 <= i < |s| :: r[i] == (if s[i] == ' ' then '+' else s[i])
  {
    if s == [] then []
    else [if s[0] == ' ' then '+' else s[0]] + ReplaceSpaces(s[1..])
  }

  /** The preprocessing of the requested time: the replacement is applied
      only when a space occurs. */
  function Normalize(s: string): (r: string)
    ensures ' ' in s ==> r == ReplaceSpaces(s)
    ensures ' ' !in s ==> r == s
    ensures ' ' !in r
  {
    if ' ' in s then ReplaceSpaces(s) else s
  }

  /** Replacement leaves a string without spaces as it is. */
  lemma ReplaceSpacesWithoutSpaces(s: string)
    requires ' ' !in s
    ensures ReplaceSpaces(s) == s
  {
  }

  /** The guard in front of the replacement changes nothing: normalising is
      replacing every space. */
  lemma NormalizeIsReplaceSpaces(s: string)
    ensures Normalize(s) == ReplaceSpaces(s)
  {
    if ' ' !in s {
      ReplaceSpacesWithoutSpaces(s);
    }
  }

  /** A normalised time has no space, is as long as the input and differs
      from it exactly where the input had a space. */
  lemma NormalizeReplacesEverySpace(s: string)
    ensures ' ' !in Normalize(s)
    ensures |Normalize(s)| == |s|
    ensures forall i | 0 <= i < |s| :: s[i] == ' ' <==> Normalize(s)[i] == '+' && s[i] != '+'
    ensures forall i | 0 <= i < |s| && s[i] != ' ' :: Normalize(s)[i] == s[i]
  {
    NormalizeIsReplaceSpaces(s);
  }

  /** Normalising twice is normalising once. */
  lemma NormalizeIdempotent(s: string)
    ensures Normalize(Normalize(s)) == Normalize(s)
  {
    NormalizeReplacesEverySpace(s);
  }

  /** A date and a time separated by one space reach the parser separated
      by '+' instead (as "2024-06-01 10:00:00" becomes "2024-06-01+10:00:00"). */
  lemma NormalizeSeparator(date: string, time: string)
    requires ' ' !in date && ' ' !in time
    ensures Normalize(date + " " + time) == date + "+" + time
  {
    var s, t := date + " " + time, date + "+" + time;
    NormalizeIsReplaceSpaces(s);
    forall i | 0 <= i < |s|
      ensures ReplaceSpaces(s)[i] == t[i]
    {
      if i < |date| {
        assert s[i] == date[i] == t[i];
      } else if i > |date| {
        assert s[i] == time[i - |date| - 1] == t[i];
      }
    }
  }

  /** The exceptions that leave `check_appointment` or the create view:
      the two the service raises itself with its own text, and those raised
      by the libraries it calls. */
  datatype Fault =
    | Raised(message: string)       // `raise Exception(...)` in the service
    | RefreshFailed(detail: string)  // the OAuth refresh exchange failed
    | ProviderFailed(detail: string) // events().list or events().insert failed
    | IsoFormatInvalid(input: string) // `fromisoformat` rejected the raw time

  /** `check_appointment(date_time)`: `Ok(true)` when the slot is booked,
      `Ok(false)` when it is free, `Err` for the exception it raises. */
  function CheckAppointment(dateTime: string, stored: Option<Credential>, ext: Externals)
    : (r: Step<Result<bool, Fault>>)
    // no token file: fails before parsing and before any provider call
    ensures stored.None? ==> r == Step(Err(Raised("No tokens found")), None, [])
    // only the credential load touches the token file
    ensures r.store == LoadCredentials(stored, ext.refresh).store
    ensures NoInsert(r.effects)
    // every listing asks about the 30-minute slot at the parsed, normalised time
    ensures forall w | ListEvents(w) in r.effects ::
              ext.fromIsoFormat(Normalize(dateTime)) == Some(w.timeMin) && w.timeMax == w.timeMin + SlotMinutes
    // a failed refresh is reported as such, and only a failed refresh is
    ensures forall d :: LoadCredentials(stored, ext.refresh).value == RefreshRaised(d) <==>
                        r.value == Err(RefreshFailed(d))
    ensures LoadCredentials(stored, ext.refresh).value.RefreshRaised? ==>
              r.effects == LoadCredentials(stored, ext.refresh).effects
    // an unparseable time is reported with its normalised text, and nothing is listed
    ensures LoadCredentials(stored, ext.refresh).value.Loaded? && ext.fromIsoFormat(Normalize(dateTime)).None? ==>
              r.value == Err(Raised("Invalid datetime format: " + Normalize(dateTime)))
    ensures ext.fromIsoFormat(Normalize(dateTime)).None? ==> NoListing(r.effects)
    // without both a credential and a parsed time, the load's effects are all there is
    ensures !LoadCredentials(stored, ext.refresh).value.Loaded? || ext.fromIsoFormat(Normalize(dateTime)).None? ==>
              r.effects == LoadCredentials(stored, ext.refresh).effects
    // loaded credentials and a parseable time always lead to the listing of
    // the slot; its answer decides the verdict or the provider failure
    ensures LoadCredentials(stored, ext.refresh).value.Loaded? && ext.fromIsoFormat(Normalize(dateTime)).Some? ==>
              var load := LoadCredentials(stored, ext.refresh);
              var window := Slot(ext.fromIsoFormat(Normalize(dateTime)).value);
              var reply := ext.list(load.value.cred, window);
              r.effects == load.effects + [ListEvents(window)]
              && (reply.Ok? ==> r.value == Ok(|reply.value| > 0))
              && (reply.Err? ==> r.value == Err(ProviderFailed(reply.error)))
    // a verdict is given exactly when the provider answered the listing, and
    // it is "booked" exactly when that answer holds at least one event
    ensures r.value.Ok? <==>
              exists w :: ListEvents(w) in r.effects && r.effects[|r.effects| - 1] == ListEvents(w)
                          && LoadCredentials(stored, ext.refresh).value.Loaded?
                          && ext.list(LoadCredentials(stored, ext.refresh).value.cred, w).Ok?
    ensures r.value.Ok? ==>
              var load := LoadCredentials(stored, ext.refresh);
              var t := ext.fromIsoFormat(Normalize(dateTime)).value;
              load.value.Loaded? && ext.fromIsoFormat(Normalize(dateTime)).Some?
              && r.effects == load.effects + [ListEvents(Slot(t))]
              && r.value.value == (|ext.list(load.value.cred, Slot(t)).value| > 0)
  {
    var load := LoadCredentials(stored, ext.refresh);
    match load.value
    case NoTokenFile => Step(Err(Raised("No tokens found")), load.store, load.effects)
    case RefreshRaised(detail) => Step(Err(RefreshFailed(detail)), load.store, load.effects)
    case Loaded(cred) =>
      var normalized := Normalize(dateTime);
      match ext.fromIsoFormat(normalized)
      case None => Step(Err(Raised("Invalid datetime format: " + normalized)), load.store, load.effects)
      case Some(start) =>
        var window := Slot(start);
        var effects := load.effects + [ListEvents(window)];
        match ext.list(cred, window)
        case Err(detail) => Step(Err(ProviderFailed(detail)), load.store, effects)
        case Ok(events) => Step(Ok(|events| > 0), load.store, effects)
  }
}
