/** The entities the booking views exchange with the outside world: the stored
    OAuth credential, the calendar provider's requests, and the trace of
    external effects a request causes. The provider, the OAuth library's
    refresh exchange and the ISO 8601 parser are not modelled; they are given
    to every operation as the functions of an `Externals` value. */
module External {
  import opened Wrappers

  /** The credential record kept in the token file. `expired` is what the
      OAuth library computes from the expiry and the clock. */
  datatype Credential = Credential(token: string, refreshToken: Option<string>, expired: bool)

  /** Python truthiness of `credentials.refresh_token`: present and non-empty. */
  predicate HasRefreshToken(c: Credential)
  {
    c.refreshToken.Some? && c.refreshToken.value != ""
  }

  /** Timestamps are whole minutes; a window is the pair (timeMin, timeMax)
      sent to the provider's event listing. */
  datatype Window = Window(timeMin: int, timeMax: int)

  /** One item returned by the provider's listing; its content plays no role. */
  datatype ListedEvent = ListedEvent(id: string, summary: string)

  datatype Reminder = Reminder(kind: string, minutes: int)

  /** The start of an event is the caller's text; the end is a computed time. */
  datatype StartTime = StartTime(dateTime: string, timeZone: string)
  datatype EndTime = EndTime(minute: int, timeZone: string)

  /** The event body handed to the provider's insert call. */
  datatype EventSpec = EventSpec(
    summary: string,
    description: string,
    start: StartTime,
    end: EndTime,
    attendees: seq<string>,
    useDefaultReminders: bool,
    overrides: seq<Reminder>)

  /** An observable external effect, in the order it happens. */
  datatype Effect =
    | RefreshToken(expiring: Credential) // the OAuth refresh exchange
    | WriteTokenFile(saved: Credential) // the token file is overwritten
    | ListEvents(window: Window)         // events().list over a window
    | InsertEvent(spec: EventSpec)       // events().insert

  /** The library and provider behaviour the views call into. An `Err`
      carries the text of the exception the library raises. */
  datatype Externals = Externals(
    fromIsoFormat: string -> Option<int>,
    refresh: Credential -> Result<Credential, string>,
    list: (Credential, Window) -> Result<seq<ListedEvent>, string>,
    insert: (Credential, EventSpec) -> Result<string, string>)

  /** What a step of a request yields: its value, the token file afterwards
      and the effects it caused. */
  datatype Step<+T> = Step(value: T, store: Option<Credential>, effects: seq<Effect>)

  predicate NoInsert(effects: seq<Effect>)
  {
    forall e | e in effects :: !e.InsertEvent?
  }

  predicate NoListing(effects: seq<Effect>)
  {
    forall e | e in effects :: !e.ListEvents?
  }
}
