/** The token file and `refresh_access_token_if_needed`: load the stored
    credential, refresh it through the OAuth library when it has expired and
    can be refreshed, and write the refreshed credential back. */
module TokenStore {
  import opened Wrappers
  import opened External

  /** What one load of the token file gives the caller: nothing (no file),
      the credential, or the exception raised by the refresh exchange. */
  datatype LoadOutcome = NoTokenFile | Loaded(cred: Credential) | RefreshRaised(detail: string)

  /** Refresh is attempted exactly for an expired credential that carries a
      refresh token. */
  predicate NeedsRefresh(c: Credential)
  {
    c.expired && HasRefreshToken(c)
  }

  /** One call of the loader, as a function of the token file's content.
      The token file is overwritten only after a successful refresh, and a
      file that exists is never removed. */
  function LoadCredentials(stored: Option<Credential>,
                           refresh: Credential -> Result<Credential, string>): (r: Step<LoadOutcome>)
    ensures stored.None? ==> r == Step(NoTokenFile, None, [])
    ensures stored.Some? ==> r.store.Some? && !r.value.NoTokenFile?
    ensures r.effects != [] <==> stored.Some? && NeedsRefresh(stored.value)
    ensures stored.Some? && !NeedsRefresh(stored.value) ==> r == Step(Loaded(stored.value), stored, [])
    ensures r.store != stored ==> stored.Some? && NeedsRefresh(stored.value)
    ensures forall c | WriteTokenFile(c) in r.effects :: r.value == Loaded(c) && r.store == Some(c)
    ensures r.value.Loaded? && r.store != stored ==> WriteTokenFile(r.value.cred) in r.effects
    ensures r.value.RefreshRaised? ==> r.store == stored && r.effects == [RefreshToken(stored.value)]
    ensures forall e | e in r.effects :: e.RefreshToken? || e.WriteTokenFile?
    // a successful refresh returns the refreshed credential and saves it
    ensures stored.Some? && NeedsRefresh(stored.value) && refresh(stored.value).Ok? ==>
              var refreshed := refresh(stored.value).value;
              r == Step(Loaded(refreshed), Some(refreshed), [RefreshToken(stored.value), WriteTokenFile(refreshed)])
    // a failed refresh raises its error and leaves the file as it was
    ensures stored.Some? && NeedsRefresh(stored.value) && refresh(stored.value).Err? ==>
              r == Step(RefreshRaised(refresh(stored.value).error), stored, [RefreshToken(stored.value)])
  {
    match stored
    case None => Step(NoTokenFile, None, [])
    case Some(c) =>
      if NeedsRefresh(c) then
        match refresh(c)
        case Ok(refreshed) => Step(Loaded(refreshed), Some(refreshed), [RefreshToken(c), WriteTokenFile(refreshed)])
        case Err(detail) => Step(RefreshRaised(detail), stored, [RefreshToken(c)])
      else
        Step(Loaded(c), stored, [])
  }

  /** The token file of the running service: one stored credential or none. */
  class TokenFile {
    var stored: Option<Credential>

    constructor (initial: Option<Credential>)
      ensures stored == initial
    {
      stored := initial;
    }

    /** `refresh_access_token_if_needed`: returns what was loaded and the
        effects, and overwrites the file exactly as `LoadCredentials` says. */
    method RefreshIfNeeded(refresh: Credential -> Result<Credential, string>)
      returns (outcome: LoadOutcome, effects: seq<Effect>)
      modifies this
      ensures Step(outcome, stored, effects) == LoadCredentials(old(stored), refresh)
      ensures old(stored).None? ==> outcome == NoTokenFile && stored == None && effects == []
      ensures old(stored).Some? && !NeedsRefresh(old(stored).value) ==>
                outcome == Loaded(old(stored).value) && stored == old(stored) && effects == []
      ensures stored != old(stored) ==> old(stored).Some? && NeedsRefresh(old(stored).value)
                                        && outcome == Loaded(stored.value)
    {
      if stored.None? {
        return NoTokenFile, [];
      }
      var c := stored.value;
      if c.expired && HasRefreshToken(c) {
        var reply := refresh(c);
        if reply.Ok? {
          stored := Some(reply.value);
          outcome := Loaded(reply.value);
          effects := [RefreshToken(c), WriteTokenFile(reply.value)];
        } else {
          outcome := RefreshRaised(reply.error);
          effects := [RefreshToken(c)];
        }
      } else {
        outcome := Loaded(c);
        effects := [];
      }
    }
  }
}
