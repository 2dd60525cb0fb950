/** The live channels (crates/channel-manager/src/sessions.rs): channel names and the
    SLIM session behind each. A session can end on its own, leaving its
    channel in the list. */
module Sessions {
  import opened Prelude

  type SessionId = nat

  datatype SessionError = NotFound | AlreadyClosed | DeleteFailed

  /** The SLIM app: the sessions it has open. */
  class App {
    var open: set<SessionId>

    constructor ()
      ensures open == {}
    {
      open := {};
    }
  }

  class SessionsList {
    var channels: map<string, SessionId>

    constructor ()
      ensures channels == map[]
    {
      channels := map[];
    }

    /** Inserts a channel unless it is listed already. */
    method AddSession(channel: string, session: SessionId) returns (added: bool)
      modifies this
      ensures added <==> channel !in old(channels)
      ensures channels == if added then old(channels)[channel := session] else old(channels)
    {
      if channel in channels {
        return false;
      }
      channels := channels[channel := session];
      return true;
    }

    /** A channel's session, if it is still open. */
    function GetSession(channel: string, app: App): (session: Option<SessionId>)
      reads this, app
      ensures session.Some? <==> channel in channels && channels[channel] in app.open
    {
      if channel in channels && channels[channel] in app.open then Some(channels[channel]) else None
    }

    /** Takes a channel off the list, then deletes its session: the channel is
        gone even when that fails. */
    method RemoveSession(channel: string, app: App, deleteFails: bool) returns (r: Result<(), SessionError>)
      modifies this, app
      ensures channels == old(channels) - {channel}
      ensures r == if channel !in old(channels) then Err(NotFound)
                   else if old(channels)[channel] !in old(app.open) then Err(AlreadyClosed)
                   else if deleteFails then Err(DeleteFailed)
                   else Ok(())
      ensures app.open == if r.Ok? then old(app.open) - {old(channels)[channel]} else old(app.open)
    {
      if channel !in channels {
        assert channels == channels - {channel};
        return Err(NotFound);
      }
      var session := channels[channel];
      channels := channels - {channel};
      if session !in app.open {
        return Err(AlreadyClosed);
      }
      if deleteFails {
        return Err(DeleteFailed);
      }
      app.open := app.open - {session};
      return Ok(());
    }
  }
}
