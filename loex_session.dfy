/** The authenticated HTTP session of `loex_api`: handshake, poll and write, with the
    close-and-re-authenticate-once rule on transport exceptions. The network is a
    parameter: each call is handed the outcome its request gets. */
module LoexSession {
  import opened Fields
  import opened LoexApi

  /** The reply to the handshake request GET /jwt/?id=..&plant=.. . */
  datatype AuthReply = AuthResponse(status: int, text: string) | AuthRaised

  /** The reply to GET /<device>/input.json; `ReadRaised` is any RequestException,
      which includes a body that is not JSON. */
  datatype ReadReply = ReadResponse(table: RegisterTable) | ReadRaised

  /** The reply to POST /<device>/output.json. */
  datatype WriteReply = WriteResponse(status: int) | WriteRaised

  /** What the session did, in order. */
  datatype Event =
    | Handshake(username: string, password: string, deviceId: string, plant: string)
    | Poll(deviceId: string, token: string)
    | Post(deviceId: string, username: string, password: string, body: string)
    | CloseSession

  datatype ApiError =
    | CannotConnect             // a transport exception, after the one re-authentication
    | WriteToRemoteDeviceError  // the controller answered a write with a status other than 200
    | RequestFailed             // the re-authentication itself raised; that exception escapes
    | NotConnected              // no device id or no session: TypeError/AttributeError before any request
    | PayloadUnbound            // set_circuit_target_temperature with a mode other than 1 or 2

  datatype Result<T> = Ok(value: T) | Err(error: ApiError)

  const Success := 200

  class Api {
    var authorization: Option<string>
    var deviceId: Option<string>
    var username: Option<string>
    var password: Option<string>
    var plant: Option<string>
    /** True while a requests.Session object is held. */
    var session: bool
    /** The requests sent and sessions closed, in order (the abstract transport's log). */
    var events: seq<Event>

    /** Credentials and token are stored together, by a successful handshake only. */
    ghost predicate Valid()
      reads this
    {
      && (deviceId.Some? <==> username.Some?)
      && (deviceId.Some? <==> password.Some?)
      && (deviceId.Some? <==> plant.Some?)
      && (deviceId.Some? <==> authorization.Some?)
    }

    constructor ()
      ensures Valid() && !session && events == []
      ensures authorization.None? && deviceId.None? && username.None?
      ensures password.None? && plant.None?
    {
      authorization, deviceId, username, password, plant := None, None, None, None, None;
      session := false;
      events := [];
    }

    /** `authenticate`: opens a new session and performs the handshake. */
    method Authenticate(user: string, pass: string, device: string, plantName: string, reply: AuthReply)
      returns (r: Result<bool>)
      requires Valid()
      modifies this
      ensures Valid() && session == (reply.AuthRaised? || reply.status == Success)
      ensures events == old(events) + [Handshake(user, pass, device, plantName)]
      ensures reply.AuthResponse? && reply.status == Success ==>
                && r == Ok(true) && authorization == Some(reply.text)
                && username == Some(user) && password == Some(pass)
                && deviceId == Some(device) && plant == Some(plantName)
      ensures !(reply.AuthResponse? && reply.status == Success) ==>
                && r == (if reply.AuthRaised? then Err(RequestFailed) else Ok(false))
                && authorization == old(authorization) && username == old(username)
                && password == old(password) && deviceId == old(deviceId) && plant == old(plant)
    {
      session := true;
      events := events + [Handshake(user, pass, device, plantName)];
      match reply
      case AuthRaised =>
        r := Err(RequestFailed);
      case AuthResponse(status, text) =>
        if status == Success {
          username, password, deviceId, plant := Some(user), Some(pass), Some(device), Some(plantName);
          authorization := Some(text);
          r := Ok(true);
        } else {
          session := false;
          r := Ok(false);
        }
    }

    /** The except branch of `get_data` and `save_data`: close the session and
        re-authenticate once with the stored credentials. */
    method Reconnect(reauth: AuthReply) returns (e: ApiError)
      requires Valid() && deviceId.Some?
      modifies this
      ensures Valid()
      ensures events == old(events) + [CloseSession,
                Handshake(old(username).value, old(password).value, old(deviceId).value, old(plant).value)]
      ensures e == if reauth.AuthRaised? then RequestFailed else CannotConnect
      ensures session == (reauth.AuthRaised? || reauth.status == Success)
      ensures username == old(username) && password == old(password)
      ensures deviceId == old(deviceId) && plant == old(plant)
      ensures authorization ==
                if reauth.AuthResponse? && reauth.status == Success then Some(reauth.text)
                else old(authorization)
    {
      session := false;
      events := events + [CloseSession];
      var ok := Authenticate(username.value, password.value, deviceId.value, plant.value, reauth);
      e := if reauth.AuthRaised? then RequestFailed else CannotConnect;
    }

    /** `get_data`: one poll, decoded on success. */
    method GetData(read: ReadReply, reauth: AuthReply) returns (r: Result<Snapshot>)
      requires Valid()
      modifies this
      ensures Valid()
      ensures old(deviceId).None? || !old(session) ==>
                r == Err(NotConnected) && events == old(events) && unchanged(this)
      ensures old(deviceId).Some? && old(session) && read.ReadResponse? ==>
                && r == Ok(Decode(read.table))
                && events == old(events) + [Poll(old(deviceId).value, old(authorization).value)]
                && session && authorization == old(authorization) && deviceId == old(deviceId)
                && username == old(username) && password == old(password) && plant == old(plant)
      ensures old(deviceId).Some? && old(session) && read.ReadRaised? ==>
                && r == Err(if reauth.AuthRaised? then RequestFailed else CannotConnect)
                && events == old(events) + [Poll(old(deviceId).value, old(authorization).value),
                     CloseSession,
                     Handshake(old(username).value, old(password).value, old(deviceId).value, old(plant).value)]
                && session == (reauth.AuthRaised? || reauth.status == Success)
                && deviceId == old(deviceId) && username == old(username)
                && password == old(password) && plant == old(plant)
                && authorization == (if reauth.AuthResponse? && reauth.status == Success
                                     then Some(reauth.text) else old(authorization))
    {
      if deviceId.None? || !session {
        return Err(NotConnected);
      }
      events := events + [Poll(deviceId.value, authorization.value)];
      match read
      case ReadResponse(table) =>
        var snapshot := ExtractFromApiData(table);
        r := Ok(snapshot);
      case ReadRaised =>
        var e := Reconnect(reauth);
        r := Err(e);
    }

    /** `save_data`: one write of a text body. */
    method SaveData(body: string, write: WriteReply, reauth: AuthReply) returns (r: Result<()>)
      requires Valid()
      modifies this
      ensures Valid()
      ensures old(deviceId).None? || !old(session) ==>
                r == Err(NotConnected) && events == old(events) && unchanged(this)
      ensures old(deviceId).Some? && old(session) && write.WriteResponse? ==>
                && r == (if write.status == Success then Ok(()) else Err(WriteToRemoteDeviceError))
                && events == old(events) +
                     [Post(old(deviceId).value, old(username).value, old(password).value, body)]
                && session && authorization == old(authorization) && deviceId == old(deviceId)
                && username == old(username) && password == old(password) && plant == old(plant)
      ensures old(deviceId).Some? && old(session) && write.WriteRaised? ==>
                && r == Err(if reauth.AuthRaised? then RequestFailed else CannotConnect)
                && events == old(events) +
                     [Post(old(deviceId).value, old(username).value, old(password).value, body),
                      CloseSession,
                      Handshake(old(username).value, old(password).value, old(deviceId).value, old(plant).value)]
                && session == (reauth.AuthRaised? || reauth.status == Success)
                && deviceId == old(deviceId) && username == old(username)
                && password == old(password) && plant == old(plant)
                && authorization == (if reauth.AuthResponse? && reauth.status == Success
                                     then Some(reauth.text) else old(authorization))
    {
      if deviceId.None? || !session {
        return Err(NotConnected);
      }
      events := events + [Post(deviceId.value, username.value, password.value, body)];
      match write
      case WriteRaised =>
        var e := Reconnect(reauth);
        r := Err(e);
      case WriteResponse(status) =>
        r := if status == Success then Ok(()) else Err(WriteToRemoteDeviceError);
    }

    /** The four `set_*` methods: encode the command, then `save_data`. */
    method Send(c: Command, write: WriteReply, reauth: AuthReply) returns (r: Result<()>)
      requires Valid()
      modifies this
      ensures Valid()
      ensures CommandPayload(c).None? ==> r == Err(PayloadUnbound) && unchanged(this)
      ensures CommandPayload(c).Some? && (old(deviceId).None? || !old(session)) ==>
                r == Err(NotConnected) && unchanged(this)
      ensures CommandPayload(c).Some? && old(deviceId).Some? && old(session) && write.WriteResponse? ==>
                && r == (if write.status == Success then Ok(()) else Err(WriteToRemoteDeviceError))
                && events == old(events) +
                     [Post(old(deviceId).value, old(username).value, old(password).value,
                           PayloadText(CommandPayload(c).value))]
                && session && authorization == old(authorization) && deviceId == old(deviceId)
                && username == old(username) && password == old(password) && plant == old(plant)
      ensures CommandPayload(c).Some? && old(deviceId).Some? && old(session) && write.WriteRaised? ==>
                && r == Err(if reauth.AuthRaised? then RequestFailed else CannotConnect)
                && events == old(events) +
                     [Post(old(deviceId).value, old(username).value, old(password).value,
                           PayloadText(CommandPayload(c).value)),
                      CloseSession,
                      Handshake(old(username).value, old(password).value, old(deviceId).value, old(plant).value)]
                && session == (reauth.AuthRaised? || reauth.status == Success)
                && deviceId == old(deviceId) && username == old(username)
                && password == old(password) && plant == old(plant)
                && authorization == (if reauth.AuthResponse? && reauth.status == Success
                                     then Some(reauth.text) else old(authorization))
    {
      var p := CommandPayload(c);
      if p.None? {
        return Err(PayloadUnbound);
      }
      r := SaveData(PayloadText(p.value), write, reauth);
    }
  }

  /** Polling before any successful handshake sends nothing and fails. */
  method PollBeforeHandshake(read: ReadReply, reauth: AuthReply) returns (r: Result<Snapshot>, sent: nat)
    ensures r == Err(NotConnected) && sent == 0
  {
    var api := new Api();
    r := api.GetData(read, reauth);
    sent := |api.events|;
  }

  /** A transport exception during a poll costs the poll, one close and exactly one
      handshake with the stored credentials, and the poll fails with CannotConnect
      whatever the handshake answers. */
  method PollDropReauthenticatesOnce(user: string, pass: string, device: string, plantName: string,
                                     token: string, reauth: AuthReply)
    returns (r: Result<Snapshot>, sent: seq<Event>)
    requires reauth.AuthResponse?
    ensures r == Err(CannotConnect)
    ensures sent == [Poll(device, token), CloseSession, Handshake(user, pass, device, plantName)]
  {
    var api := new Api();
    var ok := api.Authenticate(user, pass, device, plantName, AuthResponse(Success, token));
    var before := |api.events|;
    r := api.GetData(ReadRaised, reauth);
    sent := api.events[before..];
  }

  /** Once the re-authentication after a drop is refused, the session is gone and
      every later poll fails before sending anything, even when the controller would
      answer. */
  method StuckAfterRefusedReauth(user: string, pass: string, device: string, plantName: string,
                                 token: string, table: RegisterTable, refusal: int)
    returns (first: Result<Snapshot>, later: Result<Snapshot>, sentLater: nat)
    requires refusal != Success
    ensures first == Err(CannotConnect)
    ensures later == Err(NotConnected) && sentLater == 0
  {
    var api := new Api();
    var ok := api.Authenticate(user, pass, device, plantName, AuthResponse(Success, token));
    first := api.GetData(ReadRaised, AuthResponse(refusal, ""));
    var before := |api.events|;
    later := api.GetData(ReadResponse(table), AuthResponse(Success, token));
    sentLater := |api.events| - before;
  }

  /** A rejected write does not reconnect: one POST and nothing else. */
  method RejectedWriteDoesNotReconnect(user: string, pass: string, device: string, plantName: string,
                                       token: string, p: Payload, status: int)
    returns (r: Result<()>, sent: seq<Event>)
    requires status != Success
    ensures r == Err(WriteToRemoteDeviceError)
    ensures sent == [Post(device, user, pass, PayloadText(p))]
  {
    var api := new Api();
    var ok := api.Authenticate(user, pass, device, plantName, AuthResponse(Success, token));
    var before := |api.events|;
    r := api.SaveData(PayloadText(p), WriteResponse(status), AuthResponse(Success, token));
    sent := api.events[before..];
  }
}
