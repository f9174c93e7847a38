/**
 * The behaviours the repository's own tests check, replayed on fresh objects;
 * `now` is the instant of the call. The replies carry the record the test
 * server's body holds. The client tests label their SessionInfo replies
 * "text/xml", and so do these replies. The session tests' server sets no
 * content type, and net/http then labels the body "text/plain", which `Do`
 * decodes into nothing: `OpenUntypedScenario` shows what Open does with such
 * a reply.
 */
module Scenarios {
  import opened Errors
  import opened Http
  import opened Fritzbox
  import opened Devices
  import opened Commands
  import Hasher
  import Text

  /** A SessionInfo reply of the test servers, with the given session id and challenge "1234567z". */
  function SessionXml(sid: string): Exchange {
    Answered(Response(200, "text/xml", "", SessionInfo(Some(sid), Some("1234567z"), Some(0))))
  }

  /** A fresh session refreshes without error; once its expiry has passed, refreshing logs it out. */
  method RefreshScenario(now: nat) returns (first: Option<Error>, window: nat, second: Option<Error>, sid: string)
    ensures first == None && window == now + DefaultExpires
    ensures second == Some(SessionExpired) && sid == DefaultSid
  {
    var s := new Session(null);
    s.sid := "";
    first := s.Refresh(now);
    window := s.expires;
    s.expires := now + 1;
    second := s.Refresh(now + 6);
    sid := s.sid;
  }

  /** A session whose expiry lies five seconds back is expired; five seconds ahead, it is not. */
  method IsExpiredScenario(now: nat) returns (past: bool, future: bool)
    ensures past && !future
  {
    var s := new Session(null);
    s.sid := "ff88e4d39354992f";
    s.challenge := "1234567z";
    s.expires := now + 1;
    past := s.IsExpired(now + 6);
    s.expires := now + 5;
    future := s.IsExpired(now);
  }

  /** Closing a logged-in session resets its id only. */
  method CloseScenario() returns (sid: string, challenge: string)
    ensures sid == DefaultSid && challenge == "1234567z"
  {
    var s := new Session(null);
    s.sid := "ff88e4d39354992f";
    s.challenge := "1234567z";
    s.Close();
    sid, challenge := s.sid, s.challenge;
  }

  /** Opening fetches the challenge from an XML reply; the logged-out id stays. */
  method OpenScenario(now: nat) returns (err: Option<Error>, sid: string, challenge: string, ghost sent: nat)
    ensures err == None && sid == DefaultSid && challenge == "1234567z" && sent == 1
  {
    var c := new Client();
    var s := new Session(c);
    Fritzbox.XmlOnly();
    err := s.Open(SessionXml(DefaultSid), now);
    sid, challenge, sent := s.sid, s.challenge, |c.sent|;
  }

  /** The session tests' server as written: an unlabelled reply is not decoded, so Open succeeds without a challenge. */
  method OpenUntypedScenario(now: nat) returns (err: Option<Error>, challenge: string, ghost sent: nat)
    ensures err == None && challenge == "" && sent == 1
  {
    var c := new Client();
    var s := new Session(c);
    var ct := "text/plain; charset=utf-8";
    PlainIsNotDecoded(ct, "text/xml", "application/json");
    err := s.Open(Answered(Response(200, ct, "", SessionInfo(Some(DefaultSid), Some("1234567z"), Some(0)))), now);
    challenge, sent := s.challenge, |c.sent|;
  }

  lemma PlainIsNotDecoded(ct: string, xml: string, json: string)
    requires ct == "text/plain; charset=utf-8" && xml == "text/xml" && json == "application/json"
    ensures !Text.Contains(ct, xml) && !Text.Contains(ct, json)
  {
    assert xml[6] == 'm' && json[12] == 'j';
    assert 'm' !in ct && 'j' !in ct;
    Text.MissingCharacter(ct, xml, 6);
    Text.MissingCharacter(ct, json, 12);
  }

  /** Session.Auth takes the id the gateway hands out, and refuses the login when it is the default one. */
  method AuthScenario(md5: Hasher.Md5, now: nat) returns (ok: Option<Error>, granted: string, refused: Option<Error>, kept: string)
    ensures ok == None && granted == "ff88e4d39354992f"
    ensures refused == Some(InvalidCredentials) && kept == DefaultSid
  {
    Fritzbox.XmlOnly();
    var c := new Client();
    var s := new Session(c);
    s.challenge := "1234567z";
    ok := s.Auth("Username", "\U{00E4}bc", md5, SessionXml("ff88e4d39354992f"), now);
    granted := s.sid;
    var t := new Session(c);
    t.challenge := "1234567z";
    refused := t.Auth("Username", "\U{00E4}bz", md5, SessionXml(DefaultSid), now);
    kept := t.sid;
  }

  /** Client.Auth against a gateway that grants a session: no error, and the client holds the granted id. */
  method ClientAuthScenario(md5: Hasher.Md5, now: nat) returns (err: Option<Error>, sid: string, ghost sent: nat)
    ensures err == None && sid == "ff88e4d39354992f" && sent == 2
  {
    var c := new Client();
    c.session := new Session(c);
    var reply := Answered(Response(200, "text/xml", "", SessionInfo(Some("ff88e4d39354992f"), Some("1234567z"), None)));
    ClientLoginAcceptedExample(md5, reply, now);
    err := c.Auth("username", "\U{00E4}bc", md5, reply, reply, now);
    sid, sent := c.session.sid, |c.sent|;
  }

  /** Client.Auth against a gateway that answers with the default id: an error, and the session stays logged out. */
  method ClientAuthInvalidScenario(md5: Hasher.Md5, now: nat) returns (err: Option<Error>, sid: string)
    ensures err == Some(InvalidCredentials) && sid == DefaultSid
  {
    var c := new Client();
    c.session := new Session(c);
    var reply := Answered(Response(200, "text/xml", "", SessionInfo(Some(DefaultSid), Some("1234567z"), None)));
    ClientLoginRefusedExample(md5, reply, now);
    err := c.Auth("username", "\U{00E4}bc", md5, reply, reply, now);
    sid := c.session.sid;
  }

  /** A client without a session gets a new, logged-out one even when the gateway cannot be reached. */
  method ClientAuthNewSessionScenario(md5: Hasher.Md5, now: nat) returns (err: Option<Error>, created: bool, sid: string)
    ensures err == Some(TransportFailure) && created && sid == DefaultSid
  {
    var c := new Client();
    ClientLoginUnreachableExample(md5, Failed, now);
    err := c.Auth("username", "\U{00E4}bc", md5, Failed, Failed, now);
    created := c.session != null;
    sid := c.session.sid;
  }

  /** Client.Close logs the client's session out. */
  method ClientCloseScenario() returns (sid: string)
    ensures sid == DefaultSid
  {
    var c := new Client();
    var s := new Session(null);
    s.sid := "abc";
    c.session := s;
    c.Close();
    sid := s.sid;
  }

  /** Do with an expired session fails before anything is sent. */
  method DoSessionExpiredScenario(reply: Exchange, now: nat) returns (err: Option<Error>, ghost sent: nat)
    ensures err == Some(SessionExpired) && sent == 0
  {
    var c := new Client();
    c.session := new Session(c);
    c.session.expires := now + 1;
    PlainPathIsValid("/");
    var req := c.NewRequest(Method.Get, Ref("/", map[]), None).value;
    var e, _ := c.Do(req, Discard, reply, now + 2);
    err, sent := e, |c.sent|;
  }

  /** Do reports the 400 a gateway answers with, after sending the request. */
  method DoHttpErrorScenario(now: nat) returns (err: Option<Error>, ghost sent: nat)
    ensures err == Some(WrongStatus(400)) && sent == 1
  {
    var c := new Client();
    c.session := new Session(c);
    PlainPathIsValid("/");
    var req := c.NewRequest(Method.Get, Ref("/", map[]), None).value;
    var e, _ := c.Do(req, Discard, Answered(Response(400, "text/plain", "Bad Request", Malformed)), now);
    err, sent := e, |c.sent|;
  }

  /** A plain-text reply of the gateway. */
  function Plain(body: string): Exchange {
    Answered(Response(200, "text/plain", body, Malformed))
  }

  /** Switching on a socket sends setswitchon with the cleaned identifier and reports success. */
  method TurnOnSocketScenario(now: nat) returns (r: Result<bool>, ghost query: Query)
    ensures r == Success(true)
    ensures query == map["switchcmd" := ["setswitchon"], "ain" := ["12345678"]]
  {
    var c := new Client();
    var svc := new DeviceService(c);
    var d := Device(" 1234 5678", true, 512, "", "", "", false);
    var cmd := SocketCommand(d);
    r := svc.TurnOn(d, Plain(""), now);
    query := c.sent[0].url.query;
  }

  lemma SocketCommand(d: Device) returns (cmd: Command)
    requires d == Device(" 1234 5678", true, 512, "", "", "", false)
    ensures Precheck(d, true) == None && SwitchCommand(d, true) == Some(cmd)
    ensures BuildRequest(DefaultBase, None, Method.Get, CommandRef(cmd), None).url.query
      == map["switchcmd" := ["setswitchon"], "ain" := ["12345678"]]
  {
    assert IsSocket(d);
    CleanAinExample(d.identifier);
    cmd := SwitchCommand(d, true).value;
    SwitchQuery(d, true);
    var q := CommandQuery(cmd.name, cmd.params);
    assert q == map["switchcmd" := ["setswitchon"], "ain" := ["12345678"]];
  }

  /** A locked thermostat is refused before anything is sent. */
  method LockedScenario(now: nat) returns (r: Result<bool>, ghost sent: nat)
    ensures r == Failure(Locked("1234")) && sent == 0
  {
    var c := new Client();
    var svc := new DeviceService(c);
    r := svc.TurnOff(Device("1234", true, 64, "", "", "", true), Plain("253"), now);
    sent := |c.sent|;
  }

  /** Setting 24 degrees sends "48", and a gateway that echoes it back confirms the change. */
  method SetpointScenario(now: nat) returns (err: Option<Error>)
    ensures err == None
  {
    var c := new Client();
    var svc := new DeviceService(c);
    var d := Device("1234", true, 64, "", "", "", false);
    var param := SetpointParam(24.0);
    var echo := param + "\n";
    ThermostatReady(d);
    SetpointParamExample();
    EchoTrimmed(param, echo);
    assert c.Outcome(Plain(echo), Writer, now) == (None, Copied(echo));
    err := svc.SetSollTemperature(d, 24.0, Plain(echo), now);
  }

  /** A gateway that echoes another value than the "48" sent reports a mismatch carrying its reply. */
  method SetpointMismatchScenario(now: nat) returns (err: Option<Error>)
    ensures err == Some(Mismatch("40\n"))
  {
    var c := new Client();
    var svc := new DeviceService(c);
    var d := Device("1234", true, 64, "", "", "", false);
    var echo := "40\n";
    ThermostatReady(d);
    SetpointParamExample();
    EchoTrimmed("40", echo);
    assert "40"[1] != "48"[1];
    assert c.Outcome(Plain(echo), Writer, now) == (None, Copied(echo));
    err := svc.SetSollTemperature(d, 24.0, Plain(echo), now);
  }

  lemma ThermostatReady(d: Device)
    requires d == Device("1234", true, 64, "", "", "", false)
    ensures Precheck(d, true) == None && IsThermostat(d)
  {
    assert IsThermostat(d);
  }

  /** A two-digit echo followed by a newline trims to the two digits. */
  lemma EchoTrimmed(digits: string, echo: string)
    requires |digits| == 2 && Text.AllDigits(digits) && echo == digits + "\n"
    ensures Text.TrimSpace(echo) == digits
  {
    Text.TrimSpaceOfLine(digits, echo);
  }
}
