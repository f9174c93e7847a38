/**
 * The client and its login session. A Client resolves relative references
 * against its base URL, adds the session id to every request once a session
 * exists, refreshes the session before each round trip and hands the reply to
 * the caller's target. A Session holds the gateway's session id, challenge
 * and block time and a sliding ten-minute inactivity window; it opens by
 * fetching a challenge and authenticates with the challenge-response proof.
 *
 * The network is a parameter: each round trip takes the gateway's reply
 * (an `Exchange`). The clock is a parameter too: `now` counts seconds, and an
 * `expires` of 0 is the zero time, the "never set" value.
 */
module Fritzbox {
  import opened Errors
  import opened Http
  import Hasher
  import Text

  /** The invalid session id that marks a logged-out session. */
  const DefaultSid := "0000000000000000"
  /** Seconds of inactivity after which the gateway closes a session. */
  const DefaultExpires: nat := 600
  const LoginPath := "login_sid.lua"
  const LoginRef := Ref(LoginPath, map[])
  /** http://fritz.box/ */
  const DefaultBase := Url("http", "fritz.box", "/", map[])

  /** The decodable fields of a session. */
  datatype Info = Info(sid: string, challenge: string, blockTime: int)

  /** The form the login POST carries. */
  function LoginForm(username: string, response: string): (f: Query)
    ensures f.Keys == {"username", "response"}
    ensures f["username"] == [username] && f["response"] == [response]
  {
    map["username" := [username], "response" := [response]]
  }

  /**
   * Decoding a SessionInfo reply into a session: each element present in the
   * reply overwrites its field, an absent element leaves the field as it was;
   * any other delivery leaves the session unchanged.
   */
  function Absorb(info: Info, d: Delivery): (r: Info)
    ensures !(d.Decoded? && d.payload.SessionInfo?) ==> r == info
    ensures d.Decoded? && d.payload.SessionInfo? ==>
      && (d.payload.sid.Some? ==> r.sid == d.payload.sid.value)
      && (d.payload.sid.None? ==> r.sid == info.sid)
      && (d.payload.challenge.Some? ==> r.challenge == d.payload.challenge.value)
      && (d.payload.challenge.None? ==> r.challenge == info.challenge)
      && (d.payload.blockTime.Some? ==> r.blockTime == d.payload.blockTime.value)
      && (d.payload.blockTime.None? ==> r.blockTime == info.blockTime)
  {
    match d
    case Decoded(SessionInfo(sid, challenge, blockTime)) =>
      Info(sid.GetOr(info.sid), challenge.GetOr(info.challenge), blockTime.GetOr(info.blockTime))
    case _ => info
  }

  /** Decoding the same reply twice changes nothing more. */
  lemma AbsorbIdempotent(info: Info, d: Delivery)
    ensures Absorb(Absorb(info, d), d) == Absorb(info, d)
  {
  }

  /** A reply that carries every element determines the session's fields whatever they were. */
  lemma AbsorbComplete(a: Info, b: Info, sid: string, challenge: string, blockTime: int)
    ensures var d := Decoded(SessionInfo(Some(sid), Some(challenge), Some(blockTime)));
      Absorb(a, d) == Absorb(b, d) == Info(sid, challenge, blockTime)
  {
  }

  /**
   * What `Do` reports and leaves in its target once the reply is in: a
   * transport failure, a status above 299, then per target a raw copy, a
   * decode chosen by content type, or nothing at all.
   */
  function Dispatch(x: Exchange, target: Target): (r: (Option<Error>, Delivery))
    ensures x.Failed? ==> r == (Some(TransportFailure), Untouched)
    ensures x.Answered? && x.resp.status > 299 ==> r == (Some(WrongStatus(x.resp.status)), Untouched)
    ensures target == Discard ==> r.1 == Untouched
    ensures x.Answered? && x.resp.status <= 299 && target == Writer ==> r == (None, Copied(x.resp.body))
    ensures r.1.Copied? ==> target == Writer
    ensures r.1.Decoded? ==> target.Into? && x.Answered? && Decode(x.resp.payload, target.kind) == Some(r.1.payload)
    ensures x.Answered? && x.resp.status <= 299 && target == Discard ==> r == (None, Untouched)
    ensures x.Answered? && target.Into?
      && !Text.Contains(x.resp.contentType, "text/xml") && !Text.Contains(x.resp.contentType, "application/json")
      ==> r.1 == Untouched && (r.0 == None <==> x.resp.status <= 299)
    ensures x.Answered? && x.resp.status <= 299 && target.Into? ==>
      var xml := Text.Contains(x.resp.contentType, "text/xml");
      var json := Text.Contains(x.resp.contentType, "application/json");
      var decoded := Decode(x.resp.payload, target.kind);
      (xml || json) ==>
        && r.1 == (if decoded.Some? then Decoded(decoded.value) else Untouched)
        && (r.0 == None <==> decoded.Some? && !(xml && json))
        && (r.0 != None ==> r.0 == Some(DecodeFailure))
  {
    match x
    case Failed => (Some(TransportFailure), Untouched)
    case Answered(resp) =>
      var c := resp.status;
      if 200 < c && c > 299 then (Some(WrongStatus(c)), Untouched)
      else
        match target
        case Discard => (None, Untouched)
        case Writer => (None, Copied(resp.body))
        case Into(kind) =>
          var xml := Text.Contains(resp.contentType, "text/xml");
          var json := Text.Contains(resp.contentType, "application/json");
          var decoded := Decode(resp.payload, kind);
          if !xml && !json then (None, Untouched)
          else
            var delivery := if decoded.Some? then Decoded(decoded.value) else Untouched;
            // With both media types the JSON decoder runs second and finds the body drained.
            if decoded.None? || (xml && json) then (Some(DecodeFailure), delivery)
            else (None, delivery)
  }

  /** Only codes above 299 are refused: the `200 < c` half of the test never matters. */
  lemma StatusRule(resp: Response, target: Target)
    ensures Dispatch(Answered(resp), target).0 == Some(WrongStatus(resp.status)) <==> resp.status > 299
  {
  }

  lemma StatusExamples(target: Target, ct: string, body: string, p: Payload)
    ensures Dispatch(Answered(Response(400, ct, body, p)), target).0 == Some(WrongStatus(400))
    ensures Dispatch(Answered(Response(300, ct, body, p)), target).0 == Some(WrongStatus(300))
    ensures Dispatch(Answered(Response(299, ct, body, p)), target).0 != Some(WrongStatus(299))
    ensures Dispatch(Answered(Response(100, ct, body, p)), Writer) == (None, Copied(body))
  {
  }

  /** A reply whose content type names both media types is decoded as XML and still reported as an error. */
  lemma BothMediaTypesFail(body: string, sid: string)
    ensures var p := SessionInfo(Some(sid), None, None);
      var ct := "text/xml" + "application/json";
      Dispatch(Answered(Response(200, ct, body, p)), Into(SessionInfoKind)) == (Some(DecodeFailure), Decoded(p))
  {
    var ct := "text/xml" + "application/json";
    assert Text.OccursAt(ct, "text/xml", 0);
    assert Text.OccursAt(ct, "application/json", 8);
  }

  /**
   * The inactivity window of Refresh: a session whose expiry was set and has
   * passed is logged out (its expiry kept); any other session, including one
   * whose expiry was never set, gets ten more minutes from `now`.
   */
  function Slide(info: Info, expires: nat, now: nat): (r: (Info, nat))
    ensures r.0.challenge == info.challenge && r.0.blockTime == info.blockTime
    ensures r.1 == now + DefaultExpires <==> !(expires != 0 && expires < now)
    ensures r.1 != now + DefaultExpires ==> r.0.sid == DefaultSid && r.1 == expires
    ensures r.1 == now + DefaultExpires ==> r.0 == info
  {
    if expires < now && expires != 0 then (info.(sid := DefaultSid), expires) else (info, now + DefaultExpires)
  }

  /** Refreshing twice at the same instant is refreshing once. */
  lemma SlideIdempotent(info: Info, expires: nat, now: nat)
    ensures var r := Slide(info, expires, now); Slide(r.0, r.1, now) == r
  {
  }

  /** A refreshed session stays alive for exactly ten minutes: a refresh at its expiry succeeds, one a second later fails. */
  lemma SlideWindow(info: Info, expires: nat, now: nat)
    requires Slide(info, expires, now).1 == now + DefaultExpires
    ensures var r := Slide(info, expires, now);
      && Slide(r.0, r.1, now + DefaultExpires).1 == now + 2 * DefaultExpires
      && Slide(r.0, r.1, now + DefaultExpires + 1) == (info.(sid := DefaultSid), now + DefaultExpires)
  {
  }

  /** An expiry that was never set never blocks, whatever the time. */
  lemma UnsetExpiryNeverBlocks(info: Info, now: nat)
    ensures Slide(info, 0, now) == (info, now + DefaultExpires)
  {
  }

  /**
   * The request NewRequest builds for a reference that parses: the reference
   * resolved against the base URL, with `sid` set to the session id when the
   * client has a session (replacing any `sid` already there), and the form
   * data as its body.
   */
  function BuildRequest(base: Url, sid: Option<string>, verb: Method, ref: Ref, data: Option<Query>): (r: Request)
    ensures r.verb == verb && r.body == data && r.contentType == FormContentType
    ensures var u := Resolve(base, ref);
      r.url.scheme == u.scheme && r.url.host == u.host && r.url.path == u.path
    ensures sid.None? ==> r.url.query == Resolve(base, ref).query
    ensures sid.Some? ==> var q := Resolve(base, ref).query;
      && r.url.query.Keys == q.Keys + {"sid"}
      && r.url.query["sid"] == [sid.value]
      && forall k :: k in q && k != "sid" ==> r.url.query[k] == q[k]
  {
    var u := Resolve(base, ref);
    var query := if sid.None? then u.query else u.query["sid" := [sid.value]];
    Request(verb, u.(query := query), data, FormContentType)
  }

  /** The example of the client's tests: "/test" with session "abc" and form test=test. */
  lemma BuildRequestExample()
    ensures var data := map["test" := ["test"]];
      BuildRequest(DefaultBase, Some("abc"), Get, Ref("/test", map[]), Some(data))
        == Request(Get, Url("http", "fritz.box", "/test", map["sid" := ["abc"]]), Some(data), FormContentType)
  {
  }

  /** What a client login leaves behind: the error, the session's fields and expiry, and the requests sent. */
  datatype Login = Login(err: Option<Error>, info: Info, expires: nat, requests: seq<Request>)

  /**
   * Client.Auth on values, step by step as the client runs it: the refresh
   * before the challenge request, the challenge request and its decoding, the
   * refresh before the proof, the proof and its decoding, the credentials
   * check and the closing refresh.
   */
  function ClientLogin(base: Url, info: Info, expires: nat, username: string, password: string, md5: Hasher.Md5,
                       openReply: Exchange, authReply: Exchange, now: nat): (r: Login)
    ensures |r.requests| <= 2
    ensures |r.requests| >= 1 ==> r.requests[0].verb == Get && r.requests[0].body.None?
    ensures |r.requests| == 2 ==> r.requests[1].verb == Post && r.requests[1].body.Some?
    ensures r.err == None ==> r.info.sid != DefaultSid && |r.requests| == 2 && r.expires == now + DefaultExpires
    ensures r.err == Some(InvalidCredentials) ==> r.info.sid == DefaultSid && |r.requests| == 2
    ensures r.err == Some(SessionExpired) ==> r.info.sid == DefaultSid
  {
    var (i1, x1) := Slide(info, expires, now);
    if x1 != now + DefaultExpires then Login(Some(SessionExpired), i1, x1, [])
    else
      var open := BuildRequest(base, Some(i1.sid), Get, LoginRef, None);
      var (e1, d1) := Dispatch(openReply, Into(SessionInfoKind));
      var i2 := Absorb(i1, d1);
      if e1.Some? then Login(e1, i2, x1, [open])
      else
        var (i3, x3) := Slide(i2, x1, now);
        if x3 != now + DefaultExpires then Login(Some(SessionExpired), i3, x3, [open])
        else
          var form := LoginForm(username, Hasher.Response(i3.challenge, password, md5));
          var auth := BuildRequest(base, Some(i3.sid), Post, LoginRef, Some(form));
          var (e2, d2) := Dispatch(authReply, Into(SessionInfoKind));
          var i4 := Absorb(i3, d2);
          if e2.Some? then Login(e2, i4, x3, [open, auth])
          else if i4.sid == DefaultSid then Login(Some(InvalidCredentials), i4, x3, [open, auth])
          else
            var (i5, x5) := Slide(i4, x3, now);
            Login(None, i5, x5, [open, auth])
  }

  /** A reply the decoder reads as a SessionInfo record. */
  predicate SessionReply(x: Exchange) {
    && x.Answered? && x.resp.status <= 299 && x.resp.payload.SessionInfo?
    && Text.Contains(x.resp.contentType, "text/xml") && !Text.Contains(x.resp.contentType, "application/json")
  }

  /** A gateway that hands out a session id other than the default one logs the client in. */
  lemma LoginAccepted(base: Url, info: Info, expires: nat, username: string, password: string, md5: Hasher.Md5,
                      openReply: Exchange, authReply: Exchange, now: nat)
    requires !(expires != 0 && expires < now)
    requires SessionReply(openReply) && SessionReply(authReply)
    requires authReply.resp.payload.sid.Some? && authReply.resp.payload.sid.value != DefaultSid
    ensures var run := ClientLogin(base, info, expires, username, password, md5, openReply, authReply, now);
      var fetched := Absorb(info, Decoded(openReply.resp.payload));
      && run.err == None
      && run.info.sid == authReply.resp.payload.sid.value
      && run.expires == now + DefaultExpires
      && |run.requests| == 2
      && run.requests[1].body == Some(LoginForm(username, Hasher.Response(fetched.challenge, password, md5)))
  {
  }

  /** A gateway that answers the proof with the default id refuses the login, and the session stays logged out. */
  lemma LoginRejected(base: Url, info: Info, expires: nat, username: string, password: string, md5: Hasher.Md5,
                      openReply: Exchange, authReply: Exchange, now: nat)
    requires !(expires != 0 && expires < now)
    requires SessionReply(openReply) && SessionReply(authReply)
    requires authReply.resp.payload.sid == Some(DefaultSid)
    ensures var run := ClientLogin(base, info, expires, username, password, md5, openReply, authReply, now);
      run.err == Some(InvalidCredentials) && run.info.sid == DefaultSid && |run.requests| == 2
  {
  }

  /** When fetching the challenge fails, the proof is never sent and its reply does not matter. */
  lemma OpenFailureSkipsAuth(base: Url, info: Info, expires: nat, username: string, password: string, md5: Hasher.Md5,
                             openReply: Exchange, authReply: Exchange, otherReply: Exchange, now: nat)
    requires Dispatch(openReply, Into(SessionInfoKind)).0.Some?
    ensures var run := ClientLogin(base, info, expires, username, password, md5, openReply, authReply, now);
      && run == ClientLogin(base, info, expires, username, password, md5, openReply, otherReply, now)
      && run.err.Some? && |run.requests| <= 1
  {
  }

  /** An expired session sends nothing and is logged out. */
  lemma ExpiredLoginSendsNothing(base: Url, info: Info, expires: nat, username: string, password: string, md5: Hasher.Md5,
                                 openReply: Exchange, authReply: Exchange, now: nat)
    requires expires != 0 && expires < now
    ensures var run := ClientLogin(base, info, expires, username, password, md5, openReply, authReply, now);
      run.err == Some(SessionExpired) && run.requests == [] && run.info.sid == DefaultSid
  {
  }

  /** Once the first refresh passes, the later ones in the same login never fail. */
  lemma LoginRefreshesOnce(base: Url, info: Info, expires: nat, username: string, password: string, md5: Hasher.Md5,
                           openReply: Exchange, authReply: Exchange, now: nat)
    requires !(expires != 0 && expires < now)
    ensures var run := ClientLogin(base, info, expires, username, password, md5, openReply, authReply, now);
      && run.err != Some(SessionExpired)
      && run.expires == now + DefaultExpires
      && (run.err == None ==> run.info.sid != DefaultSid)
  {
  }

  /** The client's test of a granted login: the gateway answers both requests with a new session id. */
  lemma ClientLoginAcceptedExample(md5: Hasher.Md5, reply: Exchange, now: nat)
    requires reply == Answered(Response(200, "text/xml", "",
                                        SessionInfo(Some("ff88e4d39354992f"), Some("1234567z"), None)))
    ensures var run := ClientLogin(DefaultBase, Info(DefaultSid, "", 0), 0, "username", "\U{00E4}bc", md5, reply, reply, now);
      run.err == None && run.info.sid == "ff88e4d39354992f"
  {
    XmlOnly();
    LoginAccepted(DefaultBase, Info(DefaultSid, "", 0), 0, "username", "\U{00E4}bc", md5, reply, reply, now);
  }

  /** The client's test of a refused login: the gateway answers both requests with the default id. */
  lemma ClientLoginRefusedExample(md5: Hasher.Md5, reply: Exchange, now: nat)
    requires reply == Answered(Response(200, "text/xml", "",
                                        SessionInfo(Some(DefaultSid), Some("1234567z"), None)))
    ensures var run := ClientLogin(DefaultBase, Info(DefaultSid, "", 0), 0, "username", "\U{00E4}bc", md5, reply, reply, now);
      run.err == Some(InvalidCredentials) && run.info.sid == DefaultSid
  {
    XmlOnly();
    LoginRejected(DefaultBase, Info(DefaultSid, "", 0), 0, "username", "\U{00E4}bc", md5, reply, reply, now);
  }

  /** An unreachable gateway: the login fails on the transport and the session stays logged out. */
  lemma ClientLoginUnreachableExample(md5: Hasher.Md5, reply: Exchange, now: nat)
    requires reply == Failed
    ensures var run := ClientLogin(DefaultBase, Info(DefaultSid, "", 0), 0, "username", "\U{00E4}bc", md5, reply, reply, now);
      run.err == Some(TransportFailure) && run.info.sid == DefaultSid
  {
  }

  /** The content type "text/xml" selects the XML decoder only. */
  lemma XmlOnly()
    ensures Text.Contains("text/xml", "text/xml") && !Text.Contains("text/xml", "application/json")
  {
    assert Text.OccursAt("text/xml", "text/xml", 0);
  }

  /** `s` went through Refresh at `now` since the previous state. */
  twostate predicate Refreshed(s: Session, now: nat)
    reads s
  {
    (s.Fields(), s.expires) == Slide(old(s.Fields()), old(s.expires), now)
  }

  /** `c` went through one Do of `req` at `now`: refreshed first, and `req` sent unless the session had expired. */
  twostate predicate Exchanged(c: Client, req: Request, now: nat)
    reads c, c.session
  {
    && c.session == old(c.session)
    && c.sent == old(c.sent) + (if old(c.Blocked(now)) then [] else [req])
    && (c.session != null ==> Refreshed(c.session, now))
  }

  /** Nothing was sent through `c` and its session is as it was. */
  twostate predicate Quiet(c: Client)
    reads c, c.session
  {
    && c.session == old(c.session)
    && c.sent == old(c.sent)
    && (c.session != null ==> unchanged(c.session))
  }

  class Session {
    const client: Client?
    var sid: string
    var challenge: string
    var blockTime: int
    var expires: nat

    /** NewSession: bound to `c`, logged out, expiry never set. */
    constructor (c: Client?)
      ensures client == c && sid == DefaultSid
      ensures challenge == "" && blockTime == 0 && expires == 0
    {
      client := c;
      sid := DefaultSid;
      challenge := "";
      blockTime := 0;
      expires := 0;
    }

    /** The fields a SessionInfo reply can set. */
    function Fields(): Info
      reads this
    {
      Info(sid, challenge, blockTime)
    }

    /** The expiry lies strictly before `now`. */
    function IsExpired(now: nat): (b: bool)
      reads this
      ensures !b ==> Slide(Fields(), expires, now).1 == now + DefaultExpires
      ensures b && expires != 0 ==> Slide(Fields(), expires, now).0.sid == DefaultSid
    {
      expires < now
    }

    /** Refresh would log the session out. */
    predicate Stale(now: nat)
      reads this
    {
      IsExpired(now) && expires != 0
    }

    /** The session as it is just after a refresh at `now`, when `refreshed`. */
    function InfoAfter(refreshed: bool, now: nat): Info
      reads this
    {
      if refreshed then Slide(Fields(), expires, now).0 else Fields()
    }

    function ExpiresAfter(refreshed: bool, now: nat): nat
      reads this
    {
      if refreshed then Slide(Fields(), expires, now).1 else expires
    }

    /** Logs out: the id becomes the default one and nothing else changes. */
    method Close()
      modifies this`sid
      ensures sid == DefaultSid
    {
      sid := DefaultSid;
    }

    method Refresh(now: nat) returns (err: Option<Error>)
      modifies this`sid, this`expires
      ensures old(Stale(now)) ==> err == Some(SessionExpired) && sid == DefaultSid && expires == old(expires)
      ensures !old(Stale(now)) ==> err == None && sid == old(sid) && expires == now + DefaultExpires
      ensures Refreshed(this, now)
    {
      if IsExpired(now) && expires != 0 {
        Close();
        return Some(SessionExpired);
      }
      expires := now + DefaultExpires;
      return None;
    }

    /**
     * Fetches a challenge: a GET of login_sid.lua whose SessionInfo reply is
     * decoded into this session. When this is the client's session, the
     * client's refresh before the round trip applies to it.
     */
    method Open(reply: Exchange, now: nat) returns (err: Option<Error>)
      requires client != null
      modifies this, client`sent, client.session
      ensures var attached := client.session == this;
        var (e, d) := old(client.Outcome(reply, Into(SessionInfoKind), now));
        && err == e
        && Fields() == Absorb(old(InfoAfter(attached, now)), d)
        && expires == old(ExpiresAfter(attached, now))
      ensures client.sent == old(client.sent)
        + (if old(client.Blocked(now)) then [] else [old(BuildRequest(client.baseUrl, client.CurrentSid(), Get, LoginRef, None))])
      ensures client.session != null && client.session != this ==> Refreshed(client.session, now)
    {
      LoginPathValid();
      var req := client.NewRequest(Get, LoginRef, None).value;
      var e, d := client.Do(req, Into(SessionInfoKind), reply, now);
      var info := Absorb(Fields(), d);
      sid, challenge, blockTime := info.sid, info.challenge, info.blockTime;
      return e;
    }

    /**
     * Sends the login proof computed from the current challenge and decodes
     * the reply; the default id in the reply means the credentials were
     * refused. After a successful login the session is refreshed once more
     * and the outcome of that refresh is ignored.
     */
    method Auth(username: string, password: string, md5: Hasher.Md5, reply: Exchange, now: nat)
      returns (err: Option<Error>)
      requires client != null
      modifies this, client`sent, client.session
      ensures var attached := client.session == this;
        var (e, d) := old(client.Outcome(reply, Into(SessionInfoKind), now));
        var absorbed := Absorb(old(InfoAfter(attached, now)), d);
        var slid := old(ExpiresAfter(attached, now));
        && (e.Some? ==> err == e && Fields() == absorbed && expires == slid)
        && (e.None? && absorbed.sid == DefaultSid ==>
              err == Some(InvalidCredentials) && Fields() == absorbed && expires == slid)
        && (e.None? && absorbed.sid != DefaultSid ==>
              err == None && (Fields(), expires) == Slide(absorbed, slid, now))
      ensures var form := LoginForm(username, Hasher.Response(old(challenge), password, md5));
        client.sent == old(client.sent)
          + (if old(client.Blocked(now)) then [] else [old(BuildRequest(client.baseUrl, client.CurrentSid(), Post, LoginRef, Some(form)))])
      ensures client.session != null && client.session != this ==> Refreshed(client.session, now)
    {
      var cr := Hasher.ComputeResponse(challenge, password, md5);
      LoginPathValid();
      var req := client.NewRequest(Post, LoginRef, Some(LoginForm(username, cr))).value;
      var e, d := client.Do(req, Into(SessionInfoKind), reply, now);
      var info := Absorb(Fields(), d);
      sid, challenge, blockTime := info.sid, info.challenge, info.blockTime;
      if e.Some? {
        return e;
      }
      if sid == DefaultSid {
        return Some(InvalidCredentials);
      }
      var _ := Refresh(now);
      return None;
    }
  }

  lemma LoginPathValid()
    ensures ValidPath(LoginPath)
  {
    PlainPathIsValid(LoginPath);
  }

  class Client {
    var baseUrl: Url
    var session: Session?
    /** Every request handed to the transport, oldest first. */
    ghost var sent: seq<Request>

    /** NewClient: the gateway's default address, no session. */
    constructor ()
      ensures baseUrl == DefaultBase && session == null && sent == []
    {
      baseUrl := DefaultBase;
      session := null;
      sent := [];
    }

    /** The session id the client sends, if it has a session. */
    function CurrentSid(): (r: Option<string>)
      reads this, session
      ensures r.Some? <==> session != null
      ensures r.Some? ==> r.value == session.sid
    {
      if session == null then None else Some(session.sid)
    }

    /** NewRequest: fails exactly when the reference's path does not parse. */
    function NewRequest(verb: Method, ref: Ref, data: Option<Query>): (r: Result<Request>)
      reads this, session
      ensures r.Success? <==> ValidPath(ref.path)
      ensures r.Failure? ==> r.error == MalformedUrl(ref.path)
      ensures r.Success? ==> r.value == BuildRequest(baseUrl, CurrentSid(), verb, ref, data)
    {
      if ValidPath(ref.path) then Success(BuildRequest(baseUrl, CurrentSid(), verb, ref, data))
      else Failure(MalformedUrl(ref.path))
    }

    /** The session refuses to send: it expired. */
    predicate Blocked(now: nat)
      reads this, session
    {
      session != null && session.Stale(now)
    }

    /** What Do returns and delivers for this reply in the current state. */
    function Outcome(reply: Exchange, target: Target, now: nat): (r: (Option<Error>, Delivery))
      reads this, session
      ensures Blocked(now) ==> r == (Some(SessionExpired), Untouched)
      ensures !Blocked(now) ==> r == Dispatch(reply, target)
    {
      if Blocked(now) then (Some(SessionExpired), Untouched) else Dispatch(reply, target)
    }

    /**
     * Do: refreshes the session first and gives up, sending nothing, when it
     * expired; otherwise sends the request and dispatches the reply.
     */
    method Do(req: Request, target: Target, reply: Exchange, now: nat) returns (err: Option<Error>, delivery: Delivery)
      modifies this`sent, session
      ensures (err, delivery) == old(Outcome(reply, target, now))
      ensures sent == old(sent) + (if old(Blocked(now)) then [] else [req])
      ensures session != null ==> Refreshed(session, now)
    {
      if session != null {
        var e := session.Refresh(now);
        if e.Some? {
          return e, Untouched;
        }
      }
      sent := sent + [req];
      var r := Dispatch(reply, target);
      return r.0, r.1;
    }

    /** Every session this client holds is bound to it. */
    predicate Valid()
      reads this, session
    {
      session != null ==> session.client == this
    }

    /**
     * Auth: creates the session only when there is none, then opens it and,
     * when that worked, logs in.
     */
    method Auth(username: string, password: string, md5: Hasher.Md5, openReply: Exchange, authReply: Exchange, now: nat)
      returns (err: Option<Error>)
      requires Valid()
      modifies this`session, this`sent, session
      ensures old(session) != null ==> session == old(session)
      ensures old(session) == null ==> fresh(session)
      ensures Valid() && session != null
      ensures var start := if old(session) == null then (Info(DefaultSid, "", 0), 0)
                           else (old(session.Fields()), old(session.expires));
        var run := ClientLogin(baseUrl, start.0, start.1, username, password, md5, openReply, authReply, now);
        && err == run.err
        && session.Fields() == run.info && session.expires == run.expires
        && sent == old(sent) + run.requests
    {
      if session == null {
        session := new Session(this);
      }
      var s := session;
      err := s.Open(openReply, now);
      if err.Some? {
        return;
      }
      err := s.Auth(username, password, md5, authReply, now);
    }

    /** Close: logs the session out; the session must exist. */
    method Close()
      requires session != null
      modifies session`sid
      ensures session.sid == DefaultSid
    {
      session.Close();
    }
  }
}
