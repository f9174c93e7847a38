/**
 * The device service: every device command checks the device locally
 * (connected, unlocked where it matters, the capability it needs) and only
 * then sends one GET of the home-automation endpoint through the client,
 * whose plain-text reply it reads.
 */
module Commands {
  import opened Errors
  import opened Text
  import opened Devices
  import opened Http
  import opened Fritzbox

  const DevicePath := "/webservices/homeautoswitch.lua"

  /** url.Values.Add: appends `v` to the values of `k`. */
  function Add(q: Query, k: string, v: string): (r: Query)
    ensures r.Keys == q.Keys + {k}
    ensures r[k] == (if k in q then q[k] else []) + [v]
    ensures forall j :: j in q && j != k ==> r[j] == q[j]
  {
    q[k := (if k in q then q[k] else []) + [v]]
  }

  /** The query once `switchcmd` and the parameters whose names are in `done` have been added. */
  function PartialQuery(cmd: string, params: map<string, string>, done: set<string>): Query
    requires done <= params.Keys
  {
    map k | k in done + {"switchcmd"} ::
      (if k == "switchcmd" then [cmd] else []) + (if k in done then [params[k]] else [])
  }

  /**
   * The query of a command: `switchcmd` first, then every parameter; a
   * parameter named `switchcmd` would be appended after the command.
   */
  function CommandQuery(cmd: string, params: map<string, string>): (q: Query)
    ensures q.Keys == params.Keys + {"switchcmd"}
    ensures q["switchcmd"] == [cmd] + (if "switchcmd" in params then [params["switchcmd"]] else [])
    ensures forall k :: k in params && k != "switchcmd" ==> q[k] == [params[k]]
  {
    PartialQuery(cmd, params, params.Keys)
  }

  /** The reference of a device command. */
  function CommandRef(c: Command): (r: Ref)
    ensures r.path == DevicePath && r.query.Keys == c.params.Keys + {"switchcmd"}
    ensures |r.query["switchcmd"]| >= 1 && r.query["switchcmd"][0] == c.name
    ensures forall k :: k in c.params && k != "switchcmd" ==> r.query[k] == [c.params[k]]
  {
    Ref(DevicePath, CommandQuery(c.name, c.params))
  }

  /**
   * commandURL: adds the parameters one by one in whatever order the map
   * yields them; every order gives the same query.
   */
  method CommandUrl(cmd: string, params: map<string, string>) returns (u: Ref)
    ensures u == Ref(DevicePath, CommandQuery(cmd, params))
  {
    var q: Query := Add(map[], "switchcmd", cmd);
    var rest := params.Keys;
    PartialStart(cmd, params);
    while rest != {}
      invariant rest <= params.Keys
      invariant q == PartialQuery(cmd, params, params.Keys - rest)
      decreases |rest|
    {
      var k :| k in rest;
      ghost var done := params.Keys - rest;
      PartialStep(cmd, params, done, k);
      q := Add(q, k, params[k]);
      rest := rest - {k};
      assert params.Keys - rest == done + {k};
    }
    assert params.Keys - rest == params.Keys;
    u := Ref(DevicePath, q);
  }

  lemma PartialStart(cmd: string, params: map<string, string>)
    ensures Add(map[], "switchcmd", cmd) == PartialQuery(cmd, params, {})
  {
    var p := PartialQuery(cmd, params, {});
    var a := Add(map[], "switchcmd", cmd);
    assert p.Keys == {"switchcmd"} == a.Keys;
    assert p["switchcmd"] == [cmd] + [] == a["switchcmd"];
  }

  /** Adding one more parameter extends the partial query by that parameter. */
  lemma PartialStep(cmd: string, params: map<string, string>, done: set<string>, k: string)
    requires done <= params.Keys && k in params && k !in done
    ensures Add(PartialQuery(cmd, params, done), k, params[k]) == PartialQuery(cmd, params, done + {k})
  {
    var before := PartialQuery(cmd, params, done);
    var after := PartialQuery(cmd, params, done + {k});
    var added := Add(before, k, params[k]);
    assert added.Keys == after.Keys;
    forall j | j in after
      ensures added[j] == after[j]
    {
      if j == k {
        assert (if k in before then before[k] else []) == (if k == "switchcmd" then [cmd] else []);
      }
    }
  }

  /**
   * What TurnOn and TurnOff put in the query: the command name under
   * `switchcmd` and the cleaned identifier under `ain`, plus the sentinel
   * under `param` for a thermostat that is not a socket.
   */
  lemma SwitchQuery(d: Device, on: bool)
    requires IsSocket(d) || IsThermostat(d)
    ensures var q := CommandQuery(SwitchCommand(d, on).value.name, SwitchCommand(d, on).value.params);
      && q["switchcmd"] == [SwitchCommand(d, on).value.name]
      && q["ain"] == [CleanAin(d.identifier)]
      && (IsSocket(d) ==> q.Keys == {"switchcmd", "ain"})
      && (!IsSocket(d) ==> q.Keys == {"switchcmd", "ain", "param"})
      && (!IsSocket(d) ==> q["param"] == [if on then ThermostatOn else ThermostatOff])
  {
  }

  /**
   * A device request always goes to the endpoint's rooted path, whatever the
   * base path, and carries the command name and the client's session id.
   */
  lemma DeviceRequestShape(base: Url, sid: Option<string>, c: Command)
    requires "sid" !in c.params && "switchcmd" !in c.params
    ensures var r := BuildRequest(base, sid, Method.Get, CommandRef(c), None);
      && r.url.host == base.host && r.url.path == DevicePath
      && r.url.query["switchcmd"] == [c.name]
      && (forall k :: k in c.params ==> r.url.query[k] == [c.params[k]])
      && (sid.Some? ==> r.url.query["sid"] == [sid.value])
      && (sid.None? ==> "sid" !in r.url.query)
      && r.body == None
  {
  }

  lemma DevicePathValid()
    ensures ValidPath(DevicePath)
  {
    PlainPathIsValid(DevicePath);
  }

  /** The command reading `cmd` of a device sends: only the cleaned identifier as parameter. */
  function Reading(cmd: string, d: Device): Command {
    Command(cmd, map["ain" := CleanAin(d.identifier)])
  }

  /** The text a byte buffer holds after Do: the copied body, or nothing. */
  function Buffered(d: Delivery): string {
    if d.Copied? then d.text else ""
  }

  /** The devices a list request yields: what the decoder read, or none. */
  function Listed(d: Delivery): seq<Device> {
    if d.Decoded? && d.payload.DeviceList? then d.payload.devices else []
  }

  class DeviceService {
    const client: Client

    constructor (c: Client)
      ensures client == c
    {
      client := c;
    }

    /** The request a command becomes in the current state of the client. */
    function RequestOf(c: Command): Request
      reads client, client.session
    {
      BuildRequest(client.baseUrl, client.CurrentSid(), Method.Get, CommandRef(c), None)
    }

    /** Builds the command's URL and request and runs it through Do. */
    method Send(c: Command, target: Target, reply: Exchange, now: nat) returns (e: Option<Error>, d: Delivery)
      modifies client`sent, client.session
      ensures (e, d) == old(client.Outcome(reply, target, now))
      ensures Exchanged(client, old(RequestOf(c)), now)
    {
      var u := CommandUrl(c.name, c.params);
      DevicePathValid();
      var req := client.NewRequest(Method.Get, u, None).value;
      e, d := client.Do(req, target, reply, now);
    }

    /** List: every device the gateway reports. */
    method List(reply: Exchange, now: nat) returns (r: Result<seq<Device>>)
      modifies client`sent, client.session
      ensures var (e, d) := old(client.Outcome(reply, Into(DeviceListKind), now));
        r == if e.Some? then Failure(e.value) else Success(Listed(d))
      ensures Exchanged(client, old(RequestOf(Command("getdevicelistinfos", map[]))), now)
    {
      var e, d := Send(Command("getdevicelistinfos", map[]), Into(DeviceListKind), reply, now);
      if e.Some? {
        return Failure(e.value);
      }
      return Success(Listed(d));
    }

    /** Get: the first listed device whose cleaned identifier is `ain` as given. */
    method Get(ain: string, reply: Exchange, now: nat) returns (r: Result<Device>)
      modifies client`sent, client.session
      ensures var (e, d) := old(client.Outcome(reply, Into(DeviceListKind), now));
        && (e.Some? ==> r == Failure(e.value))
        && (e.None? && FirstMatch(Listed(d), ain).None? ==> r == Failure(NotFound(ain)))
        && (e.None? && FirstMatch(Listed(d), ain).Some? ==> r == Success(Listed(d)[FirstMatch(Listed(d), ain).value]))
      ensures Exchanged(client, old(RequestOf(Command("getdevicelistinfos", map[]))), now)
    {
      var list := List(reply, now);
      if list.Failure? {
        return Failure(list.error);
      }
      var devices := list.value;
      for i := 0 to |devices|
        invariant forall j :: 0 <= j < i ==> CleanAin(devices[j].identifier) != ain
      {
        if CleanAin(devices[i].identifier) == ain {
          FirstMatchIsFirst(devices, ain, i);
          return Success(devices[i]);
        }
      }
      return Failure(NotFound(ain));
    }

    /** TurnOn: switches a socket on, or sets a thermostat to its "on" sentinel. */
    method TurnOn(d: Device, reply: Exchange, now: nat) returns (r: Result<bool>)
      modifies client`sent, client.session
      ensures Precheck(d, true).Some? ==> r == Failure(Precheck(d, true).value) && Quiet(client)
      ensures Precheck(d, true).None? && SwitchCommand(d, true).None? ==> r == Failure(NilUrl) && Quiet(client)
      ensures Precheck(d, true).None? && SwitchCommand(d, true).Some? ==>
        var (e, _) := old(client.Outcome(reply, Discard, now));
        && r == (if e.Some? then Failure(e.value) else Success(true))
        && Exchanged(client, old(RequestOf(SwitchCommand(d, true).value)), now)
    {
      var pre := Precheck(d, true);
      if pre.Some? {
        return Failure(pre.value);
      }
      var c := SwitchCommand(d, true);
      if c.None? {
        // The source dereferences a nil URL here.
        return Failure(NilUrl);
      }
      var e, _ := Send(c.value, Discard, reply, now);
      if e.Some? {
        return Failure(e.value);
      }
      return Success(true);
    }

    /** TurnOff: switches a socket off, or sets a thermostat to its "off" sentinel, and reads the reply. */
    method TurnOff(d: Device, reply: Exchange, now: nat) returns (r: Result<bool>)
      modifies client`sent, client.session
      ensures Precheck(d, true).Some? ==> r == Failure(Precheck(d, true).value) && Quiet(client)
      ensures Precheck(d, true).None? && SwitchCommand(d, false).None? ==> r == Failure(NilUrl) && Quiet(client)
      ensures Precheck(d, true).None? && SwitchCommand(d, false).Some? ==>
        var (e, b) := old(client.Outcome(reply, Writer, now));
        && r == (if e.Some? then Failure(e.value) else OffReading(d, Buffered(b)))
        && Exchanged(client, old(RequestOf(SwitchCommand(d, false).value)), now)
    {
      var pre := Precheck(d, true);
      if pre.Some? {
        return Failure(pre.value);
      }
      var c := SwitchCommand(d, false);
      if c.None? {
        return Failure(NilUrl);
      }
      var e, b := Send(c.value, Writer, reply, now);
      if e.Some? {
        return Failure(e.value);
      }
      return OffReading(d, Buffered(b));
    }

    /** Toggle: only sockets can be toggled. */
    method Toggle(d: Device, reply: Exchange, now: nat) returns (r: Result<bool>)
      modifies client`sent, client.session
      ensures Precheck(d, true).Some? ==> r == Failure(Precheck(d, true).value) && Quiet(client)
      ensures Precheck(d, true).None? && !IsSocket(d) ==> r == Failure(Unsupported(d.identifier)) && Quiet(client)
      ensures Precheck(d, true).None? && IsSocket(d) ==>
        var (e, _) := old(client.Outcome(reply, Discard, now));
        && r == (if e.Some? then Failure(e.value) else Success(true))
        && Exchanged(client, old(RequestOf(Reading("setswitchtoggle", d))), now)
    {
      var pre := Precheck(d, true);
      if pre.Some? {
        return Failure(pre.value);
      }
      if !IsSocket(d) {
        return Failure(Unsupported(d.identifier));
      }
      var e, _ := Send(Reading("setswitchtoggle", d), Discard, reply, now);
      if e.Some? {
        return Failure(e.value);
      }
      return Success(true);
    }

    /** GetPower: the power a metering device reports; a reply that is no number is an error. */
    method GetPower(d: Device, reply: Exchange, now: nat) returns (r: Result<int>)
      modifies client`sent, client.session
      ensures Precheck(d, false).Some? ==> r == Failure(Precheck(d, false).value) && Quiet(client)
      ensures Precheck(d, false).None? && !HasEnergy(d) ==> r == Failure(Unsupported(d.identifier)) && Quiet(client)
      ensures Precheck(d, false).None? && HasEnergy(d) ==>
        var (e, b) := old(client.Outcome(reply, Writer, now));
        && r == (if e.Some? then Failure(e.value) else PowerReading(Buffered(b)))
        && Exchanged(client, old(RequestOf(Reading("getswitchpower", d))), now)
    {
      var pre := Precheck(d, false);
      if pre.Some? {
        return Failure(pre.value);
      }
      if !HasEnergy(d) {
        return Failure(Unsupported(d.identifier));
      }
      var e, b := Send(Reading("getswitchpower", d), Writer, reply, now);
      if e.Some? {
        return Failure(e.value);
      }
      return PowerReading(Buffered(b));
    }

    /** GetEnergy: the energy a metering device reports; a reply that is no number reads as 0. */
    method GetEnergy(d: Device, reply: Exchange, now: nat) returns (r: Result<int>)
      modifies client`sent, client.session
      ensures Precheck(d, false).Some? ==> r == Failure(Precheck(d, false).value) && Quiet(client)
      ensures Precheck(d, false).None? && !HasEnergy(d) ==> r == Failure(Unsupported(d.identifier)) && Quiet(client)
      ensures Precheck(d, false).None? && HasEnergy(d) ==>
        var (e, b) := old(client.Outcome(reply, Writer, now));
        && r == (if e.Some? then Failure(e.value) else Success(EnergyReading(Buffered(b))))
        && Exchanged(client, old(RequestOf(Reading("getswitchenergy", d))), now)
    {
      var pre := Precheck(d, false);
      if pre.Some? {
        return Failure(pre.value);
      }
      if !HasEnergy(d) {
        return Failure(Unsupported(d.identifier));
      }
      var e, b := Send(Reading("getswitchenergy", d), Writer, reply, now);
      if e.Some? {
        return Failure(e.value);
      }
      return Success(EnergyReading(Buffered(b)));
    }

    /** GetTemperature: the measured temperature, reported in tenths of a degree. */
    method GetTemperature(d: Device, reply: Exchange, now: nat) returns (r: Result<real>)
      modifies client`sent, client.session
      ensures Precheck(d, false).Some? ==> r == Failure(Precheck(d, false).value) && Quiet(client)
      ensures Precheck(d, false).None? && !HasTemperature(d) ==> r == Failure(Unsupported(d.identifier)) && Quiet(client)
      ensures Precheck(d, false).None? && HasTemperature(d) ==>
        var (e, b) := old(client.Outcome(reply, Writer, now));
        && r == (if e.Some? then Failure(e.value) else TemperatureReading(Buffered(b)))
        && Exchanged(client, old(RequestOf(Reading("gettemperature", d))), now)
    {
      var pre := Precheck(d, false);
      if pre.Some? {
        return Failure(pre.value);
      }
      if !HasTemperature(d) {
        return Failure(Unsupported(d.identifier));
      }
      var e, b := Send(Reading("gettemperature", d), Writer, reply, now);
      if e.Some? {
        return Failure(e.value);
      }
      return TemperatureReading(Buffered(b));
    }

    /** GetSollTemperature: the set point; the capability is checked before the connection. */
    method GetSollTemperature(d: Device, reply: Exchange, now: nat) returns (r: Result<real>)
      modifies client`sent, client.session
      ensures !IsThermostat(d) ==> r == Failure(Unsupported(d.identifier)) && Quiet(client)
      ensures IsThermostat(d) && Precheck(d, false).Some? ==> r == Failure(Precheck(d, false).value) && Quiet(client)
      ensures IsThermostat(d) && Precheck(d, false).None? ==>
        var (e, b) := old(client.Outcome(reply, Writer, now));
        && r == (if e.Some? then Failure(e.value) else SetpointReading(d, Buffered(b)))
        && Exchanged(client, old(RequestOf(Reading("gethkrtsoll", d))), now)
    {
      if !IsThermostat(d) {
        return Failure(Unsupported(d.identifier));
      }
      var pre := Precheck(d, false);
      if pre.Some? {
        return Failure(pre.value);
      }
      var e, b := Send(Reading("gethkrtsoll", d), Writer, reply, now);
      if e.Some? {
        return Failure(e.value);
      }
      return SetpointReading(d, Buffered(b));
    }

    /** SetSollTemperature: sends the set point in half degrees and checks the gateway echoes it. */
    method SetSollTemperature(d: Device, temp: real, reply: Exchange, now: nat) returns (err: Option<Error>)
      modifies client`sent, client.session
      ensures Precheck(d, true).Some? ==> err == Precheck(d, true) && Quiet(client)
      ensures Precheck(d, true).None? && !IsThermostat(d) ==> err == Some(Unsupported(d.identifier)) && Quiet(client)
      ensures Precheck(d, true).None? && IsThermostat(d) && !(MinSetpoint <= temp <= MaxSetpoint) ==>
        err == Some(OutOfRange) && Quiet(client)
      ensures Precheck(d, true).None? && IsThermostat(d) && MinSetpoint <= temp <= MaxSetpoint ==>
        var param := SetpointParam(temp);
        var c := Command("sethkrtsoll", map["ain" := CleanAin(d.identifier), "param" := param]);
        var (e, b) := old(client.Outcome(reply, Writer, now));
        && Exchanged(client, old(RequestOf(c)), now)
        && (e.Some? ==> err == e)
        && (e.None? ==> (err == None <==> TrimSpace(Buffered(b)) == param))
        && (e.None? && err != None ==> err == Some(Mismatch(Buffered(b))))
    {
      var pre := Precheck(d, true);
      if pre.Some? {
        return pre;
      }
      if !IsThermostat(d) {
        return Some(Unsupported(d.identifier));
      }
      if temp < MinSetpoint || temp > MaxSetpoint {
        return Some(OutOfRange);
      }
      var params := map["ain" := CleanAin(d.identifier)];
      params := params["param" := SetpointParam(temp)];
      var e, b := Send(Command("sethkrtsoll", params), Writer, reply, now);
      if e.Some? {
        return e;
      }
      if TrimSpace(Buffered(b)) != params["param"] {
        return Some(Mismatch(Buffered(b)));
      }
      return None;
    }
  }

  /** The index the loop of Get stops at is the one FirstMatch names. */
  lemma FirstMatchIsFirst(devices: seq<Device>, ain: string, i: nat)
    requires i < |devices| && CleanAin(devices[i].identifier) == ain
    requires forall j :: 0 <= j < i ==> CleanAin(devices[j].identifier) != ain
    ensures FirstMatch(devices, ain) == Some(i)
  {
  }
}
