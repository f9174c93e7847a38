/**
 * The device records the gateway lists and the decision logic of the device
 * command layer that does not touch the network: identifier cleaning,
 * capability bits, the connected/locked precheck, which switch command a
 * device gets, how each plain-text reply is read, and how a set point is
 * encoded.
 */
module Devices {
  import opened Errors
  import opened Text

  type uint32 = n: int | 0 <= n < 0x1_0000_0000

  /** One entry of the gateway's device list. */
  datatype Device = Device(
    identifier: string,
    connected: bool,
    functionBitMask: uint32,
    firmware: string,
    manufacturer: string,
    name: string,
    lock: bool)

  /** The command name and query parameters (besides `switchcmd`) of one device command. */
  datatype Command = Command(name: string, params: map<string, string>)

  const ThermostatOn := "254"
  const ThermostatOff := "253"
  const MinSetpoint: real := 8.0
  const MaxSetpoint: real := 28.0

  // ---------------------------------------------------------------- identifiers

  /** strings.Replace(s, " ", "", -1): removes every U+0020 and nothing else. */
  function CleanAin(s: string): (r: string)
    ensures forall i :: 0 <= i < |r| ==> r[i] != ' '
    ensures forall c :: c != ' ' ==> multiset(r)[c] == multiset(s)[c]
  {
    if s == [] then []
    else
      var rest := CleanAin(s[1..]);
      var head := if s[0] == ' ' then [] else [s[0]];
      assert s == [s[0]] + s[1..];
      assert multiset(s) == multiset([s[0]]) + multiset(s[1..]);
      assert multiset(head + rest) == multiset(head) + multiset(rest);
      assert forall c :: c != ' ' ==> multiset(head)[c] == multiset([s[0]])[c];
      head + rest
  }

  /** Cleaning works piecewise, so the characters it keeps stay in their order. */
  lemma {:induction false} CleanAinConcat(a: string, b: string)
    ensures CleanAin(a + b) == CleanAin(a) + CleanAin(b)
  {
    if a == [] {
      assert a + b == b;
    } else {
      assert (a + b)[1..] == a[1..] + b;
      CleanAinConcat(a[1..], b);
    }
  }

  /** A string without spaces is already clean. */
  lemma {:induction false} CleanAinOfClean(s: string)
    requires forall i :: 0 <= i < |s| ==> s[i] != ' '
    ensures CleanAin(s) == s
  {
    if s != [] {
      CleanAinOfClean(s[1..]);
    }
  }

  /** Cleaning twice is cleaning once. */
  lemma CleanAinIdempotent(s: string)
    ensures CleanAin(CleanAin(s)) == CleanAin(s)
  {
    CleanAinOfClean(CleanAin(s));
  }

  /** The identifier as the gateway displays it, with a space after the vendor part, is cleaned to the bare digits. */
  lemma CleanAinExample(ain: string)
    requires ain == " 1234 5678"
    ensures CleanAin(ain) == "12345678"
  {
    var sp := CleanAinOfSpace();
    var a, b := "1234", "5678";
    CleanAinOfClean(a);
    CleanAinOfClean(b);
    CleanAinConcat(sp, a);
    CleanAinSplit(sp + a, b);
    assert ain == sp + a + " " + b;
    assert CleanAin(ain) == a + b;
  }

  /** Only U+0020 is removed: a tab survives cleaning. */
  lemma CleanAinKeepsTab(ain: string)
    requires ain == "\t12 34"
    ensures CleanAin(ain) == "\t1234"
  {
    var a, b := "\t12", "34";
    CleanAinOfClean(a);
    CleanAinOfClean(b);
    CleanAinSplit(a, b);
    assert ain == a + " " + b;
    assert CleanAin(ain) == a + b;
  }

  /** A space between two parts disappears and the parts are cleaned on their own. */
  lemma CleanAinSplit(a: string, b: string)
    ensures CleanAin(a + " " + b) == CleanAin(a) + CleanAin(b)
  {
    var sp := CleanAinOfSpace();
    CleanAinConcat(a + sp, b);
    CleanAinConcat(a, sp);
  }

  lemma CleanAinOfSpace() returns (sp: string)
    ensures sp == " " && CleanAin(sp) == []
  {
    sp := " ";
    assert sp[1..] == [];
  }

  // ---------------------------------------------------------------- capabilities

  function Pow2(k: nat): (p: nat)
    ensures p >= 1
  {
    if k == 0 then 1 else 2 * Pow2(k - 1)
  }

  /** Bit `k` of `mask` is set: the source's `mask&(1<<k) != 0`. */
  predicate HasBit(mask: nat, k: nat) {
    if k == 0 then mask % 2 == 1 else HasBit(mask / 2, k - 1)
  }

  predicate IsConnected(d: Device) { d.connected }
  predicate IsLocked(d: Device) { d.lock }

  // Each capability is one bit of the mask: `mask&(1<<k) != 0` holds exactly when mask / 2^k is odd.

  function IsAlarm(d: Device): (b: bool)
    ensures b <==> d.functionBitMask / 16 % 2 == 1
  {
    BitOfMask(d.functionBitMask, 4, 16);
    HasBit(d.functionBitMask, 4)
  }

  function IsThermostat(d: Device): (b: bool)
    ensures b <==> d.functionBitMask / 64 % 2 == 1
  {
    BitOfMask(d.functionBitMask, 6, 64);
    HasBit(d.functionBitMask, 6)
  }

  function HasEnergy(d: Device): (b: bool)
    ensures b <==> d.functionBitMask / 128 % 2 == 1
  {
    BitOfMask(d.functionBitMask, 7, 128);
    HasBit(d.functionBitMask, 7)
  }

  function HasTemperature(d: Device): (b: bool)
    ensures b <==> d.functionBitMask / 256 % 2 == 1
  {
    BitOfMask(d.functionBitMask, 8, 256);
    HasBit(d.functionBitMask, 8)
  }

  function IsSocket(d: Device): (b: bool)
    ensures b <==> d.functionBitMask / 512 % 2 == 1
  {
    BitOfMask(d.functionBitMask, 9, 512);
    HasBit(d.functionBitMask, 9)
  }

  function IsDectRepeater(d: Device): (b: bool)
    ensures b <==> d.functionBitMask / 1024 % 2 == 1
  {
    BitOfMask(d.functionBitMask, 10, 1024);
    HasBit(d.functionBitMask, 10)
  }

  lemma BitOfMask(mask: nat, k: nat, p: nat)
    requires p == Pow2(k)
    ensures HasBit(mask, k) <==> mask / p % 2 == 1
  {
    HasBitIsDivision(mask, k);
  }

  /**
   * Setting bit `j` of a mask sets that bit and leaves every other bit as it
   * was: each capability predicate reads its own bit and nothing else.
   */
  lemma {:induction false} SetBitChangesOnlyThatBit(mask: nat, j: nat, k: nat)
    requires !HasBit(mask, j)
    ensures HasBit(mask + Pow2(j), k) <==> (k == j || HasBit(mask, k))
  {
    if j == 0 {
      if k > 0 {
        assert (mask + 1) / 2 == mask / 2;
      }
    } else {
      assert Pow2(j) == 2 * Pow2(j - 1);
      if k == 0 {
        assert (mask + Pow2(j)) % 2 == mask % 2;
      } else {
        assert (mask + Pow2(j)) / 2 == mask / 2 + Pow2(j - 1);
        SetBitChangesOnlyThatBit(mask / 2, j - 1, k - 1);
      }
    }
  }

  /** The recursive bit test agrees with the arithmetic one: bit `k` is the last binary digit of `mask / 2^k`. */
  lemma {:induction false} HasBitIsDivision(mask: nat, k: nat)
    ensures HasBit(mask, k) <==> (mask / Pow2(k)) % 2 == 1
  {
    if k > 0 {
      HasBitIsDivision(mask / 2, k - 1);
      DivDiv(mask, 2, Pow2(k - 1));
    }
  }

  lemma DivUnique(a: int, d: int, q: int, r: int)
    requires d > 0 && 0 <= r < d && a == q * d + r
    ensures a / d == q
  {
    var q0 := a / d;
    var r0 := a % d;
    assert (q - q0) * d == r0 - r;
    if q > q0 {
      MulLe(1, q - q0, d);
    } else if q < q0 {
      MulLe(1, q0 - q, d);
    }
  }

  lemma MulLe(x: int, y: int, z: int)
    requires 0 <= x <= y && z >= 0
    ensures x * z <= y * z
  {}

  lemma DivDiv(a: nat, b: nat, c: nat)
    requires b > 0 && c > 0
    ensures a / b / c == a / (b * c)
  {
    var q := a / b / c;
    var r1 := a % b;
    var r2 := (a / b) % c;
    assert a / b == q * c + r2;
    assert a == (a / b) * b + r1;
    assert a == q * (b * c) + (r2 * b + r1) by {
      assert (q * c + r2) * b == q * (b * c) + r2 * b;
    }
    MulLe(r2, c - 1, b);
    assert (c - 1) * b == b * c - b;
    DivUnique(a, b * c, q, r2 * b + r1);
  }

  // ---------------------------------------------------------------- precheck

  /** The connected/locked check every command runs; `lock` says whether a locked device is refused. */
  function Precheck(d: Device, lock: bool): (r: Option<Error>)
    ensures r == None <==> IsConnected(d) && !(IsLocked(d) && lock)
    ensures !IsConnected(d) ==> r == Some(NotConnected(d.identifier))
    ensures IsConnected(d) && IsLocked(d) && lock ==> r == Some(Locked(d.identifier))
  {
    if !IsConnected(d) then Some(NotConnected(d.identifier))
    else if IsLocked(d) && lock then Some(Locked(d.identifier))
    else None
  }

  /** A device that passes the strict check passes the lenient one, and the two differ only on locked devices. */
  lemma PrecheckLockOnlyAddsLocked(d: Device)
    ensures Precheck(d, true) == None ==> Precheck(d, false) == None
    ensures Precheck(d, true) != Precheck(d, false) ==> IsConnected(d) && IsLocked(d)
  {
  }

  // ---------------------------------------------------------------- switching

  /**
   * The command TurnOn (`on`) or TurnOff sends: a socket is switched, even when
   * it is also a thermostat; a thermostat gets its set point changed to the
   * on/off sentinel; any other device has no command.
   */
  function SwitchCommand(d: Device, on: bool): (r: Option<Command>)
    ensures r.Some? <==> IsSocket(d) || IsThermostat(d)
    ensures r.Some? ==> "ain" in r.value.params && r.value.params["ain"] == CleanAin(d.identifier)
    ensures IsSocket(d) ==>
      && r.value.params.Keys == {"ain"}
      && r.value.name == (if on then "setswitchon" else "setswitchoff")
    ensures !IsSocket(d) && IsThermostat(d) ==>
      && r.value.params.Keys == {"ain", "param"}
      && r.value.name == "sethkrtsoll"
      && r.value.params["param"] == (if on then ThermostatOn else ThermostatOff)
  {
    var params := map["ain" := CleanAin(d.identifier)];
    if IsSocket(d) then Some(Command(if on then "setswitchon" else "setswitchoff", params))
    else if IsThermostat(d) then Some(Command("sethkrtsoll", params["param" := if on then ThermostatOn else ThermostatOff]))
    else None
  }

  /** How TurnOff reads the gateway's reply. */
  function OffReading(d: Device, body: string): (r: Result<bool>)
    ensures IsThermostat(d) ==> r.Success? && (r.value <==> TrimSpace(body) == ThermostatOff)
    ensures !IsThermostat(d) ==> r == ParseBool(TrimSpace(body))
  {
    var text := TrimSpace(body);
    if IsThermostat(d) then Success(text == ThermostatOff) else ParseBool(text)
  }

  /** A socket's reply "1" or "0" followed by a newline reads as on or off. */
  lemma SocketOffReadingExamples(d: Device)
    requires !IsThermostat(d)
    ensures OffReading(d, "1\n") == Success(true)
    ensures OffReading(d, "0\n") == Success(false)
  {
    SocketLineReading(d, "1", "1\n", true);
    SocketLineReading(d, "0", "0\n", false);
  }

  lemma SocketLineReading(d: Device, digit: string, line: string, on: bool)
    requires !IsThermostat(d)
    requires digit == (if on then "1" else "0") && line == digit + "\n"
    ensures OffReading(d, line) == Success(on)
  {
    TrimSpaceOfLine(digit, line);
    assert OffReading(d, line) == ParseBool(digit);
    BoolDigit(digit, on);
  }

  lemma BoolDigit(digit: string, on: bool)
    requires digit == (if on then "1" else "0")
    ensures ParseBool(digit) == Success(on)
  {
  }

  /**
   * A thermostat that echoes the "off" sentinel TurnOff sent reads as
   * switched off, and one that echoes "on" as switched on, whatever white
   * space surrounds the echo (the gateway ends it with a newline).
   */
  lemma ThermostatEchoReadsOff(d: Device, front: string, back: string)
    requires IsThermostat(d)
    requires forall i :: 0 <= i < |front| ==> IsSpace(front[i])
    requires forall i :: 0 <= i < |back| ==> IsSpace(back[i])
    ensures OffReading(d, front + ThermostatOff + back) == Success(true)
    ensures OffReading(d, front + ThermostatOn + back) == Success(false)
  {
    TrimSpaceDropsPadding(ThermostatOff, front, back);
    TrimSpaceDropsPadding(ThermostatOn, front, back);
  }

  // ---------------------------------------------------------------- readings

  /** GetPower's reading: the trimmed body as an int64; a parse error is passed on. */
  function PowerReading(body: string): (r: Result<int>)
    ensures r.Success? <==> ParseInt(TrimSpace(body)).Success?
    ensures r.Success? ==> r.value == ParseInt(TrimSpace(body)).value && MinInt64 <= r.value <= MaxInt64
    ensures r.Failure? ==> r.error == ParseInt(TrimSpace(body)).error
  {
    ParseInt(TrimSpace(body))
  }

  /** A wattage the gateway prints on a line of its own reads back as that wattage. */
  lemma PowerReadingOfLine(n: int)
    requires MinInt64 <= n <= MaxInt64
    ensures PowerReading(Itoa(n) + "\n") == Success(n)
  {
    var s := Itoa(n);
    assert IsDigit(s[|s| - 1]) by {
      assert AllDigits(Unsigned(s));
      assert s[|s| - 1] == Unsigned(s)[|Unsigned(s)| - 1];
    }
    TrimSpaceOfLine(s, s + "\n");
    ParseItoa(n);
  }

  /** GetEnergy's reading: the trimmed body as an int64, or 0 when it does not parse. */
  function EnergyReading(body: string): (r: int)
    ensures ParseInt(TrimSpace(body)).Failure? ==> r == 0
    ensures ParseInt(TrimSpace(body)).Success? ==> r == ParseInt(TrimSpace(body)).value
    ensures MinInt64 <= r <= MaxInt64
  {
    match ParseInt(TrimSpace(body))
    case Success(n) => n
    case Failure(_) => 0
  }

  /** GetTemperature's reading: the gateway reports tenths of a degree. */
  function TemperatureReading(body: string): (r: Result<real>)
    ensures r.Success? <==> ParseInt(TrimSpace(body)).Success?
    ensures r.Success? ==> r.value * 10.0 == ParseInt(TrimSpace(body)).value as real
  {
    match ParseInt(TrimSpace(body))
    case Success(n) => Success(n as real / 10.0)
    case Failure(e) => Failure(e)
  }

  /** GetSollTemperature's reading: half degrees, with 253 and 254 meaning the thermostat is off. */
  function SetpointReading(d: Device, body: string): (r: Result<real>)
    ensures var p := ParseInt(TrimSpace(body));
      && (p.Failure? ==> r == Failure(p.error))
      && (p.Success? && (p.value == 253 || p.value == 254) ==> r == Failure(DeviceOff(d.identifier)))
      && (p.Success? && p.value != 253 && p.value != 254 ==> r.Success? && r.value * 2.0 == p.value as real)
  {
    var p := ParseInt(TrimSpace(body));
    if p.Failure? then Failure(p.error)
    else if p.value == 253 || p.value == 254 then Failure(DeviceOff(d.identifier))
    else Success(p.value as real / 2.0)
  }

  /** The numeral of `n`, for the literals the protocol uses. */
  lemma ItoaOfLiteral(n: nat, p: string)
    requires 100 <= n < 1000 && p == [DigitChar(n / 100), DigitChar(n / 10 % 10), DigitChar(n % 10)]
    ensures Itoa(n) == p
  {
    var hundreds, tens := n / 100, n / 10;
    assert tens / 10 == hundreds && tens >= 10 && hundreds < 10;
    assert NatToString(hundreds) == [DigitChar(hundreds)];
    assert NatToString(tens) == NatToString(hundreds) + [DigitChar(tens % 10)];
    assert NatToString(n) == NatToString(tens) + [DigitChar(n % 10)];
    assert Itoa(n) == NatToString(n);
  }

  /** Both sentinels TurnOn and TurnOff send to a thermostat read back as "off", not as a temperature. */
  lemma SentinelsReadAsOff(d: Device, text: string)
    requires text == ThermostatOff || text == ThermostatOn
    ensures SetpointReading(d, text) == Failure(DeviceOff(d.identifier))
  {
    if text == ThermostatOff {
      assert text == [DigitChar(2), DigitChar(5), DigitChar(3)];
      ItoaOfLiteral(253, text);
      SentinelReadsAsOff(d, 253, text);
    } else {
      assert text == [DigitChar(2), DigitChar(5), DigitChar(4)];
      ItoaOfLiteral(254, text);
      SentinelReadsAsOff(d, 254, text);
    }
  }

  lemma SentinelReadsAsOff(d: Device, n: nat, text: string)
    requires n == 253 || n == 254
    requires text == Itoa(n)
    ensures SetpointReading(d, text) == Failure(DeviceOff(d.identifier))
  {
    ItoaIsTrimmed(n);
    ParseItoa(n);
  }

  /** Go's `%.0f` rounding of an exact value: to the nearest integer, ties to the even one. */
  function RoundHalfEven(x: real): (n: int)
    ensures x - 0.5 <= n as real <= x + 0.5
    ensures (n as real == x - 0.5 || n as real == x + 0.5) ==> n % 2 == 0
  {
    var f := x.Floor;
    var frac := x - f as real;
    if frac < 0.5 then f
    else if frac > 0.5 then f + 1
    else if f % 2 == 0 then f else f + 1
  }

  /** The `param` SetSollTemperature sends: `fmt.Sprintf("%2.0f", temp*2)`. */
  function SetpointParam(temp: real): (p: string)
    requires MinSetpoint <= temp <= MaxSetpoint
    ensures p == Itoa(RoundHalfEven(temp * 2.0))
    ensures |p| == 2 && AllDigits(p)
  {
    var n := RoundHalfEven(temp * 2.0);
    assert 16 <= n <= 56;
    TwoDigits(n);
    Itoa(n)
  }

  lemma TwoDigits(n: int)
    requires 10 <= n < 100
    ensures |Itoa(n)| == 2
  {
    assert NatToString(n) == NatToString(n / 10) + [DigitChar(n % 10)];
  }

  /** A half-degree set point survives the round trip: what SetSollTemperature sends, GetSollTemperature reads back. */
  lemma {:induction false} SetpointRoundTrip(d: Device, temp: real)
    requires MinSetpoint <= temp <= MaxSetpoint
    requires (temp * 2.0).Floor as real == temp * 2.0
    ensures TrimSpace(SetpointParam(temp)) == SetpointParam(temp)
    ensures SetpointReading(d, SetpointParam(temp)) == Success(temp)
  {
    var n := HalfDegreeParam(temp);
    var p := SetpointParam(temp);
    TrimSpaceOfTrimmed(p);
    ParseItoa(n);
    assert ParseInt(TrimSpace(p)) == Success(n);
  }

  lemma HalfDegreeParam(temp: real) returns (n: int)
    requires MinSetpoint <= temp <= MaxSetpoint
    requires (temp * 2.0).Floor as real == temp * 2.0
    ensures SetpointParam(temp) == Itoa(n)
    ensures 16 <= n <= 56 && n as real / 2.0 == temp
  {
    n := (temp * 2.0).Floor;
    assert RoundHalfEven(temp * 2.0) == n;
  }

  /** The example of the protocol description: 24 degrees is sent as "48". */
  lemma SetpointParamExample()
    ensures SetpointParam(24.0) == "48"
  {
    assert RoundHalfEven(48.0) == 48;
    assert NatToString(48) == NatToString(4) + [DigitChar(8)];
  }

  // ---------------------------------------------------------------- lookup

  /** The position of the first device, in list order, whose cleaned identifier equals `ain` as given. */
  function FirstMatch(devices: seq<Device>, ain: string): (r: Option<nat>)
    ensures r.Some? ==> r.value < |devices| && CleanAin(devices[r.value].identifier) == ain
    ensures r.Some? ==> forall j :: 0 <= j < r.value ==> CleanAin(devices[j].identifier) != ain
    ensures r.None? <==> forall j :: 0 <= j < |devices| ==> CleanAin(devices[j].identifier) != ain
  {
    if devices == [] then None
    else if CleanAin(devices[0].identifier) == ain then Some(0)
    else match FirstMatch(devices[1..], ain)
      case None => None
      case Some(i) => Some(i + 1)
  }

  /** The argument is not cleaned: an identifier written with a space is never found. */
  lemma SpacedArgumentNeverMatches(devices: seq<Device>, ain: string)
    requires exists i :: 0 <= i < |ain| && ain[i] == ' '
    ensures FirstMatch(devices, ain) == None
  {
    var i :| 0 <= i < |ain| && ain[i] == ' ';
    forall j | 0 <= j < |devices|
      ensures CleanAin(devices[j].identifier) != ain
    {
      var c := CleanAin(devices[j].identifier);
      assert i < |c| ==> c[i] != ' ';
    }
  }
}
