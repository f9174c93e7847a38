# go-fritzbox in Dafny

A model of the core of go-fritzbox, a Go client for the FRITZ!Box home
gateway's session login and its home-automation ("AHA") interface, with
proofs about it.

- **Session** (`fritzbox.dfy`, class `Session`). A FRITZ!Box session holds
  the session id (`DefaultSid`, sixteen zeros, means logged out), the
  challenge, the block time and a sliding ten-minute inactivity window.
  It opens by fetching a challenge from `login_sid.lua`. It then logs in by
  posting the challenge-response proof.
- **Login proof** (`hasher.dfy`). `challenge-secret` is encoded as UTF-16
  code units. Every unit above 255 becomes `.`. Each unit is written as two
  little-endian bytes, and the buffer is hashed. The proof is the challenge,
  a dash and the digest in lowercase hex.
- **Client** (`fritzbox.dfy`, class `Client`). The client resolves a
  relative reference against its base URL. Once it has a session it adds
  `sid` to every request. Before each round trip it refreshes the session,
  and it gives up when the session has expired. Then it classifies the
  status and hands the reply to the caller's target: nothing, a byte
  buffer, or an XML/JSON decode chosen by content type. `Auth` creates the
  session lazily, opens it and logs in.
- **Device service** (`devices.dfy`, `commands.dfy`):
  - identifier cleaning and the capability bits;
  - the connected/locked precheck;
  - the query of each command (`commandURL`, a loop over a map);
  - how each plain-text reply is read;
  - the set-point encoding with its range and echo checks.

The network and the clock are parameters. Each round trip takes the
gateway's reply as an `Exchange` value: the transport failed, or a
response arrived with its status, content type, raw body and what a
decoder reads from it. Time is a natural number `now` of seconds, and an
expiry of 0 is Go's zero time, the "never set" value. The client keeps a
ghost log `sent` of every request handed to the transport, so "nothing is
sent" can be stated. The MD5 function is a parameter `md5` from byte
sequences to 16-byte digests.

Supporting modules:
- `errors.dfy`: `Option`, `Result` and one error constructor per distinct
  error the library returns.
- `text.dfy`: the Go `strings`/`strconv` behaviour the replies are read
  with: `TrimSpace`, `ParseInt` base 10 in 64 bits, `ParseBool`, `Itoa`
  and `Contains`.
- `http.dfy`: URLs, queries, requests and replies as values; when a path
  parses; resolution of a relative reference.
- `scenarios.dfy`: the behaviours the repository's tests check, replayed on
  fresh objects.

## Model

| member | source | states |
|---|---|---|
| Fritzbox.Session.constructor | fritzbox/session.go:58-63 | NewSession: the session belongs to the given client, is logged out (`DefaultSid`), and has no challenge and no expiry set |
| Fritzbox.Session.Close | fritzbox/session.go:111-113 | the id becomes `DefaultSid` and nothing else may change (frame `this`sid`), so closing twice is closing once |
| Fritzbox.Session.Refresh | fritzbox/session.go:120-128 | an expiry that was set and lies before `now`: `SessionExpired`, id reset, expiry kept; otherwise no error, id kept, expiry `now + 600` |
| Fritzbox.Session.IsExpired | fritzbox/session.go:116-118 | a session that is not expired is renewed by a refresh; an expired one whose expiry was set is logged out by it |
| Fritzbox.Slide | fritzbox/session.go:121-127 | the refresh rule as a function: challenge and block time never change; the window is renewed exactly when the expiry is unset or not yet passed; otherwise logged out with the old expiry |
| Fritzbox.SlideIdempotent | fritzbox/session.go:121-127 | refreshing twice at the same instant equals refreshing once |
| Fritzbox.SlideWindow | fritzbox/session.go:121-127 | after a successful refresh at `now`, a refresh at `now + 600` succeeds and one at `now + 601` logs the session out |
| Fritzbox.UnsetExpiryNeverBlocks | fritzbox/session.go:122 | a zero expiry is renewed whatever the time |
| Fritzbox.Session.Open | fritzbox/session.go:66-78 | exactly one GET of `login_sid.lua` is sent unless the client's session had expired. The error and the new fields are what Do reports and decodes, applied to the session as the client's refresh left it |
| Fritzbox.Session.Auth | fritzbox/session.go:82-108 | the POST carries the form `username` and `response = Response(old challenge, password)`. A transport/status/decode error is returned as is. A decoded `DefaultSid` gives `InvalidCredentials` with the id `DefaultSid`. Any other id gives success with that id and one more refresh |
| Fritzbox.Absorb | fritzbox/session.go:72-75 | decoding a SessionInfo reply overwrites exactly the fields present in the reply and keeps the others; any other delivery changes nothing |
| Fritzbox.AbsorbIdempotent | fritzbox/session.go:96-99 | decoding the same reply twice changes nothing more |
| Fritzbox.AbsorbComplete | fritzbox/session.go:43-46 | a reply with every element determines the session's fields, whatever they were |
| Hasher.ComputeResponse | fritzbox/session.go:133-156 | the loop's buffer is the substituted little-endian encoding of the UTF-16 units. The result is `challenge-` followed by 32 lowercase hex digits of the digest of that buffer |
| Hasher.Response | fritzbox/session.go:152-153 | `challenge-` followed by 32 lowercase hex digits, which read back as the digest of the login bytes |
| Hasher.EncodeRune | fritzbox/session.go:137 | a character below U+10000 is one unit, itself; any other is a high and a low surrogate that recombine to it |
| Hasher.Utf16Concat | fritzbox/session.go:137 | encoding a concatenation is concatenating the encodings |
| Hasher.Utf16 | fritzbox/session.go:137 | one or two code units per character |
| Hasher.Substitute | fritzbox/session.go:142-144 | units up to 255 are kept, every larger unit becomes 0x2E |
| Hasher.LittleEndian | fritzbox/session.go:146 | two bytes, low byte first, whose value is the unit |
| Hasher.SerializeLayout | fritzbox/session.go:139-150 | the buffer has two bytes per unit: the substituted unit, then 0 |
| Hasher.Serialize | fritzbox/session.go:139-150 | two bytes per unit, the second of each pair 0 |
| Hasher.SerializeConcat | fritzbox/session.go:139-150 | serialising a concatenation is concatenating the buffers |
| Hasher.SerializeSameShape | fritzbox/session.go:139-150 | unit sequences that differ only in which units above 255 sit at the same places give the same buffer |
| Hasher.ResponseIgnoresWideCharacters | fritzbox/session.go:137-153 | secrets that differ only in which BMP characters above U+00FF they hold give the same response |
| Hasher.Utf16SameShape | fritzbox/session.go:137-150 | the same statement on the hashed buffers |
| Hasher.SupplementaryIsTwoDots | fritzbox/session.go:137-146 | a character beyond U+FFFF is hashed as two dots |
| Hasher.Utf16Narrow | fritzbox/session.go:137 | a string below U+10000 has one unit per character, equal to it |
| Hasher.Hex | fritzbox/session.go:153 | `%x` of a byte slice: two lowercase hex digits per byte |
| Hasher.HexLayout | fritzbox/session.go:153 | byte `i` is printed at digits `2i` and `2i+1`, high nibble first |
| Hasher.HexSplit | fritzbox/session.go:153 | hex of a concatenation is the concatenation of the hex forms |
| Hasher.DigitValue | fritzbox/session.go:153 | every lowercase hex digit is the digit `%x` prints for some nibble value, so the hex form can be read back |
| Hasher.UnHexHex | fritzbox/session.go:153 | the hex form loses nothing: reading it back gives the digest bytes |
| Hasher.LoginBytesExample | fritzbox/session_test.go:176-187 | the bytes hashed for "1234567z" and "äbc" are the 24 bytes `31 00 … 63 00` |
| Hasher.ResponseExample | fritzbox/session_test.go:176-187 | given that digest of those bytes, the response is "1234567z-9e224a41eeefa284df7bb0f26c2913e2" |
| Fritzbox.Client.constructor | fritzbox/fritzbox.go:44-59 | NewClient: base URL `http://fritz.box/`, no session, nothing sent |
| Fritzbox.Client.CurrentSid | fritzbox/fritzbox.go:75-79 | there is an id to add exactly when the client has a session, and it is that session's id |
| Fritzbox.Client.NewRequest | fritzbox/fritzbox.go:66-92 | fails, with the path, exactly when the reference's path does not parse; otherwise the request `BuildRequest` describes |
| Fritzbox.BuildRequest | fritzbox/fritzbox.go:73-86 | the reference is resolved against the base URL. With a session, `sid` is set to the session id, replacing any earlier `sid` and keeping every other key; without one, the query is left as resolved. The body is the data and the content type is the form type |
| Fritzbox.BuildRequestExample | fritzbox/fritzbox_test.go:55-73 | "/test" with session "abc" and data test=test gives `http://fritz.box/test?sid=abc` with that form body |
| Http.Resolve | fritzbox/fritzbox.go:73 | scheme and host come from the base. An empty reference keeps the base. A rooted path replaces the base path. A relative path replaces the last segment. The query comes from the reference |
| Http.Directory | fritzbox/fritzbox.go:73 | the prefix of the path up to and including its last `/` |
| Http.ResolveInDirectory | fritzbox/fritzbox.go:27-30 | against a base ending in `/`, a relative name lands in that directory |
| Http.PlainPathIsValid | fritzbox/fritzbox.go:68-71 | a path without `%` and control characters parses |
| Http.ValidPath | fritzbox/fritzbox.go:68-71 | a path that parses does not end in an incomplete `%` escape |
| Http.LonePercentIsInvalid | fritzbox/fritzbox_test.go:75-82 | "%" does not parse |
| Fritzbox.Client.Outcome | fritzbox/fritzbox.go:98-102 | an expired session makes Do fail with `SessionExpired` and deliver nothing; otherwise the reply is dispatched |
| Fritzbox.Client.Do | fritzbox/fritzbox.go:97-133 | the session is refreshed first. If it had expired, the request is not sent and `SessionExpired` is returned. Otherwise the request is appended to the sent log and the result is `Dispatch` of the reply |
| Fritzbox.Dispatch | fritzbox/fritzbox.go:104-132 | transport failure; status above 299. Then a nil target is never touched and, on an accepted status, gets no error; a writer gets the raw body whatever the content type. Into a record: with neither "text/xml" nor "application/json" in the content type nothing is delivered and there is no error; with either, the record is delivered exactly when it decodes into the target's kind, and there is no error exactly when it decodes and only one media type is named, any error being the decode error |
| Fritzbox.StatusRule | fritzbox/fritzbox.go:111-113 | the status error is reported exactly when the code is above 299 |
| Fritzbox.StatusExamples | fritzbox/fritzbox_test.go:154-167 | 400 and 300 are refused, 299 is not, and a 100 still copies the body |
| Fritzbox.BothMediaTypesFail | fritzbox/fritzbox.go:122-127 | a content type naming both media types is decoded as XML and still reported as a decode failure |
| Fritzbox.XmlOnly | fritzbox/fritzbox.go:122-126 | "text/xml" selects the XML decoder only |
| Http.Decode | fritzbox/fritzbox.go:123-126 | a decode succeeds exactly when the reply holds a record of the target's kind, and then yields it |
| Fritzbox.Client.Auth | fritzbox/fritzbox.go:137-155 | a session is created (logged out) only when there is none and is otherwise reused. It stays bound to the client. The error, the session's fields, its expiry and the requests sent are those of `ClientLogin` from the state before |
| Fritzbox.LoginAccepted | fritzbox/fritzbox.go:137-155 | with a live session and decodable replies, a granted id that is not `DefaultSid` logs in. Two requests are sent, the second carrying the proof for the fetched challenge, and the window is renewed |
| Fritzbox.ClientLogin | fritzbox/fritzbox.go:137-155 | at most two requests, a GET without body then a POST with the form; success means two requests, a granted id and a renewed window; `InvalidCredentials` and `SessionExpired` leave the session logged out |
| Fritzbox.LoginForm | fritzbox/session.go:88-91 | exactly the fields `username` and `response`, one value each |
| Fritzbox.LoginRejected | fritzbox/session.go:101-104 | a granted `DefaultSid` gives `InvalidCredentials` and the session stays logged out |
| Fritzbox.OpenFailureSkipsAuth | fritzbox/fritzbox.go:146-148 | when fetching the challenge fails, the proof is never sent and its reply does not matter |
| Fritzbox.ExpiredLoginSendsNothing | fritzbox/fritzbox.go:98-102 | an expired session sends nothing, fails with `SessionExpired` and is logged out |
| Fritzbox.LoginRefreshesOnce | fritzbox/session.go:106 | once the first refresh of a login passes, none of the later ones fails, and a successful login never leaves `DefaultSid` |
| Fritzbox.ClientLoginAcceptedExample | fritzbox/fritzbox_test.go:169-231 | a gateway that grants "ff88e4d39354992f" leaves the client logged in with that id and no error |
| Fritzbox.ClientLoginRefusedExample | fritzbox/fritzbox_test.go:169-231 | a gateway that answers with `DefaultSid` gives the invalid-credentials error and the session stays logged out |
| Fritzbox.ClientLoginUnreachableExample | fritzbox/fritzbox_test.go:169-231 | an unreachable gateway gives the transport error and leaves a logged-out session |
| Fritzbox.Client.Close | fritzbox/fritzbox.go:158-160 | the client's session is logged out |
| Devices.CleanAin | fritzbox/device.go:53-55 | no space is left, and every other character keeps its count |
| Devices.CleanAinConcat | fritzbox/device.go:53-55 | cleaning works piecewise, so the kept characters stay in order |
| Devices.CleanAinOfClean | fritzbox/device.go:53-55 | a string without spaces is unchanged |
| Devices.CleanAinIdempotent | fritzbox/device.go:53-55 | cleaning twice is cleaning once |
| Devices.CleanAinExample | fritzbox/device.go:53-55 | " 1234 5678" becomes "12345678" |
| Devices.CleanAinKeepsTab | fritzbox/device.go:53-55 | only U+0020 is removed; a tab survives |
| Devices.SetBitChangesOnlyThatBit | fritzbox/device.go:372-401 | setting an unset bit `j` makes `HasBit(_, j)` true and leaves the test of every other bit as it was, so each capability reads its own bit only |
| Devices.HasBitIsDivision | fritzbox/device.go:372-401 | bit `k` is set exactly when `mask / 2^k` is odd, the meaning of `mask&(1<<k) != 0` |
| Devices.IsAlarm | fritzbox/device.go:383-385 | bit 4 of the mask: the mask divided by 16 is odd |
| Devices.IsThermostat | fritzbox/device.go:373-375 | bit 6 of the mask: the mask divided by 64 is odd |
| Devices.HasEnergy | fritzbox/device.go:393-396 | bit 7 of the mask: the mask divided by 128 is odd |
| Devices.HasTemperature | fritzbox/device.go:388-390 | bit 8 of the mask: the mask divided by 256 is odd |
| Devices.IsSocket | fritzbox/device.go:378-380 | bit 9 of the mask: the mask divided by 512 is odd |
| Devices.IsDectRepeater | fritzbox/device.go:399-401 | bit 10 of the mask: the mask divided by 1024 is odd |
| Devices.Precheck | fritzbox/device.go:57-65 | no error exactly when the device is connected and not (locked while `lock`). A disconnected device gives `NotConnected` whatever `lock` is; a connected locked one under `lock` gives `Locked` |
| Devices.PrecheckLockOnlyAddsLocked | fritzbox/device.go:57-65 | the strict check implies the lenient one, and they differ only on connected locked devices |
| Devices.SwitchCommand | fritzbox/device.go:76-87 | a socket gets `setswitchon`/`setswitchoff` with only `ain`, even when it is also a thermostat. Otherwise a thermostat gets `sethkrtsoll` with `param` 254/253. Any other device has no command. `ain` is always the cleaned identifier |
| Devices.OffReading | fritzbox/device.go:134-138 | a thermostat reads true exactly when the trimmed reply is "253"; any other device reads `ParseBool` of the trimmed reply |
| Devices.ThermostatEchoReadsOff | fritzbox/device.go:134-137 | "253" with any white space before and after it (such as the trailing newline) reads as switched off, and "254" likewise as switched on |
| Devices.SocketOffReadingExamples | fritzbox/device.go:138 | a socket's "1\n" reads true and "0\n" reads false |
| Devices.PowerReading | fritzbox/device.go:190-195 | succeeds exactly when the trimmed body parses as an int64, with the parsed value; otherwise the parse error is passed on |
| Devices.PowerReadingOfLine | fritzbox/device.go:190-195 | every int64 the gateway prints on a line of its own reads back as that number |
| Devices.EnergyReading | fritzbox/device.go:221-226 | the parsed number, or 0 when the reply does not parse |
| Devices.TemperatureReading | fritzbox/device.go:251-257 | a reading exactly when the reply parses, and then ten times the reading is the reply |
| Devices.SetpointReading | fritzbox/device.go:283-292 | a parse error is passed on; 253 and 254 give `DeviceOff`; any other parsed value `n` gives `n/2` |
| Devices.SentinelsReadAsOff | fritzbox/device.go:288-290 | the two sentinels TurnOn/TurnOff send read back as "off" |
| Devices.RoundHalfEven | fritzbox/device.go:310 | the nearest integer, ties to the even one |
| Devices.SetpointParam | fritzbox/device.go:309-310 | for 8 ≤ temp ≤ 28: the rounded double of `temp` printed as two decimal digits |
| Devices.SetpointParamExample | fritzbox/device.go:309-310 | 24 degrees are sent as "48" |
| Devices.SetpointRoundTrip | fritzbox/device.go:283-326 | a half-degree set point that SetSollTemperature sends is read back by GetSollTemperature's reading as the same temperature, and it survives the echo trim |
| Devices.FirstMatch | fritzbox/device.go:44-48 | the first position, in list order, whose cleaned identifier equals the argument as given; none exactly when no position matches |
| Devices.SpacedArgumentNeverMatches | fritzbox/device.go:39-50 | the argument is not cleaned: one containing a space never matches |
| Commands.Add | fritzbox/device.go:335-338 | `url.Values.Add`: the value is appended under its key and every other key is kept |
| Commands.CommandQuery | fritzbox/device.go:329-341 | the keys are the parameters plus `switchcmd`. `switchcmd` holds the command first. Every other parameter holds its single value |
| Commands.CommandRef | fritzbox/device.go:329-341 | the device endpoint, with `switchcmd` holding the command first and every other parameter its own value |
| Commands.CommandUrl | fritzbox/device.go:329-341 | the loop, in whatever order it visits the parameters, builds the endpoint reference with `CommandQuery` |
| Commands.PartialStep | fritzbox/device.go:336-338 | adding one more parameter extends the partial query by exactly that parameter |
| Commands.SwitchQuery | fritzbox/device.go:72-87 | the switch query always carries the command and the cleaned `ain`, plus the sentinel `param` for a thermostat that is not a socket |
| Commands.DeviceRequestShape | fritzbox/device.go:13 | a device request always goes to `/webservices/homeautoswitch.lua`, whatever the base path. It carries the command, the parameters, the client's `sid` when there is a session, and no body |
| Commands.DeviceService.List | fritzbox/device.go:22-36 | one `getdevicelistinfos` request; the error Do reports, or the decoded devices (none when nothing was decoded) |
| Commands.DeviceService.Send | fritzbox/device.go:175-189 | the command's URL is built and sent through `Do`: the outcome is `Do`'s for the old client state, and the client records exactly that one exchange |
| Commands.DeviceService.Get | fritzbox/device.go:39-50 | List's error, or the device `FirstMatch` names, or `NotFound` with the argument |
| Commands.FirstMatchIsFirst | fritzbox/device.go:44-48 | the position the loop stops at is the one `FirstMatch` names |
| Commands.DeviceService.TurnOn | fritzbox/device.go:68-100 | precheck(lock) first, then no command (nil URL), each without sending. Otherwise exactly `SwitchCommand(d, true)` is sent with a nil target, and the result is success or Do's error |
| Commands.DeviceService.TurnOff | fritzbox/device.go:103-139 | as TurnOn with `SwitchCommand(d, false)`, reading the buffered reply with `OffReading` |
| Commands.DeviceService.Toggle | fritzbox/device.go:143-165 | precheck(lock), then non-sockets are refused, both before any request; a socket gets `setswitchtoggle` with its cleaned `ain` |
| Commands.DeviceService.GetPower | fritzbox/device.go:168-196 | precheck without lock, then the energy bit, before any request; then `getswitchpower` and `PowerReading` of the reply |
| Commands.DeviceService.GetEnergy | fritzbox/device.go:199-227 | the same gates; `getswitchenergy`, and a reply that does not parse reads as 0 without error |
| Commands.DeviceService.GetTemperature | fritzbox/device.go:230-258 | precheck without lock, then the temperature bit; `gettemperature`, and the reply read in tenths |
| Commands.DeviceService.GetSollTemperature | fritzbox/device.go:261-293 | the thermostat bit is checked before the precheck; `gethkrtsoll`, and `SetpointReading` of the reply |
| Commands.DeviceService.SetSollTemperature | fritzbox/device.go:296-327 | precheck(lock), the thermostat bit and 8 ≤ temp ≤ 28, in that order and before any request. It sends `sethkrtsoll` with `param = SetpointParam(temp)`. No error exactly when the trimmed echo equals `param`, otherwise `Mismatch` with the reply |
| Text.TrimSpace | fritzbox/device.go:134 | the result has no white space at either end and is what remains after cutting only white space from both ends |
| Text.TrimSpaceDropsPadding | fritzbox/device.go:190 | independent white-space padding before and after a trimmed value is removed |
| Text.ParseInt | fritzbox/device.go:191 | succeeds exactly on an optional sign followed by one or more digits whose value lies in int64 range, and yields that value; failures are syntax or range errors, and a numeral out of range is a range error |
| Text.ParseItoa | fritzbox/device.go:283 | a printed int64 parses back to itself |
| Text.Itoa | fritzbox/device.go:310 | the printed text is a numeral denoting `n`, starting with `-` exactly for a negative `n` and otherwise with a digit |
| Text.ParseBool | fritzbox/device.go:138 | a failure is a syntax error; a success is a spelling of one to five characters whose first character (`1`, `t` or `T`) decides true |
| Text.ParseFormatBool | fritzbox/device.go:138 | the spellings `FormatBool` prints parse back to the same boolean |
| Text.NatToStringValue | fritzbox/device.go:310 | the printed numeral's value is the number |
| Text.Contains | fritzbox/fritzbox.go:122-125 | true exactly when the substring occurs at some position |
| Scenarios.RefreshScenario | fritzbox/session_test.go:162-173 | a fresh session refreshes to `now + 600`; one whose expiry has passed fails with `SessionExpired` and is logged out |
| Scenarios.IsExpiredScenario | fritzbox/session_test.go:143-160 | an expiry five seconds back is expired and one five seconds ahead is not |
| Scenarios.CloseScenario | fritzbox/session_test.go:130-141 | Close resets the id and keeps the challenge |
| Scenarios.OpenScenario | fritzbox/session_test.go:39-72 | Open reads the challenge "1234567z" from an XML reply, keeps the logged-out id and sends one request |
| Scenarios.OpenUntypedScenario | fritzbox/session_test.go:24-30 | with the session tests' server as written (no content type, so `text/plain`), Open reports no error, sends one request and leaves the challenge empty |
| Scenarios.AuthScenario | fritzbox/session_test.go:91-128 | Session.Auth takes "ff88e4d39354992f", and refuses `DefaultSid` with `InvalidCredentials` |
| Scenarios.ClientAuthScenario | fritzbox/fritzbox_test.go:169-196 | Client.Auth logs in with the granted id after two requests |
| Scenarios.ClientAuthInvalidScenario | fritzbox/fritzbox_test.go:198-223 | Client.Auth refuses `DefaultSid` and leaves the session logged out |
| Scenarios.ClientAuthNewSessionScenario | fritzbox/fritzbox_test.go:225-231 | a client without a session gets a logged-out one even when the gateway is unreachable |
| Scenarios.ClientCloseScenario | fritzbox/fritzbox_test.go:233-245 | Client.Close logs the session "abc" out |
| Scenarios.DoSessionExpiredScenario | fritzbox/fritzbox_test.go:143-152 | Do with an expired session fails before sending anything |
| Scenarios.DoHttpErrorScenario | fritzbox/fritzbox_test.go:154-167 | Do reports a 400 after sending the request |
| Scenarios.TurnOnSocketScenario | fritzbox/device.go:68-100 | switching on the socket " 1234 5678" succeeds and sends `switchcmd=setswitchon&ain=12345678` |
| Scenarios.LockedScenario | fritzbox/device.go:61-62 | TurnOff of a locked device fails with `Locked` and sends nothing |
| Scenarios.SetpointScenario | fritzbox/device.go:296-327 | setting 24 degrees against a gateway that echoes "48" succeeds |
| Scenarios.SetpointMismatchScenario | fritzbox/device.go:323-325 | an echo "40" for the "48" sent is a `Mismatch` carrying the reply |

## Left out

- The transport (`net/http`), request headers and the `*http.Response` that
  `Do` returns are not modelled. `NewRequest` sets the Content-Type header
  before it checks the error of `http.NewRequest`, so a bad method name
  crashes there. Only valid verbs (GET, POST) exist in the model, so that
  crash cannot occur.
- URL syntax is structured, not textual. A reference is a path plus a query.
  `url.Parse` failure is modelled only for the path (control characters and
  bad `%` escapes). References with a scheme or authority, dot-segment
  removal and the exact `Values.Encode` text (key order, escaping) are not
  modelled. A query is a map from keys to value lists.
- XML and JSON decoding is abstract. A reply carries the record a decoder
  would read from it. Partial decodes are not modelled: a reply whose
  record is of the wrong kind is a decode error that changes nothing. XML
  and JSON are not distinguished, so a JSON reply can only set the fields a
  SessionInfo record has. A content type naming both media types yields
  the XML decode plus the error of a second decode of the drained body.
- MD5 (RFC 1321) is a parameter: the digest itself is not computed.
- Hasher.ComputeResponse: the error return of `binary.Write` is left out,
  because writing into a byte buffer cannot fail.
- Wall-clock time is a parameter `now` in whole seconds, and one call sees
  one instant: the refreshes inside one login all happen at the same `now`.
- Floating point: temperatures are exact reals. `%2.0f` is modelled as
  round-half-even of the exact value. For set points from 8 to 28 the
  doubled value has two digits, so the width 2 never adds padding.
- Devices.SetpointParam: float rounding of non-representable inputs is
  not modelled; the exact real is rounded instead.
- `Rights` in the session record is never interpreted and is not modelled.
  `Client.String`, the `fmt.Println` debug print in `GetSollTemperature` and
  the sample programs under `example/` are not modelled either.
- Text.ParseInt: which error is reported is promised only for a numeral
  out of range (a range error). When a prefix of digits already overflows
  before a later bad character, Go reports a range error while the model
  reports a syntax error.
- Text and Hasher work on Dafny strings, which hold only valid Unicode
  scalar values. Go strings are bytes: an invalid UTF-8 byte in the
  challenge or password becomes U+FFFD under `[]rune`, and so one "." unit
  per byte in the hashed buffer. Such input cannot be expressed, so the
  model assumes valid UTF-8.
- Fritzbox.Client.Auth requires that a session the client already holds is
  bound to this client. A session shared with another client is outside
  the model.
- Fritzbox.Client.Close requires a session: without one, the source
  dereferences a nil pointer.
- TurnOn and TurnOff on a device that is neither socket nor thermostat call
  `String` on a nil URL and panic. The model returns the error `NilUrl`
  there and sends nothing.
- `commandURL`'s `url.Parse` of the constant endpoint, and `NewRequest` of
  the resulting reference, cannot fail. Their error branches have no
  counterpart, and the model proves the endpoint path parses.
- `Do` writes into the target through the caller's pointer. The model
  returns what was delivered as a value instead.
- The `DeviceService` field of `Client` is not modelled: a `DeviceService`
  is constructed over a client instead.
- Concurrency: the library has none.
