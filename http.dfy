/**
 * The slice of HTTP and URL handling the client relies on, as values: the
 * base URL and a relative reference, their resolution (section 5.2 of
 * RFC 3986), the request the client builds and the gateway's reply. A reply
 * carries, besides its status, content type and raw body, what an XML or
 * JSON decoder reads from that body.
 */
module Http {
  import opened Errors
  import opened Devices

  datatype Method = Get | Post

  /** url.Values: each key maps to its values in the order they were added. */
  type Query = map<string, seq<string>>

  /** An absolute URL with its query already split into values. */
  datatype Url = Url(scheme: string, host: string, path: string, query: Query)

  /** A relative reference: a path (possibly empty or rooted) and a query. */
  datatype Ref = Ref(path: string, query: Query)

  const FormContentType := "application/x-www-form-urlencoded"

  /** The request as the client hands it to the transport; `body` is the form data, if any. */
  datatype Request = Request(verb: Method, url: Url, body: Option<Query>, contentType: string)

  /** What the decoders read from a reply body. */
  datatype Payload =
    | SessionInfo(sid: Option<string>, challenge: Option<string>, blockTime: Option<int>)
    | DeviceList(devices: seq<Device>)
    | Malformed

  datatype Response = Response(status: int, contentType: string, body: string, payload: Payload)

  /** The outcome of one round trip: the transport failed, or the gateway answered. */
  datatype Exchange = Failed | Answered(resp: Response)

  /** The record a decoding target is. */
  datatype Kind = SessionInfoKind | DeviceListKind

  /** What `Do` is asked to fill: nothing (nil), a byte buffer, or a record to decode into. */
  datatype Target = Discard | Writer | Into(kind: Kind)

  /** What `Do` left in its target. */
  datatype Delivery = Untouched | Copied(text: string) | Decoded(payload: Payload)

  predicate IsHex(c: char) {
    ('0' <= c <= '9') || ('a' <= c <= 'f') || ('A' <= c <= 'F')
  }

  /** A control character url.Parse refuses anywhere in a URL. */
  predicate IsControl(c: char) {
    c < ' ' || c == '\U{007F}'
  }

  /** The path passes url.Parse: no control character, and every `%` starts a two-digit hex escape. */
  function ValidPath(p: string): (v: bool)
    ensures v && p != [] ==> p[|p| - 1] != '%' && (|p| < 2 || p[|p| - 2] != '%')
  {
    && (forall i :: 0 <= i < |p| ==> !IsControl(p[i]))
    && (forall i :: 0 <= i < |p| && p[i] == '%' ==> i + 2 < |p| && IsHex(p[i + 1]) && IsHex(p[i + 2]))
  }

  /** A path without `%` or control characters parses. */
  lemma PlainPathIsValid(p: string)
    requires forall i :: 0 <= i < |p| ==> p[i] != '%' && ' ' <= p[i] < '\U{007F}'
    ensures ValidPath(p)
  {
  }

  /** A lone `%` is an escape without digits and fails to parse. */
  lemma LonePercentIsInvalid()
    ensures !ValidPath("%")
  {
    assert "%"[0] == '%';
  }

  /** Everything of `p` up to and including its last `/`; empty when it has none. */
  function Directory(p: string): (d: string)
    ensures d <= p
    ensures d == [] || d[|d| - 1] == '/'
    ensures forall i :: |d| <= i < |p| ==> p[i] != '/'
  {
    if p == [] then []
    else if p[|p| - 1] == '/' then p
    else Directory(p[..|p| - 1])
  }

  /**
   * URL.ResolveReference for a reference with neither scheme nor authority:
   * an empty reference keeps the base path and query, a rooted path replaces
   * the base path, any other path replaces the last segment of the base path.
   */
  function Resolve(base: Url, ref: Ref): (u: Url)
    ensures u.scheme == base.scheme && u.host == base.host
    ensures ref.path == [] && ref.query == map[] ==> u == base
    ensures ref.path != [] ==> u.query == ref.query
    ensures ref.path != [] && ref.path[0] == '/' ==> u.path == ref.path
    ensures ref.path != [] && ref.path[0] != '/' ==> u.path == Directory(base.path) + ref.path
  {
    if ref.path == [] then
      Url(base.scheme, base.host, base.path, if ref.query == map[] then base.query else ref.query)
    else if ref.path[0] == '/' then
      Url(base.scheme, base.host, ref.path, ref.query)
    else
      Url(base.scheme, base.host, Directory(base.path) + ref.path, ref.query)
  }

  /** A relative file name against a base whose path is a directory lands in that directory. */
  lemma ResolveInDirectory(base: Url, name: string, q: Query)
    requires base.path != [] && base.path[|base.path| - 1] == '/'
    requires name != [] && name[0] != '/'
    ensures Resolve(base, Ref(name, q)) == Url(base.scheme, base.host, base.path + name, q)
  {
  }

  /** What decoding a payload into a record of the given kind yields; None is a decoder error. */
  function Decode(p: Payload, kind: Kind): (r: Option<Payload>)
    ensures r.Some? ==> r.value == p && !p.Malformed?
    ensures r.Some? <==> (p.SessionInfo? && kind == SessionInfoKind) || (p.DeviceList? && kind == DeviceListKind)
  {
    match p
    case SessionInfo(_, _, _) => if kind == SessionInfoKind then Some(p) else None
    case DeviceList(_) => if kind == DeviceListKind then Some(p) else None
    case Malformed => None
  }
}
