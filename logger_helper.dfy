/**
 * The operation-log helper: it reads the client IP address and the user agent
 * off the request (proxy headers first, then the socket peer), and hands them
 * with the rest of the entry to the log store, swallowing any error the store
 * raises so that logging never breaks the operation being logged.
 */
module LoggerHelper {
  import opened Wrappers
  import opened PyValues
  import opened PyText

  /** The socket peer of a request (`request.client`), a `(host, port)` pair. */
  datatype Address = Address(host: string, port: int)

  /**
   * What the helper reads from a request: the raw header list, whose names the
   * server has already lower-cased, and the peer address when it is known.
   */
  datatype Request = Request(headers: seq<(string, string)>, client: Option<Address>)

  const ForwardedFor: string := "X-Forwarded-For"
  const RealIp: string := "X-Real-IP"
  const ConnectingIp: string := "CF-Connecting-IP"
  const UserAgentHeader: string := "User-Agent"

  /** The position of the first header called `name`, or `|headers|` when there is none. */
  function HeaderIndex(headers: seq<(string, string)>, name: string): (i: nat)
    ensures i <= |headers|
    ensures i < |headers| ==> headers[i].0 == name
    ensures forall j :: 0 <= j < i ==> headers[j].0 != name
  {
    if headers == [] then 0
    else if headers[0].0 == name then 0
    else 1 + HeaderIndex(headers[1..], name)
  }

  /** `request.headers.get(key)`: the value of the first header whose name is `key` lower-cased. */
  function HeaderGet(headers: seq<(string, string)>, key: string): (v: Option<string>)
    ensures v.Some? <==> exists i :: 0 <= i < |headers| && headers[i].0 == Lower(key)
    ensures v.Some? ==> (Lower(key), v.value) in headers
    ensures v.Some? ==> exists i :: 0 <= i < |headers| && headers[i] == (Lower(key), v.value)
                                    && forall j :: 0 <= j < i ==> headers[j].0 != Lower(key)
  {
    var i := HeaderIndex(headers, Lower(key));
    if i < |headers| then Some(headers[i].1) else None
  }

  /** A header as a Python value: its text, or None when it is absent. */
  function HeaderValue(headers: seq<(string, string)>, key: string): Value {
    match HeaderGet(headers, key) case Some(s) => Str(s) case None => Null
  }

  /** `getattr(request, "client", None)`: the address object, or None. */
  function ClientValue(request: Request): Value {
    match request.client
    case Some(a) => Obj(map["host" := Str(a.host), "port" := Int(a.port)])
    case None => Null
  }

  /** The `or` chain over the three proxy headers and the peer address. */
  function IpCandidate(request: Request): Value {
    Or(HeaderValue(request.headers, ForwardedFor),
       Or(HeaderValue(request.headers, RealIp),
          Or(HeaderValue(request.headers, ConnectingIp), ClientValue(request))))
  }

  /** An object with a `host` attribute is replaced by that host. */
  function HostOf(v: Value): Value {
    if Truthy(v) && v.Obj? && "host" in v.attrs then v.attrs["host"] else v
  }

  /** `s.split(",")[0].strip()` when `s` holds a comma; `s` itself otherwise. */
  function FirstSegment(s: string): (r: string)
    ensures ',' !in r
    ensures ',' !in s ==> r == s
  {
    if ',' in s then Strip(BeforeFirst(s, ',')) else s
  }

  /** The comma step on the candidate, which by then is a string or None. */
  function FirstHop(v: Value): (r: Value)
    ensures r.Str? ==> ',' !in r.s
    ensures v.Str? && v.s != "" ==> r == Str(FirstSegment(v.s))
    ensures !(v.Str? && v.s != "") ==> r == v
  {
    if Truthy(v) && v.Str? then Str(FirstSegment(v.s)) else v
  }

  /** The IP address the log entry gets: None without a request or without any source. */
  function ClientIp(request: Option<Request>): (ip: Option<string>)
    ensures request.None? ==> ip.None?
    ensures ip.Some? ==> ',' !in ip.value
  {
    match request
    case None => None
    case Some(req) =>
      match FirstHop(HostOf(IpCandidate(req)))
      case Str(s) => Some(s)
      case _ => None
  }

  /** The name the server stores the user-agent header under. */
  lemma UserAgentName()
    ensures Lower(UserAgentHeader) == "user-agent"
  {
    assert Lower(UserAgentHeader)[0] == 'u';
  }

  /** The user agent the log entry gets: the `User-Agent` header, and None without a request. */
  function UserAgent(request: Option<Request>): (ua: Option<string>)
    ensures request.None? ==> ua.None?
    ensures request.Some? ==> ua == HeaderGet(request.value.headers, UserAgentHeader)
    ensures ua.Some? ==> request.Some? && ("user-agent", ua.value) in request.value.headers
  {
    match request
    case None => None
    case Some(req) => UserAgentName(); HeaderGet(req.headers, UserAgentHeader)
  }

  /** True when the header is present with a non-empty value, so that `or` stops at it. */
  predicate Given(headers: seq<(string, string)>, key: string) {
    HeaderGet(headers, key).Some? && HeaderGet(headers, key).value != ""
  }

  /** A header value stops the `or` chain exactly when the header is given. */
  lemma HeaderTruthy(headers: seq<(string, string)>, key: string)
    ensures Truthy(HeaderValue(headers, key)) <==> Given(headers, key)
    ensures Given(headers, key) ==> HeaderValue(headers, key) == Str(HeaderGet(headers, key).value)
  {
  }

  /** When the `or` chain stops at a given header, the address is that header's first hop. */
  lemma HeaderIp(req: Request, key: string)
    requires Given(req.headers, key) && IpCandidate(req) == HeaderValue(req.headers, key)
    ensures ClientIp(Some(req)) == Some(FirstSegment(HeaderGet(req.headers, key).value))
  {
    HeaderTruthy(req.headers, key);
  }

  /** When the `or` chain falls through to the peer address, the address is the peer's host. */
  lemma PeerIp(req: Request)
    requires IpCandidate(req) == ClientValue(req)
    ensures ClientIp(Some(req)) == match req.client case Some(a) => Some(FirstSegment(a.host)) case None => None
  {
    if req.client.Some? {
      var host := req.client.value.host;
      assert HostOf(ClientValue(req)) == Str(host);
      assert FirstHop(Str(host)) == Str(FirstSegment(host));
    }
  }

  /**
   * The address comes from the first of X-Forwarded-For, X-Real-IP and
   * CF-Connecting-IP that is present and non-empty, and otherwise from the peer
   * address's host; an absent or empty header falls through to the next source.
   */
  lemma IpPrecedence(req: Request)
    ensures Given(req.headers, ForwardedFor) ==>
              ClientIp(Some(req)) == Some(FirstSegment(HeaderGet(req.headers, ForwardedFor).value))
    ensures !Given(req.headers, ForwardedFor) && Given(req.headers, RealIp) ==>
              ClientIp(Some(req)) == Some(FirstSegment(HeaderGet(req.headers, RealIp).value))
    ensures !Given(req.headers, ForwardedFor) && !Given(req.headers, RealIp) && Given(req.headers, ConnectingIp) ==>
              ClientIp(Some(req)) == Some(FirstSegment(HeaderGet(req.headers, ConnectingIp).value))
    ensures !Given(req.headers, ForwardedFor) && !Given(req.headers, RealIp) && !Given(req.headers, ConnectingIp) ==>
              ClientIp(Some(req)) == match req.client case Some(a) => Some(FirstSegment(a.host)) case None => None
  {
    var forwarded := HeaderValue(req.headers, ForwardedFor);
    var realIp := HeaderValue(req.headers, RealIp);
    var connecting := HeaderValue(req.headers, ConnectingIp);
    var peer := ClientValue(req);
    HeaderTruthy(req.headers, ForwardedFor);
    HeaderTruthy(req.headers, RealIp);
    HeaderTruthy(req.headers, ConnectingIp);
    if Given(req.headers, ForwardedFor) {
      assert IpCandidate(req) == forwarded;
      HeaderIp(req, ForwardedFor);
    } else if Given(req.headers, RealIp) {
      assert IpCandidate(req) == realIp;
      HeaderIp(req, RealIp);
    } else if Given(req.headers, ConnectingIp) {
      assert IpCandidate(req) == connecting;
      HeaderIp(req, ConnectingIp);
    } else {
      assert IpCandidate(req) == peer;
      PeerIp(req);
    }
  }

  /** The part before the first separator of `a + [sep] + rest` is `a` when `a` has no separator. */
  lemma {:induction false} BeforeFirstOfJoin(a: string, sep: char, rest: string)
    requires sep !in a
    ensures BeforeFirst(a + [sep] + rest, sep) == a
    decreases |a|
  {
    if a != [] {
      assert (a + [sep] + rest)[1..] == a[1..] + [sep] + rest;
      BeforeFirstOfJoin(a[1..], sep, rest);
    } else {
      assert (a + [sep] + rest)[0] == sep;
    }
  }

  /** A forwarded chain `client, proxy1, proxy2` yields the client, stripped of surrounding blanks. */
  lemma FirstSegmentOfChain(client: string, rest: string)
    requires ',' !in client
    ensures FirstSegment(client + [','] + rest) == Strip(client)
  {
    BeforeFirstOfJoin(client, ',', rest);
    assert (client + [','] + rest)[|client|] == ',';
  }

  /** Taking the first segment again changes nothing, since the result holds no comma. */
  lemma FirstSegmentIdempotent(s: string)
    ensures FirstSegment(FirstSegment(s)) == FirstSegment(s)
  {
  }

  /** Header lookup ignores the case of the key asked for. */
  lemma HeaderKeyCaseInsensitive(headers: seq<(string, string)>, k1: string, k2: string)
    requires Lower(k1) == Lower(k2)
    ensures HeaderGet(headers, k1) == HeaderGet(headers, k2)
  {
  }

  /** An operation-log row as the helper fills it in. */
  datatype LogEntry = LogEntry(
    userId: int,
    username: string,
    actionType: string,
    moduleName: string,
    ipAddress: Option<string>,
    userAgent: Option<string>,
    status: int,
    remark: Option<string>)

  /**
   * Where an insert into the log table goes wrong, if anywhere: the commit
   * raises and the row is not stored, or the commit goes through and the
   * refresh that follows it raises, so the row is stored and yet an error
   * comes back.
   */
  datatype StoreFault = NoFault | CommitFails(error: string) | RefreshFails(error: string)

  /** The operation-log table behind the database session, and the fault its next insert meets. */
  class LogStore {
    var rows: seq<LogEntry>
    var fault: StoreFault

    constructor(fault: StoreFault)
      ensures rows == [] && this.fault == fault
    {
      rows := [];
      this.fault := fault;
    }

    /**
     * `create_log`: add, commit, refresh.  The row is stored unless the commit
     * fails; an error is raised whenever the commit or the refresh fails.
     */
    method CreateLog(entry: LogEntry) returns (raised: Option<string>)
      modifies this
      ensures fault == old(fault)
      ensures raised.None? <==> fault.NoFault?
      ensures raised.Some? ==> raised.value == fault.error
      ensures rows == old(rows) + (if fault.CommitFails? then [] else [entry])
    {
      raised := None;
      if fault.CommitFails? {
        raised := Some(fault.error);
        return;
      }
      rows := rows + [entry];
      if fault.RefreshFails? {
        raised := Some(fault.error);
      }
    }
  }

  /**
   * `log_operation`: builds the entry from the arguments and the request, and
   * asks the store to add it; an error the store raises is swallowed, so the
   * call always returns normally, and the store changes only by that row,
   * which is there unless the commit failed.
   */
  method LogOperation(store: LogStore, userId: int, username: string, actionType: string, moduleName: string,
                      request: Option<Request>, status: int, remark: Option<string>)
    modifies store
    ensures store.fault == old(store.fault)
    ensures store.rows == old(store.rows)
              + (if store.fault.CommitFails?
                 then []
                 else [LogEntry(userId, username, actionType, moduleName, ClientIp(request), UserAgent(request), status, remark)])
  {
    var ipAddress := ClientIp(request);
    var userAgent := UserAgent(request);
    var entry := LogEntry(userId, username, actionType, moduleName, ipAddress, userAgent, status, remark);
    // An error raised by the store is only reported to the application log.
    var _ := store.CreateLog(entry);
  }
}
