/** The Unix-domain-socket transport's addressing trick: the socket path is carried through
    OkHttp as a made-up hostname (hex of the path's UTF-8 bytes followed by ".socket"), the
    DNS hook answers any such name with a placeholder address that keeps the name, and the
    socket's connect reads the path back out of that name. */
module UnixSocket {
  import opened Base
  import opened JavaStrings
  import opened ByteString
  import Endpoint

  const SocketSuffix: string := ".socket"

  // ---------------------------------------------------------------- Encoder

  /** Encoder.encode: the lower-case hex of the text's UTF-8 bytes. */
  function EncodePath(text: string): (hex: string)
    ensures |hex| == 2 * |Utf8Encode(text)|
    ensures forall i :: 0 <= i < |hex| ==> IsLowerHex(hex[i])
  {
    HexEncode(Utf8Encode(text))
  }

  /** Why turning a hostname back into a socket path fails. */
  datatype DecodeError =
    | NoSocketSuffix            // indexOf(".socket") is -1 and substring(0, -1) throws
    | MalformedHex(HexError)    // decodeHex rejects the part before the suffix
    | MalformedUtf8             // the bytes are not well-formed UTF-8

  /** Encoder.decode: un-hex, then read the bytes as UTF-8. */
  function DecodePath(hex: string): (r: Result<string, DecodeError>)
    ensures r.Failure? && r.error.MalformedHex? <==> HexDecode(hex).Failure?
    ensures r.Failure? ==> !r.error.NoSocketSuffix?
    ensures r.Success? ==> HexDecode(hex).Success? && Utf8Encode(r.value) == HexDecode(hex).value
  {
    match HexDecode(hex)
    case Failure(e) => Failure(MalformedHex(e))
    case Success(bytes) =>
      match Utf8Decode(bytes)
      case None => Failure(MalformedUtf8)
      case Some(text) =>
        Utf8DecodeInverse(bytes);
        Success(text)
  }

  lemma PathRoundTrip(text: string)
    ensures DecodePath(EncodePath(text)) == Success(text)
  {
    HexRoundTrip(Utf8Encode(text));
    Utf8RoundTrip(text);
  }

  // ---------------------------------------------------------------- hostnames

  /** UnixSocket.encodeHostname: the encoded path with ".socket" appended. */
  function EncodeHostname(path: string): (hostname: string)
    ensures EndsWith(hostname, SocketSuffix)
    ensures |hostname| == 2 * |Utf8Encode(path)| + |SocketSuffix|
    ensures hostname[..|hostname| - |SocketSuffix|] == EncodePath(path)
    ensures '.' !in hostname[..|hostname| - |SocketSuffix|]
  {
    var hex := EncodePath(path);
    var hostname := hex + SocketSuffix;
    assert hostname[|hostname| - |SocketSuffix|..] == SocketSuffix;
    assert hostname[..|hex|] == hex;
    assert '.' !in hex by {
      forall i | 0 <= i < |hex| ensures hex[i] != '.' {
        assert IsLowerHex(hex[i]);
      }
    }
    hostname
  }

  /** UnixSocket.decodeHostname: the text before the first ".socket", decoded. */
  function DecodeHostname(hostname: string): (r: Result<string, DecodeError>)
    ensures r == Failure(NoSocketSuffix) <==> forall j :: !OccursAt(hostname, SocketSuffix, j)
    ensures r.Success? ==> exists j :: OccursAt(hostname, SocketSuffix, j)
    ensures IndexOf(hostname, SocketSuffix) >= 0 ==> r == DecodePath(hostname[..IndexOf(hostname, SocketSuffix)])
  {
    var cut := IndexOf(hostname, SocketSuffix);
    if cut == -1 then Failure(NoSocketSuffix)
    else
      var r := DecodePath(hostname[..cut]);
      assert r != Failure(NoSocketSuffix);
      r
  }

  /** The only ".socket" in an encoded hostname is the appended one: the hex digits before
      it contain no '.'. */
  lemma FirstSuffixIsAppended(path: string)
    ensures IndexOf(EncodeHostname(path), SocketSuffix) == |EncodeHostname(path)| - |SocketSuffix|
  {
    var h := EncodeHostname(path);
    var k := |h| - |SocketSuffix|;
    assert OccursAt(h, SocketSuffix, k) by {
      assert h[k..k + |SocketSuffix|] == SocketSuffix;
    }
    forall j | 0 <= j < k ensures !OccursAt(h, SocketSuffix, j) {
      assert h[j] == h[..k][j];
      assert h[j] != '.';
    }
  }

  /** decodeHostname(encodeHostname(p)) == p. */
  lemma HostnameRoundTrip(path: string)
    ensures DecodeHostname(EncodeHostname(path)) == Success(path)
  {
    FirstSuffixIsAppended(path);
    PathRoundTrip(path);
  }

  /** A name that ends in ".socket" but whose prefix is not hex still fails to decode: the
      DNS hook accepts more names than connect can use. */
  lemma InterceptedButUndecodable()
    ensures EndsWith("x.socket", SocketSuffix)
    ensures DecodeHostname("x.socket") == Failure(MalformedHex(OddLength))
  {
    var h := "x.socket";
    assert OccursAt(h, SocketSuffix, 1) by { assert h[1..8] == SocketSuffix; }
    assert !OccursAt(h, SocketSuffix, 0) by { assert h[0] != '.'; }
    assert IndexOf(h, SocketSuffix) == 1;
    assert h[..1] == "x";
  }

  // ---------------------------------------------------------------- DNS hook

  /** An InetAddress made by getByAddress: the given hostname and raw address bytes. */
  datatype InetAddress = InetAddress(hostName: string, address: seq<byte>)

  /** What the DNS hook answers: a fixed list, or whatever the system resolver says for the
      name (the system resolver is outside this model). */
  datatype LookupResult = Addresses(addresses: seq<InetAddress>) | SystemLookup(hostname: string)

  const Unspecified: seq<byte> := [0, 0, 0, 0]

  /** UnixSocketFactory.lookup. */
  function Lookup(hostname: string): (r: LookupResult)
    ensures r.Addresses? <==> EndsWith(hostname, SocketSuffix)
    ensures r.Addresses? ==> r.addresses == [InetAddress(hostname, Unspecified)]
    ensures r.SystemLookup? ==> r.hostname == hostname
  {
    if EndsWith(hostname, SocketSuffix) then Addresses([InetAddress(hostname, Unspecified)])
    else SystemLookup(hostname)
  }

  /** The socket address OkHttp connects to: a resolved address and a port. */
  datatype InetSocketAddress = InetSocketAddress(address: InetAddress, port: int)

  /** The socket path UnixSocket.connect opens for an endpoint. */
  function ConnectPath(endpoint: InetSocketAddress): Result<string, DecodeError> {
    DecodeHostname(endpoint.address.hostName)
  }

  /** Every encoded hostname is answered by the DNS hook, with one address from which
      connect recovers the original path, whatever port is used. */
  lemma ConnectRecoversPath(path: string, port: int)
    ensures Lookup(EncodeHostname(path)).Addresses?
    ensures |Lookup(EncodeHostname(path)).addresses| == 1
    ensures ConnectPath(InetSocketAddress(Lookup(EncodeHostname(path)).addresses[0], port)) == Success(path)
  {
    HostnameRoundTrip(path);
  }

  // ---------------------------------------------------------------- URL function

  /** The parts of the HttpUrl the builder is given: scheme, host and path segments. */
  datatype UrlParts = UrlParts(scheme: string, host: string, pathSegments: seq<string>)

  /** The URL function this client installs: the socket path takes the place of the base
      URL and becomes the host, the endpoint becomes the single path segment, and the query
      parameters are not used. */
  function UnixSocketUrl(socketPath: string, endpoint: string, queryParameters: seq<Endpoint.QueryParameter>): (u: UrlParts)
    ensures u.scheme == "http"
    ensures u.pathSegments == [endpoint]
    ensures u.host == EncodeHostname(socketPath)
    ensures DecodeHostname(u.host) == Success(socketPath)
    ensures Lookup(u.host).Addresses?
  {
    HostnameRoundTrip(socketPath);
    UrlParts("http", EncodeHostname(socketPath), [endpoint])
  }

  /** The query parameters play no part in the URL: any two lists give the same URL. */
  lemma UnixSocketUrlIgnoresQuery(socketPath: string, endpoint: string,
                                  q1: seq<Endpoint.QueryParameter>, q2: seq<Endpoint.QueryParameter>)
    ensures UnixSocketUrl(socketPath, endpoint, q1) == UnixSocketUrl(socketPath, endpoint, q2)
  {
  }

  // ---------------------------------------------------------------- socket factory

  /** The five ways a SocketFactory can be asked for a socket. */
  datatype SocketRequest =
    | Unconnected
    | ToHost(host: string, port: int)
    | ToHostFrom(host: string, port: int, localAddress: InetAddress, localPort: int)
    | ToAddress(address: InetAddress, port: int)
    | ToAddressFrom(address: InetAddress, port: int, localAddress: InetAddress, localPort: int)

  /** A new, not yet connected Unix-domain socket. */
  datatype Socket = UnconnectedUnixSocket

  datatype UnsupportedOperation = UnsupportedOperation

  /** UnixSocketFactory.createSocket, all overloads. */
  function CreateSocket(request: SocketRequest): (r: Result<Socket, UnsupportedOperation>)
    ensures r.Success? <==> request.Unconnected?
  {
    match request
    case Unconnected => Success(UnconnectedUnixSocket)
    case _ => Failure(UnsupportedOperation)
  }
}
