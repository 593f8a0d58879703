# rx-okhttp, modelled in Dafny

This project models the core of rx-okhttp, a Java library that turns HTTP calls made with
OkHttp into RxJava Observables. It covers five parts:

- **URL resolution** (`Endpoint`, on top of `JavaStrings`). This is how `fullEndpointUrl`
  validates the base URL and the endpoint, normalises the "/" between them and builds the
  query component.
- **The Unix-domain-socket transport's addressing** (`UnixSocket`, on top of `ByteString`):
  - the socket path is hidden in a made-up hostname: the hex of its UTF-8 bytes, then
    ".socket";
  - the DNS hook answers such names with a placeholder address;
  - the socket's `connect` recovers the path from the name;
  - the URL function builds the request URL from the socket path;
  - the socket factory supports one of its five overloads.
- **The delivery protocol of the OkHttp client** (`Delivery`, on top of `Rx`). For each
  operation the model says:
  - what is checked at the call;
  - which request is made once subscribed;
  - exactly which onNext/onError/onCompleted calls the subscriber receives for a given
    response, including the body-reading loops and how they stop when the consumer
    unsubscribes.
- **The request body of `postTarStream`** (`TarUpload`): the file is copied into the sink
  through a 1024-byte buffer.
- **Client settings** (`Config`, `ConfigBuilder`): the immutable `ClientConfig` and its mutable
  builder.

The HTTP exchange is an input of the model. An `Exchange` gives the outcome of the call: a
response (status, reason phrase, body chunks) or an `IOException`. It also says whether the
consumer unsubscribed while the call was in flight.

A subscriber is a flag and a log of the calls it received. Its optional `take` limit stands
for a downstream `first()`/`take(n)`: once it has had that many items it unsubscribes. The
stream specifications are therefore stated against the consumer's remaining budget.

Where the code and the library's documentation disagree, the model follows the code:
- An untouched `ClientConfigBuilder` produces a config whose read timeout is absent. This is
  not the zero of `ClientConfig.defaultConfig()`.
- The collection form of `get` delivers every element of the transformed body. It does not
  check for unsubscription between elements.
- The `postAndReceiveResponse` loop does not stop on its own after it signals an error line. It goes on reading only while the subscriber stays subscribed. Under `subscribe()`, RxJava's `SafeSubscriber` unsubscribes on that error, and the loop's flag test then stops it right after the error line (see "## Left out").
- `postAndReceiveResponse` never sends its `postBody` argument: its request body writes
  nothing.
- `delete` never consults the subscriber's flag.
- The query component is dropped whenever the last value ends in "?" (see "## Findings"). Every operation requests the URL built that way (`FullEndpointUrlAsWritten`); `FullEndpointUrl` is the corrected builder.

## Model

| member | source | states |
|---|---|---|
| Endpoint.BaseApiUrl | src/main/java/com/shekhargulati/reactivex/rxokhttp/RxHttpClient.java:80-83 | fails with "baseApiUrl can't be null or empty" exactly when the base is null or blank after trimming; a base ending in "/" loses exactly that one "/", any other base is kept unchanged |
| Endpoint.EndpointPath | src/main/java/com/shekhargulati/reactivex/rxokhttp/RxHttpClient.java:84-87 | fails with "endpoint can't be null or empty" exactly when the endpoint is null or blank; otherwise it starts with "/", is the endpoint itself when it already did, and "/" + endpoint otherwise |
| Endpoint.StripTrailingSlash | src/main/java/com/shekhargulati/reactivex/rxokhttp/RxHttpClient.java:82 | for a base ending in "/", the result plus "/" is the base; any other base is returned unchanged |
| Endpoint.QueryString | src/main/java/com/shekhargulati/reactivex/rxokhttp/RxHttpClient.java:88-89 | the intended query component: empty exactly when the parameters are null or none, and otherwise it starts with "?" |
| Endpoint.FullEndpointUrl | src/main/java/com/shekhargulati/reactivex/rxokhttp/RxHttpClient.java:79-91 | fails exactly when the base or the endpoint is null or blank, with the base's message first when both are; uses the intended query component |
| Endpoint.FullEndpointUrlAsWritten | src/main/java/com/shekhargulati/reactivex/rxokhttp/RxHttpClient.java:79-91 | the URL as the code builds it, which the client operations request: fails exactly when the base or the endpoint is null or blank, with the base's message first when both are |
| Endpoint.Resolved | src/main/java/com/shekhargulati/reactivex/rxokhttp/RxHttpClient.java:79-91 | when the base and the endpoint are valid, the URL is the normalised base, then the normalised endpoint, then the query component, in that order |
| Endpoint.QueryStringAsWrittenAgrees | src/main/java/com/shekhargulati/reactivex/rxokhttp/RxHttpClient.java:88-89 | the query component as the code builds it equals the intended one if and only if the last parameter's value does not end in "?" |
| Endpoint.FullEndpointUrlAsWrittenAgrees | src/main/java/com/shekhargulati/reactivex/rxokhttp/RxHttpClient.java:79-91 | the code's URL and the intended URL are equal for every base and endpoint whenever the last value does not end in "?" |
| Endpoint.QuestionMarkValueDropsQuery | src/main/java/com/shekhargulati/reactivex/rxokhttp/RxHttpClient.java:89 | base "http://x.com", endpoint "a", q=why?: the code gives "http://x.com/a" and the intended builder gives "http://x.com/a?q=why?" |
| Endpoint.TrailingSlashInsensitive | src/main/java/com/shekhargulati/reactivex/rxokhttp/RxHttpClient.java:82 | adding one "/" to a base that has no trailing "/" leaves the URL unchanged, for every endpoint and parameter list, with the code's builder and with the corrected one |
| Endpoint.OnlyOneSlashStripped | src/main/java/com/shekhargulati/reactivex/rxokhttp/RxHttpClient.java:82 | only one trailing "/" is removed: "http://x.com//" with endpoint "a" gives "http://x.com//a" |
| Endpoint.ResolverTestOneParameter | src/test/java/com/shekhargulati/reactivex/RxHttpClientTest.java:71-75 | "http://example.com/", "about-me", msg=hello resolves to "http://example.com/about-me?msg=hello", with the code's builder and with the corrected one |
| Endpoint.ResolverTestThreeParameters | src/test/java/com/shekhargulati/reactivex/RxHttpClientTest.java:77-81 | three parameters are joined with "&" in the caller's order: "http://example.com/about-me?msg=hello&date=today&sortBy=name", with the code's builder and with the corrected one |
| Endpoint.ResolverTestNoParameters | src/test/java/com/shekhargulati/reactivex/RxHttpClientTest.java:83-94 | null parameters and no parameters both give "http://example.com/about-me", with no "?", with the code's builder and with the corrected one |
| Endpoint.ThreeParametersInOrder | src/main/java/com/shekhargulati/reactivex/rxokhttp/RxHttpClient.java:88 | for any three parameters, the query is "?" followed by the three "name=value" pairs, in order, separated by "&" |
| Endpoint.PlainParts | src/main/java/com/shekhargulati/reactivex/rxokhttp/RxHttpClient.java:79-91 | a base with no trailing "/" and an endpoint with no leading "/" give base + "/" + endpoint + query |
| Endpoint.SlashedParts | src/main/java/com/shekhargulati/reactivex/rxokhttp/RxHttpClient.java:79-91 | a base with exactly one trailing "/" and an endpoint with no leading "/" are joined through that single "/": stem + "/" + endpoint + query |
| Endpoint.LeadingSlashParts | src/main/java/com/shekhargulati/reactivex/rxokhttp/RxHttpClient.java:79-91 | a base with no trailing "/" and an endpoint that already starts with "/" are joined as they are, with no "/" added |
| Endpoint.OneParameter | src/main/java/com/shekhargulati/reactivex/rxokhttp/RxHttpClient.java:88 | a single parameter gives the query "?name=value" |
| Endpoint.JoinThree | src/main/java/com/shekhargulati/reactivex/rxokhttp/RxHttpClient.java:88 | joining three parts puts the separator between neighbours only: x + sep + y + sep + z |
| Endpoint.QuestionMarkQuery | src/main/java/com/shekhargulati/reactivex/rxokhttp/RxHttpClient.java:86-89 | for the single parameter q=why?, the intended query is "?q=why?" while the code's query is "" |
| Endpoint.QueryRoundTrip | src/main/java/com/shekhargulati/reactivex/rxokhttp/RxHttpClient.java:88 | when no name contains "=" or "&" and no value contains "&", reading the built query component back gives the parameters in the caller's order |
| Endpoint.ParsePairOfPair | src/main/java/com/shekhargulati/reactivex/rxokhttp/RxHttpClient.java:88 | reading "name=value" back gives the parameter, when the name has no "=" |
| Endpoint.SplitJoin | src/main/java/com/shekhargulati/reactivex/rxokhttp/RxHttpClient.java:88 | splitting the "&"-joined pairs at "&" gives the pairs back, when no pair contains "&" |
| Endpoint.JoinEndsWithLastPart | src/main/java/com/shekhargulati/reactivex/rxokhttp/RxHttpClient.java:88-89 | a joined string ends with its last part |
| JavaStrings.Trim | src/main/java/com/shekhargulati/reactivex/rxokhttp/RxHttpClient.java:81 | String.trim: empty exactly when the string is blank; otherwise both ends are above U+0020; never longer than the input |
| JavaStrings.IndexOf | src/main/java/com/shekhargulati/reactivex/rxokhttp/OkHttpUnixSocketRxHttpClient.java:132 | String.indexOf: -1 exactly when the pattern does not occur; otherwise the pattern occurs at the index and at no earlier index |
| ByteString.EncodeChar | src/main/java/com/shekhargulati/reactivex/rxokhttp/OkHttpUnixSocketRxHttpClient.java:137 | one to four bytes; one byte exactly for characters below U+0080; every byte after the first is a continuation byte |
| ByteString.Utf8Encode | src/main/java/com/shekhargulati/reactivex/rxokhttp/OkHttpUnixSocketRxHttpClient.java:137 | the UTF-8 form is at least as long as the text and at most four bytes per character |
| ByteString.DecodeEncodedChar | src/main/java/com/shekhargulati/reactivex/rxokhttp/OkHttpUnixSocketRxHttpClient.java:141 | decoding the bytes at the front of an encoded character gives that character and the number of bytes it took |
| ByteString.Utf8DecodeInverse | src/main/java/com/shekhargulati/reactivex/rxokhttp/OkHttpUnixSocketRxHttpClient.java:141 | text read from well-formed UTF-8 encodes back to the same bytes |
| ByteString.Utf8RoundTrip | src/main/java/com/shekhargulati/reactivex/rxokhttp/OkHttpUnixSocketRxHttpClient.java:137-141 | decoding the UTF-8 form of any text gives the text back |
| ByteString.HexEncode | src/main/java/com/shekhargulati/reactivex/rxokhttp/OkHttpUnixSocketRxHttpClient.java:137 | two lower-case hexadecimal digits per byte |
| ByteString.HexDecode | src/main/java/com/shekhargulati/reactivex/rxokhttp/OkHttpUnixSocketRxHttpClient.java:141 | fails with OddLength exactly when the length is odd; succeeds exactly when the length is even and every character is a digit of either case, byte i then being 16 times the digit at 2i plus the digit at 2i+1; otherwise the failure names the first character that is not a digit |
| ByteString.DecodePairs | src/main/java/com/shekhargulati/reactivex/rxokhttp/OkHttpUnixSocketRxHttpClient.java:141 | a success holds one byte per pair of digits; any failure names an unexpected digit |
| ByteString.DecodePairsMeaning | src/main/java/com/shekhargulati/reactivex/rxokhttp/OkHttpUnixSocketRxHttpClient.java:141 | the pair decoding succeeds exactly on all-digit input, with each byte the value of its pair, high digit first; a failure names the first character that is not a digit |
| ByteString.DigitValue | src/main/java/com/shekhargulati/reactivex/rxokhttp/OkHttpUnixSocketRxHttpClient.java:141 | a value below 16 exactly for 0-9, a-f and A-F |
| ByteString.HexRoundTrip | src/main/java/com/shekhargulati/reactivex/rxokhttp/OkHttpUnixSocketRxHttpClient.java:137-141 | decoding the hex form of any bytes gives the bytes back |
| UnixSocket.EncodePath | src/main/java/com/shekhargulati/reactivex/rxokhttp/OkHttpUnixSocketRxHttpClient.java:136-138 | Encoder.encode: lower-case hex, two digits per UTF-8 byte |
| UnixSocket.DecodePath | src/main/java/com/shekhargulati/reactivex/rxokhttp/OkHttpUnixSocketRxHttpClient.java:140-142 | Encoder.decode: a MalformedHex failure exactly when the hex does not decode; a success is text whose UTF-8 form is the decoded bytes |
| UnixSocket.PathRoundTrip | src/main/java/com/shekhargulati/reactivex/rxokhttp/OkHttpUnixSocketRxHttpClient.java:136-142 | Encoder.decode(Encoder.encode(p)) == p for every path |
| UnixSocket.EncodeHostname | src/main/java/com/shekhargulati/reactivex/rxokhttp/OkHttpUnixSocketRxHttpClient.java:126-128 | ends in ".socket"; before it, exactly the encoded path, which holds no "." |
| UnixSocket.DecodeHostname | src/main/java/com/shekhargulati/reactivex/rxokhttp/OkHttpUnixSocketRxHttpClient.java:130-133 | fails with NoSocketSuffix exactly when ".socket" occurs nowhere in the name; otherwise the result is the decoding of the text before the first ".socket" |
| UnixSocket.FirstSuffixIsAppended | src/main/java/com/shekhargulati/reactivex/rxokhttp/OkHttpUnixSocketRxHttpClient.java:126-133 | in an encoded hostname the first ".socket" is the appended one |
| UnixSocket.HostnameRoundTrip | src/main/java/com/shekhargulati/reactivex/rxokhttp/OkHttpUnixSocketRxHttpClient.java:126-133 | decodeHostname(encodeHostname(p)) == p for every path |
| UnixSocket.InterceptedButUndecodable | src/main/java/com/shekhargulati/reactivex/rxokhttp/OkHttpUnixSocketRxHttpClient.java:57-61 | "x.socket" ends in ".socket", so lookup intercepts it, but decoding it fails because the hex has odd length |
| UnixSocket.Lookup | src/main/java/com/shekhargulati/reactivex/rxokhttp/OkHttpUnixSocketRxHttpClient.java:56-61 | a fixed answer exactly when the name ends in ".socket": one address that keeps the name and has address bytes 0.0.0.0; any other name goes to the system resolver unchanged |
| UnixSocket.ConnectRecoversPath | src/main/java/com/shekhargulati/reactivex/rxokhttp/OkHttpUnixSocketRxHttpClient.java:93-104 | for every path and port, lookup answers the encoded hostname with one address, and connect decodes that address back to the path |
| UnixSocket.UnixSocketUrl | src/main/java/com/shekhargulati/reactivex/rxokhttp/OkHttpUnixSocketRxHttpClient.java:37 | scheme "http"; the host is exactly the encoded socket path with ".socket"; the endpoint is the only path segment; the host decodes back to the socket path and lookup intercepts it; the query parameters appear nowhere |
| UnixSocket.UnixSocketUrlIgnoresQuery | src/main/java/com/shekhargulati/reactivex/rxokhttp/OkHttpUnixSocketRxHttpClient.java:37 | any two query parameter lists give the same URL |
| UnixSocket.CreateSocket | src/main/java/com/shekhargulati/reactivex/rxokhttp/OkHttpUnixSocketRxHttpClient.java:63-86 | succeeds exactly for the no-argument overload; the four other overloads throw UnsupportedOperationException |
| Config.DefaultConfig | src/main/java/com/shekhargulati/reactivex/rxokhttp/ClientConfig.java:7-12 | defaultConfig: redirects, SSL redirects and retry on; read timeout zero; write and connect timeouts absent |
| Config.CreateClientConfig | src/main/java/com/shekhargulati/reactivex/rxokhttp/ClientConfig.java:30-32 | each of the six getters returns the argument given for it |
| ConfigBuilder.ClientConfigBuilder.constructor | src/main/java/com/shekhargulati/reactivex/rxokhttp/ClientConfigBuilder.java:6-11 | a new builder holds the three flags on and no timeout |
| ConfigBuilder.ClientConfigBuilder.SetFollowRedirects | src/main/java/com/shekhargulati/reactivex/rxokhttp/ClientConfigBuilder.java:13-16 | changes only followRedirects and returns the same builder |
| ConfigBuilder.ClientConfigBuilder.SetFollowSslRedirects | src/main/java/com/shekhargulati/reactivex/rxokhttp/ClientConfigBuilder.java:18-21 | changes only followSslRedirects and returns the same builder |
| ConfigBuilder.ClientConfigBuilder.SetReadTimeout | src/main/java/com/shekhargulati/reactivex/rxokhttp/ClientConfigBuilder.java:23-26 | changes only readTimeout and returns the same builder |
| ConfigBuilder.ClientConfigBuilder.SetWriteTimeout | src/main/java/com/shekhargulati/reactivex/rxokhttp/ClientConfigBuilder.java:28-31 | changes only writeTimeout and returns the same builder |
| ConfigBuilder.ClientConfigBuilder.SetRetryOnConnectionFailure | src/main/java/com/shekhargulati/reactivex/rxokhttp/ClientConfigBuilder.java:33-36 | changes only retryOnConnectionFailure and returns the same builder |
| ConfigBuilder.ClientConfigBuilder.SetConnectTimeout | src/main/java/com/shekhargulati/reactivex/rxokhttp/ClientConfigBuilder.java:38-41 | changes only connectTimeout and returns the same builder |
| ConfigBuilder.ClientConfigBuilder.CreateClientConfig | src/main/java/com/shekhargulati/reactivex/rxokhttp/ClientConfigBuilder.java:43-45 | the config holds the builder's current six fields; the builder is unchanged |
| ConfigBuilder.UntouchedBuilderConfig | src/main/java/com/shekhargulati/reactivex/rxokhttp/ClientConfigBuilder.java:6-11 | an untouched builder's config differs from defaultConfig, and only in the read timeout: absent instead of zero |
| ConfigBuilder.ConfigurationTestChain | src/test/java/com/shekhargulati/reactivex/rxokhttp/RxHttpClientTest.java:141-148 | the chained setters of the configuration test configure one builder: connect 30 s, write 2 min, no retry, read 1 h, both redirect flags still on |
| ConfigBuilder.LastSetterWins | src/main/java/com/shekhargulati/reactivex/rxokhttp/ClientConfigBuilder.java:23-26 | a second call to a setter overwrites the first; no other field changes |
| Rx.Subscriber.OnNext | src/main/java/com/shekhargulati/reactivex/rxokhttp/OkHttpBasedRxHttpClient.java:111 | appends one onNext to the log; a consumer that now has all the items it asked for is unsubscribed |
| Rx.Subscriber.OnError | src/main/java/com/shekhargulati/reactivex/rxokhttp/OkHttpBasedRxHttpClient.java:116 | appends one onError; the flag is unchanged |
| Rx.Subscriber.OnCompleted | src/main/java/com/shekhargulati/reactivex/rxokhttp/OkHttpBasedRxHttpClient.java:112 | appends one onCompleted; the flag is unchanged |
| Rx.Observed | src/main/java/com/shekhargulati/reactivex/rxokhttp/OkHttpBasedRxHttpClient.java:328-331 | what a consumer that obeys the Rx grammar sees: a prefix of the log, items only before its end, ending at the first terminal event when it is shorter than the log |
| Rx.ObservedOfItems | src/main/java/com/shekhargulati/reactivex/rxokhttp/OkHttpBasedRxHttpClient.java:328-331 | the items before the first terminal event are all seen |
| Rx.ObservedWellFormed | src/main/java/com/shekhargulati/reactivex/rxokhttp/OkHttpBasedRxHttpClient.java:111-112 | a log that obeys the grammar is seen in full |
| Rx.ItemCountAppend | src/main/java/com/shekhargulati/reactivex/rxokhttp/OkHttpBasedRxHttpClient.java:142-144 | the item count of two logs together is the sum of their counts |
| Rx.Budget | src/main/java/com/shekhargulati/reactivex/rxokhttp/OkHttpBasedRxHttpClient.java:142 | no limit exactly when the consumer set none; otherwise what remains of its limit after the items received |
| Delivery.Wanted | src/main/java/com/shekhargulati/reactivex/rxokhttp/OkHttpBasedRxHttpClient.java:142 | a loop reads no more chunks than there are and no more than the consumer wants, and stops only at one of the two |
| Delivery.CollectionEvents | src/main/java/com/shekhargulati/reactivex/rxokhttp/OkHttpBasedRxHttpClient.java:104-125 | the log obeys the Rx grammar; a transport failure gives exactly one onError carrying the IOException; a non-2xx status exactly one onError with code and message; a 2xx for an attached subscriber gives the transformed collection's elements as items, in order, then onCompleted; a 2xx after the subscriber left gives onCompleted alone |
| Delivery.StreamEvents | src/main/java/com/shekhargulati/reactivex/rxokhttp/OkHttpBasedRxHttpClient.java:136-156 | the log obeys the Rx grammar; a transport failure gives exactly one onError carrying the IOException; a non-2xx status exactly one onError with code and message; a 2xx for an attached subscriber gives f of each of the first Wanted chunks, in order, then onCompleted; a 2xx after the subscriber left gives onCompleted alone; never more items than the consumer wants |
| Delivery.SingleEvents | src/main/java/com/shekhargulati/reactivex/rxokhttp/OkHttpBasedRxHttpClient.java:203-216 | the log obeys the Rx grammar; a transport failure gives exactly one onError carrying the IOException; a 2xx for an attached subscriber gives the transformed response then onCompleted; any other completed call, 2xx included, one onError with code and message; at most one item |
| Delivery.DeleteEvents | src/main/java/com/shekhargulati/reactivex/rxokhttp/OkHttpBasedRxHttpClient.java:400-413 | the log obeys the Rx grammar; a transport failure gives exactly one onError carrying the IOException; 2xx gives HttpStatus(code, message) then onCompleted; any other status gives one onError with code and message |
| Delivery.CheckedEvents | src/main/java/com/shekhargulati/reactivex/rxokhttp/OkHttpBasedRxHttpClient.java:324-330 | one event per line read, each an item or an error signal carrying the line |
| Delivery.CheckedReads | src/main/java/com/shekhargulati/reactivex/rxokhttp/OkHttpBasedRxHttpClient.java:322-323 | the checked loop never reads more lines than the body has |
| Delivery.CheckedStreamEvents | src/main/java/com/shekhargulati/reactivex/rxokhttp/OkHttpBasedRxHttpClient.java:318-340 | the log ends with a terminal event; a transport failure gives exactly one onError carrying the IOException; a 2xx for an attached subscriber gives one event per line read (CheckedReads of them), in order, then onCompleted; any other completed call one onError with code and message |
| Delivery.CheckedReadsWithoutErrors | src/main/java/com/shekhargulati/reactivex/rxokhttp/OkHttpBasedRxHttpClient.java:279-291 | with the never-matching checker the short overloads pass, the checked loop reads exactly as far as the plain streaming loop |
| Delivery.CheckedWithoutErrorsIsPlainStream | src/main/java/com/shekhargulati/reactivex/rxokhttp/OkHttpBasedRxHttpClient.java:279-291 | with the never-matching checker the checked loop delivers exactly the plain stream's items |
| Delivery.ReadsReachFirstError | src/main/java/com/shekhargulati/reactivex/rxokhttp/OkHttpBasedRxHttpClient.java:322-330 | the loop reads past the first error line when the consumer still wants items when it arrives |
| Delivery.FirstErrorLineObserved | src/main/java/com/shekhargulati/reactivex/rxokhttp/OkHttpBasedRxHttpClient.java:322-330 | the consumer sees the lines before the first error line as items, then StreamResponseException carrying that line, and nothing after it |
| Delivery.CheckedWellFormedIff | src/main/java/com/shekhargulati/reactivex/rxokhttp/OkHttpBasedRxHttpClient.java:322-333 | the checked log obeys the Rx grammar if and only if none of the lines read is an error line |
| Delivery.CheckedRespectsBudget | src/main/java/com/shekhargulati/reactivex/rxokhttp/OkHttpBasedRxHttpClient.java:322 | the checked stream never delivers more items than the consumer asked for |
| Delivery.UnsubscribedSuccess | src/main/java/com/shekhargulati/reactivex/rxokhttp/OkHttpBasedRxHttpClient.java:114-115 | a 2xx response after the subscriber left: onCompleted alone for the collection and streaming forms, one onError with the status for the single forms and the checked stream |
| Delivery.CollectionDelivered | src/main/java/com/shekhargulati/reactivex/rxokhttp/OkHttpBasedRxHttpClient.java:107-113 | a 2xx collection get, subscriber attached: the consumer observes every element of the transformed body, in order, then onCompleted, one item per element |
| Delivery.StreamDelivered | src/main/java/com/shekhargulati/reactivex/rxokhttp/OkHttpBasedRxHttpClient.java:137-145 | a 2xx stream, subscriber attached: the consumer observes f of the first Wanted chunks, in order, then onCompleted; Wanted items in all; with no limit, the whole body |
| Delivery.SingleDelivered | src/main/java/com/shekhargulati/reactivex/rxokhttp/OkHttpBasedRxHttpClient.java:204-207 | a 2xx single-value call, subscriber attached: the consumer observes the transformed response, then onCompleted |
| Delivery.BodySource.Exhausted | src/main/java/com/shekhargulati/reactivex/rxokhttp/OkHttpBasedRxHttpClient.java:142 | true exactly when every chunk has been taken; otherwise the next chunk is fetched into the buffer first, so at most one chunk is fetched ahead of those taken |
| Delivery.BodySource.Read | src/main/java/com/shekhargulati/reactivex/rxokhttp/OkHttpBasedRxHttpClient.java:143 | takes the fetched chunk out of the buffer and advances the source by one, fetching nothing |
| Delivery.DrainStream | src/main/java/com/shekhargulati/reactivex/rxokhttp/OkHttpBasedRxHttpClient.java:142-144 | takes exactly as many chunks as Wanted allows, one item per chunk, in order; because exhausted() is tested before the flag, one chunk more is fetched whenever the body has one (at most Wanted + 1 fetched) |
| Delivery.DrainChecked | src/main/java/com/shekhargulati/reactivex/rxokhttp/OkHttpBasedRxHttpClient.java:322-330 | takes exactly CheckedReads lines and appends one event per line, in order; one line more is fetched whenever the body has one, as exhausted() is tested before the flag |
| Delivery.DeliverStream | src/main/java/com/shekhargulati/reactivex/rxokhttp/OkHttpBasedRxHttpClient.java:137-155 | appends exactly StreamEvents for the response and makes exactly StreamReads reads |
| Delivery.DeliverSingle | src/main/java/com/shekhargulati/reactivex/rxokhttp/OkHttpBasedRxHttpClient.java:204-215 | appends exactly SingleEvents for the response |
| Delivery.DeliverCollection | src/main/java/com/shekhargulati/reactivex/rxokhttp/OkHttpBasedRxHttpClient.java:107-122 | for a subscriber attached when the call starts, appends exactly CollectionEvents: a transport failure gives one onError, a non-2xx status one onError with code and message, a 2xx every element then onCompleted, or onCompleted alone if the consumer left during the call |
| Delivery.EmitAll | src/main/java/com/shekhargulati/reactivex/rxokhttp/OkHttpBasedRxHttpClient.java:111 | every element of the collection becomes one onNext, in order, and nothing else is logged |
| Delivery.DeliverChecked | src/main/java/com/shekhargulati/reactivex/rxokhttp/OkHttpBasedRxHttpClient.java:318-340 | appends exactly CheckedStreamEvents for the response and makes exactly CheckedStreamReads reads |
| Delivery.EmitChecked | src/main/java/com/shekhargulati/reactivex/rxokhttp/OkHttpBasedRxHttpClient.java:325-329 | one event per line: onNext for a line the checker accepts, onError(StreamResponseException) for a flagged one; only an accepted line can end the subscription |
| Delivery.CheckedTurn | src/main/java/com/shekhargulati/reactivex/rxokhttp/OkHttpBasedRxHttpClient.java:323-330 | one turn of the checked loop adds that line's event, uses up one unit of budget only for an accepted line, reaches zero budget exactly when the consumer is saturated, and leaves one read fewer to do |
| Delivery.StreamTurn | src/main/java/com/shekhargulati/reactivex/rxokhttp/OkHttpBasedRxHttpClient.java:142-144 | one turn of the streaming loop adds that chunk's item and one to the consumer's count; the consumer is saturated exactly when its budget is used up |
| Delivery.DeliverDelete | src/main/java/com/shekhargulati/reactivex/rxokhttp/OkHttpBasedRxHttpClient.java:401-412 | appends exactly DeleteEvents, whatever the subscriber's flag: HttpStatus then onCompleted on 2xx, otherwise one onError |
| Delivery.CollectionGetUrl | src/main/java/com/shekhargulati/reactivex/rxokhttp/OkHttpBasedRxHttpClient.java:103-104 | the endpoint is checked first, with its own message "endpoint can't be null or empty." (with a period); it fails exactly when the base or the endpoint is invalid, and otherwise resolves as the code's fullEndpointUrl does, query builder included |
| Delivery.OkHttpBasedRxHttpClient.GetCollection | src/main/java/com/shekhargulati/reactivex/rxokhttp/OkHttpBasedRxHttpClient.java:101-126 | rejected at the call when the URL cannot be built; no request and no event for a subscriber already unsubscribed; otherwise one GET and exactly CollectionEvents; the URL is the one the code's fullEndpointUrl builds (FullEndpointUrlAsWritten) |
| Delivery.OkHttpBasedRxHttpClient.GetResponseStream | src/main/java/com/shekhargulati/reactivex/rxokhttp/OkHttpBasedRxHttpClient.java:133-157 | rejected at the call when the URL cannot be built; otherwise one GET with no body, exactly StreamEvents, and exactly StreamReads reads; the URL is the one the code's fullEndpointUrl builds (FullEndpointUrlAsWritten) |
| Delivery.OkHttpBasedRxHttpClient.GetResponseBufferStream | src/main/java/com/shekhargulati/reactivex/rxokhttp/OkHttpBasedRxHttpClient.java:164-188 | as getResponseStream, with one buffer per read; the URL is the one the code's fullEndpointUrl builds (FullEndpointUrlAsWritten) |
| Delivery.OkHttpBasedRxHttpClient.GetWithResponseTransformer | src/main/java/com/shekhargulati/reactivex/rxokhttp/OkHttpBasedRxHttpClient.java:200-217 | rejected at the call when the URL cannot be built; otherwise one GET and exactly SingleEvents; the URL is the one the code's fullEndpointUrl builds (FullEndpointUrlAsWritten) |
| Delivery.OkHttpBasedRxHttpClient.Post | src/main/java/com/shekhargulati/reactivex/rxokhttp/OkHttpBasedRxHttpClient.java:259-276 | rejected at the call when the URL cannot be built; otherwise one POST carrying the JSON body and exactly SingleEvents; the URL is the one the code's fullEndpointUrl builds (FullEndpointUrlAsWritten) |
| Delivery.OkHttpBasedRxHttpClient.PostAndReceiveResponse | src/main/java/com/shekhargulati/reactivex/rxokhttp/OkHttpBasedRxHttpClient.java:293-341 | rejected at the call when the URL cannot be built; otherwise one POST whose body writes nothing, exactly CheckedStreamEvents and exactly CheckedReads reads; the URL is the one the code's fullEndpointUrl builds (FullEndpointUrlAsWritten) |
| Delivery.OkHttpBasedRxHttpClient.PostTarStream | src/main/java/com/shekhargulati/reactivex/rxokhttp/OkHttpBasedRxHttpClient.java:343-390 | the URL is resolved with no query parameters; one POST carrying the archive, exactly StreamEvents with the transformer applied to each buffer; the URL is the one the code's fullEndpointUrl builds (FullEndpointUrlAsWritten) |
| Delivery.OkHttpBasedRxHttpClient.Delete | src/main/java/com/shekhargulati/reactivex/rxokhttp/OkHttpBasedRxHttpClient.java:397-414 | one DELETE to the URL with no query parameters and exactly DeleteEvents, whatever the subscriber's flag; the URL is the one the code's fullEndpointUrl builds (FullEndpointUrlAsWritten) |
| Delivery.ShortOverloadAsWritten | src/main/java/com/shekhargulati/reactivex/rxokhttp/OkHttpBasedRxHttpClient.java:278-291 | the short overloads forward the endpoint and the empty body, and an empty parameter array in place of the caller's query parameters |
| Delivery.ShortOverload | src/main/java/com/shekhargulati/reactivex/rxokhttp/OkHttpBasedRxHttpClient.java:278-291 | the corrected short overloads forward the endpoint, the empty body and the caller's query parameters unchanged |
| Delivery.ShortOverloadDropsEveryQuery | src/main/java/com/shekhargulati/reactivex/rxokhttp/OkHttpBasedRxHttpClient.java:278-295 | for every valid base and endpoint and every parameter array, the short overloads as written request base and path with no query |
| Delivery.ShortOverloadDropsQuery | src/test/java/com/shekhargulati/reactivex/rxokhttp/RxHttpClientTest.java:119-138 | on the test's request ("/form", name=shekhar) the code resolves base + "/form"; the corrected overload resolves base + "/form?name=shekhar", as the test expects |
| Delivery.ShortOverloadForwardsQuery | src/main/java/com/shekhargulati/reactivex/rxokhttp/OkHttpBasedRxHttpClient.java:278-295 | the corrected overload requests what the full overload requests for the same parameters; with the corrected query builder the URL ends with the caller's query, which reads back to the parameters in the caller's order |
| TarUpload.FileInput.Read | src/main/java/com/shekhargulati/reactivex/rxokhttp/OkHttpBasedRxHttpClient.java:356 | returns -1 exactly at the end of the file; otherwise between one byte and a bufferful, copied from the file in order |
| TarUpload.Sink.Write | src/main/java/com/shekhargulati/reactivex/rxokhttp/OkHttpBasedRxHttpClient.java:357 | the sink gains the first n bytes of the buffer |
| TarUpload.WriteTarBody | src/main/java/com/shekhargulati/reactivex/rxokhttp/OkHttpBasedRxHttpClient.java:352-361 | the file is read to its end; the sink receives the rest of the file, in order, in writes of 1 to 1024 bytes; earlier writes are unchanged |
| TarUpload.WriteArchive | src/main/java/com/shekhargulati/reactivex/rxokhttp/OkHttpBasedRxHttpClient.java:352-361 | the sink receives the whole archive, in writes of 1 to 1024 bytes |
| TarUpload.FlattenSnoc | src/main/java/com/shekhargulati/reactivex/rxokhttp/OkHttpBasedRxHttpClient.java:357 | one more write appends exactly its bytes to what the sink holds |

## Left out

- OkHttp's `HttpUrl` parsing and canonicalisation (percent-encoding, host lower-casing, default ports) is not modelled. URLs are the strings `fullEndpointUrl` concatenates. The OkHttp client passes that string to the request builder.
- Headers are not modelled, nor the "Content-Type" header the POST and DELETE helpers set. Neither are the overloads that only differ in forwarding headers. One of those, `post(endpoint, headers, bodyTransformer, ...)` at lines 244-247, drops its headers argument.
- The constructors that build the base URL from scheme, host and port, or that install certificates, are not modelled.
- Logging, `System.out` output, and `getClient()` are left out.
- The `OkHttpUnixSocketRxHttpClient` operations delegate to `DefaultOkHttpBasedRxHttpClient`, which is not part of this model. Only its URL function is modelled (`UnixSocket.UnixSocketUrl`).
- The AF_UNIX native socket (connect, bind, streams, timeouts) is left out. So is the `AFUNIXSocket.isSupported()` check in the factory's constructor. `UnixSocket.ConnectPath` models only the path that `connect` opens.
- The system DNS resolver is outside the model. `UnixSocket.Lookup` returns `SystemLookup(hostname)` where the code delegates to it.
- UnixSocket.DecodeHostname: okio's `utf8()` replaces malformed UTF-8 with U+FFFD. The model reports `MalformedUtf8` instead. Hostnames built by `encodeHostname` never reach that case (`UnixSocket.HostnameRoundTrip`).
- Java strings are UTF-16 and may hold unpaired surrogates, which `encodeUtf8` replaces with "?". Dafny strings hold only Unicode scalar values, so that case does not arise in the model.
- Response bodies are modelled as the text of each chunk that `exhausted()` fetches into the source's buffer; the byte level is not modelled.
  - A multi-byte character split across two reads is not modelled.
  - Neither is the amount of data one read brings in; that is OkHttp's choice and an input here.
- Delivery.OkHttpBasedRxHttpClient.GetResponseBufferStream: the buffer handed to `onNext` is the source's own buffer. If the consumer does not drain it, `exhausted()` keeps returning false and the loop hands the same data over again. The model assumes a consumer that drains each buffer, so each item is the next chunk.
- Delivery.OkHttpBasedRxHttpClient.PostTarStream: the same draining consumer is assumed as for the buffer stream.
- An `IOException` raised while the body is being read, after the status has arrived, is not modelled. `CallOutcome` puts I/O failures before any event.
- Exceptions thrown by the caller's transformers and error checkers are not modelled. The functions are total here.
- A tar file that cannot be read is not modelled. The code rethrows it as a `RuntimeException` while OkHttp writes the request.
- Null query parameters inside the array, and null parameter names or values, are not modelled. Java's formatting would write such a name or value as "null". `QueryParameter` holds two strings.
- The text of `ServiceException` messages ("Service returned %d with message %s") is not modelled. `ServiceFailure` keeps the code and the reason phrase the exception carries.
- RxJava's `SafeSubscriber` is not modelled. `subscribe()` wraps the caller's subscriber in one. It stops forwarding after a terminal event, and it also unsubscribes, and the producer's loops test that flag (`OkHttpBasedRxHttpClient.java` lines 142, 173, 323 and 374). Under `subscribe()`, the checked loop therefore stops right after the first error line. The model's `Rx.Subscriber` keeps its flag after `onError`, so the logs are what the producer calls for a subscriber that stays subscribed. `Rx.Observed` gives what a grammar-obeying consumer sees.
- Concurrency is not modelled. Unsubscription during the call is an input, and during the loops it comes only from the consumer's own `take` limit.
- `java.time.Duration` values are whole milliseconds (`nat`). Negative durations are not modelled, and `null` is `None`.
- The `ClientConfig` getters are the fields of the `Config.ClientConfig` datatype, so they have no members of their own.

## Findings

| source | as written | input that shows it | evidently intended | confidence | as-written member | corrected member |
|---|---|---|---|---|---|---|
| src/main/java/com/shekhargulati/reactivex/rxokhttp/RxHttpClient.java:89 | the query component is replaced by "" whenever the joined string ends in "?", which is meant to catch an empty parameter list | one parameter q=why? gives "http://x.com/a" with no query | drop the query only when there are no parameters | not executed | Endpoint.QuestionMarkValueDropsQuery | Endpoint.QueryString |
| src/main/java/com/shekhargulati/reactivex/rxokhttp/OkHttpBasedRxHttpClient.java:278-291 | the three short postAndReceiveResponse overloads do not pass their queryParameters on | postAndReceiveResponse("/form", name=shekhar), from src/test/java/com/shekhargulati/reactivex/rxokhttp/RxHttpClientTest.java:131-136, requests base + "/form" | the caller's query parameters reach the URL, as the test expects | not executed | Delivery.ShortOverloadDropsQuery | Delivery.ShortOverloadForwardsQuery |
