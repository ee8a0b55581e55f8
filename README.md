# etcd-beast client core in Dafny

This project models the sequential core of the etcd-beast C++ client. That client talks to etcd through the gRPC-gateway's HTTP/JSON interface.

The model covers four pieces:

- **`JsonStringParserQueue`** (`framer.dfy`, module `Framer`). This is the brace-balance framer that cuts a watch stream into single JSON documents.
  - The `pushData` loop is written twice. The function `Scan` describes it. The class `JsonStringParserQueue` runs it in place, with the fields `dataQueue`, `parsedValuesQueue`, `charCount` and `bracketLevel`.
  - The class methods are proved to end exactly where `Scan` says.
  - `Scan` is proved to keep the framer's invariant, to hand over exactly the complete documents, to lose or duplicate no byte, and to be independent of how the input is chunked.
- **The two response decoders.**
  - `ETCDParsedResponse` (`parsed_response.dfy`, module `ParsedResponses`).
  - The older `ETCDResponse` (`response.dfy`, module `Responses`), including its one-shot future.
  - The checks both decoders share are in `schema.dfy` (module `Schema`): the header members, the five kv members, one kv entry, and the entry loops.
  - Each class's methods are proved against a decoding function (`Decode`, `LegacyParse`), and the properties are proved about those functions. Those properties are:
    - the order of the checks;
    - the first missing member is the one reported;
    - written responses round-trip;
    - the legacy decoder is idempotent;
    - where the two decoders agree and where they differ.
- **The request side of `ETCDClient`** (`client.dfy`, module `Client`; `base64.dfy`, module `Base64`):
  - `base64pad` and `ToBase64`;
  - the checks in `start()`;
  - the targets and JSON bodies of `set`, `get` and `del`;
  - `setVersionUrlPrefix`.
- **The error taxonomy `ETCDError`** (`errors.dfy`, module `Errors`): the error-kind constants, the "no etcd code" sentinel, the constructors and getters, and the two forms of the `what()` message.

Supporting modules:

- `json.dfy` holds the slice of jsoncpp the code uses. The reader and the `FastWriter` are left uninterpreted and passed in as `JsonLib`. The accessors raise jsoncpp's exceptions when a value has the wrong type.
- `decimal.dfy` holds `std::to_string` and `std::stoull`.
- `wrappers.dfy` holds `Option` and `Result`.

A C++ exception is modelled as a returned `Failure`, or as `Option<EtcdError>` for the framer. `Failure` is either an `ETCDError` or a library exception with its `what()` text.

Each class has getters that simply read a field, such as `GetHeader`, `GetKVEntries`, `State` and `GetJsonResponse`. They are reads functions without contracts of their own. The constructor and method contracts state what those fields hold.

After an unmatched `}` the framer's depth does not stay at -1. Each later `pushData` re-scans the same `}` and lowers the depth by one more (src/JsonStringParserQueue.cpp:28). `Framer.StuckStaysStuck` states this.

## Model

| member | source | states |
|---|---|---|
| Errors.ErrorKinds | include/etcd-beast/ETCDError.h:7-26 | The closed set of error kinds has twenty members in strictly increasing order, so they are pairwise distinct. Each is 0 or lies in 11..29, and none equals the "no etcd code" sentinel. |
| Errors.NewError | src/ETCDError.cpp:5 | The two-argument constructor: the getters return the given code and message. The etcd code is whatever the uninitialised field holds. |
| Errors.NewEtcdError | src/ETCDError.cpp:7-16 | The three-argument constructor: the three getters return the three arguments. |
| Errors.WhatRoundTrip | src/ETCDError.cpp:18-26 | `what()` loses nothing. Its text can be read back into three parts: whether the etcd code differs from the sentinel; the code shown, which is the etcd code or else the client's own code; and the full message. |
| Decimal.Stoull | src/ETCDResponse.cpp:29-32 | A header value read by `std::stoull` is below 2^64. |
| Decimal.StoullRefusesOverflow | src/ETCDResponse.cpp:29-32 | A value of 2^64 or more written in decimal is refused, as `std::out_of_range` is thrown; it is never wrapped. |
| Decimal.StoullReadsDecimal | src/ETCDParsedResponse.cpp:28-31 | Every unsigned 64-bit value written in decimal is read back exactly by `std::stoull`. |
| Decimal.StoullNeedsDigits | src/ETCDParsedResponse.cpp:28-31 | Text without a digit is refused by `std::stoull`, as `std::invalid_argument` is thrown. |
| Decimal.IntToStringRoundTrip | src/ETCDError.cpp:21-23 | The decimal text `std::to_string` gives a signed code reads back to that code. |
| Base64.EncodeUnpadded | src/ETCDClient.cpp:39 | The unpadded encoding uses only the alphabet of section 4 of RFC 4648, and its length is ceil(4n/3). |
| Base64.Base64Pad | src/ETCDClient.cpp:29-34 | `base64pad` keeps the text as an unchanged prefix and adds fewer than four characters, all '='. The result's length is a multiple of four. |
| Base64.PadIsIdempotent | src/ETCDClient.cpp:31-33 | Padding an already padded string adds nothing. |
| Base64.ToBase64 | src/ETCDClient.cpp:36-42 | `ToBase64` yields a multiple of four characters, each from the alphabet or '='. |
| Base64.DecodeEncodeUnpadded | src/ETCDResponse.cpp:52-53 | Decoding the unpadded encoding gives back every byte. |
| Base64.DecodeToBase64 | src/ETCDParsedResponse.cpp:65-66 | The response decoders' base64 decoding inverts `ToBase64` for every byte string. |
| Base64.ToBase64IsInjective | src/ETCDClient.cpp:36-42 | Distinct byte strings are sent as distinct base64 texts. |
| Framer.Scan | src/JsonStringParserQueue.cpp:19-45 | The loop leaves the cursor within the buffer. When nothing is thrown, the cursor ends at the end of the buffer. |
| Framer.ScanKeepsInv | src/JsonStringParserQueue.cpp:19-45 | Scanning keeps a framer among its reachable states: either the depth equals '{' minus '}' over the scanned bytes and is at least 0, or the framer is stuck on an unmatched '}'. A scan that throws nothing ends in the first kind. |
| Framer.InvBounds | include/etcd-beast/JsonStringParserQueue.h:13-18 | In every reachable state the cursor is at most 16385 (2^14 + 1) and the depth is at most the cursor. So neither the `uint32_t` cursor nor the `int32_t` depth overflows upwards. The depth has no lower bound once the framer is stuck. |
| Framer.PushSettles | src/JsonStringParserQueue.cpp:18-45 | After a `pushData` that throws nothing, the cursor equals the buffer length and the depth equals the buffer's '{' count minus its '}' count, which is at least 0. |
| Framer.StuckStaysStuck | src/JsonStringParserQueue.cpp:27-33 | After an unmatched '}', every later `pushData` throws `InvalidJsonStrClosure` again and hands over nothing. The depth drops by one more each time. |
| Framer.ScanYieldsFrames | src/JsonStringParserQueue.cpp:35-39 | From a state with no rejected slice buffered (every push that throws nothing keeps this), every slice handed to the reader is exactly one complete document: it ends at the first '}' that brings the depth back to 0. A scan that throws nothing leaves no complete document buffered. |
| Framer.ScanPartitionsBuffer | src/JsonStringParserQueue.cpp:35-39 | Nothing is lost or read twice. The handed-over slices, followed by what stays buffered, are the original buffer. Each slice was accepted by the reader, and the values were queued in order after the earlier ones. |
| Framer.ScanSkipsPlainBytes | src/JsonStringParserQueue.cpp:42-44 | Bytes other than the two braces only move the cursor. |
| Framer.ScanAppend | src/JsonStringParserQueue.cpp:18-19 | A scan looks only at bytes already in the buffer. Bytes appended later are scanned after it has finished, or carried along untouched when it throws. |
| Framer.PushTwiceIsPushOnce | tests/test_general.cpp:210-223 | Pushing `a` and then `b` ends in the same state, with the same documents in the same order, as pushing `a + b`. If pushing `a` throws, pushing `a + b` throws an error of the same kind after handing over the same documents. |
| Framer.ChunkingIndependence | tests/test_general.cpp:210-223 | Any split of the same bytes into chunks gives the same documents and the same final framer as one push, when no push throws. |
| Framer.OneDocument | tests/test_general.cpp:210 | One brace-free object pushed into an idle framer is handed over whole, and the framer is idle again. |
| Framer.SplitDocument | tests/test_general.cpp:211-219 | The same object split before its closing brace is handed over once, after the second push. |
| Framer.ThreeDocuments | tests/test_general.cpp:221-223 | Three objects in one push are three documents, in order. |
| Framer.StrayClosingBrace | tests/test_general.cpp:225-228 | A lone '}' throws `InvalidJsonStrClosure`, and so does every push after it. |
| Framer.JsonStringParserQueue.constructor | include/etcd-beast/JsonStringParserQueue.h:15-18 | A new framer has an empty buffer, an empty queue, cursor 0 and depth 0. |
| Framer.JsonStringParserQueue.ParseAndAppendJson | src/JsonStringParserQueue.cpp:5-13 | A slice the reader accepts has its value queued at the end. A rejected slice throws `FailedToParseJsonFromQueue` with the slice in the message and queues nothing. |
| Framer.JsonStringParserQueue.PushData | src/JsonStringParserQueue.cpp:16-46 | Appends the data and scans from the saved cursor. The new state and the thrown error are those of `Push`, and the framer stays in a reachable state. |
| Framer.JsonStringParserQueue.ScanPending | src/JsonStringParserQueue.cpp:19-45 | The in-place `while` loop ends in the state, with the error, that `Scan` gives. |
| Framer.JsonStringParserQueue.CloseBracket | src/JsonStringParserQueue.cpp:27-41 | One turn at a '}'. Either it throws and the framer is where `Scan` stops, or it makes progress and `Scan` still ends in the same place. |
| Framer.JsonStringParserQueue.PullDataAndClear | src/JsonStringParserQueue.cpp:48-52 | Returns every document queued since the last pull and leaves the queue empty. |
| Framer.JsonStringParserQueue.Clear | src/JsonStringParserQueue.cpp:54-60 | Resets the buffer, the queue, the cursor and the depth. |
| Schema.CheckMembersFindsFirstMissing | src/ETCDParsedResponse.cpp:71-88 | On an object, the presence checks pass exactly when every member is present. Otherwise they report the first absent member, in check order, with `InvalidMsgHeader`. |
| Schema.HeaderRoundTrip | src/ETCDParsedResponse.cpp:27-31 | A header written as decimal text passes the header checks, and its four values are read back exactly. |
| Schema.ParseSingleKvEntry | src/ETCDParsedResponse.cpp:58-69 | An entry decodes only if it is an object holding all five kv members. |
| Schema.ParseSingleKvEntryReadsMembers | src/ETCDParsedResponse.cpp:58-69 | An entry decodes exactly when it is an object with the five members and each converts to text. The entry then holds the base64 decoding of `key` and `value` and the three revision texts as sent. |
| Schema.KvEntryOfStrings | src/ETCDParsedResponse.cpp:58-69 | For any five strings, an entry holding them decodes to the decoded key and value and the revisions verbatim. |
| Schema.KvRoundTrip | src/ETCDParsedResponse.cpp:58-69 | An entry written as the gateway writes it decodes back to the same key and value bytes and the same three revision strings. |
| Schema.MissingKvMemberIsHeaderError | src/ETCDParsedResponse.cpp:90-107 | A kv entry that lacks a member is refused with `InvalidMsgHeader` (17), never with `InvalidMsgKvContent` (18). |
| Schema.Collect | src/ETCDParsedResponse.cpp:36-38 | An entry loop never pushes more entries than it has items. |
| Schema.CollectStopsAtFailure | src/ETCDParsedResponse.cpp:36-38 | Once a turn of an entry loop throws, no later turn runs. |
| Schema.CollectAllPushed | src/ETCDParsedResponse.cpp:36-38 | A loop in which every turn pushes yields exactly those entries, in order. |
| Schema.CollectIgnoresSkips | src/ETCDParsedResponse.cpp:42-46 | Items that are skipped (events without `kv`) change nothing. |
| ParsedResponses.ReaderRejectionComesFirst | src/ETCDParsedResponse.cpp:19-22 | Non-empty text the reader rejects fails with `FailedToParseJsonMessage` before any other check. |
| ParsedResponses.EtcdErrorComesFirst | src/ETCDParsedResponse.cpp:109-118 | An `error` member wins over the header and entry checks. The response fails with `EtcdReturnedError`, carrying etcd's `code` (or -1 when absent). The message is the fixed prefix, then etcd's `error` text (or the whole response written out when `error` is not a string), then "; Full json response: " and the whole response written out. `what()` shows the code as an etcd code. |
| ParsedResponses.EventsAreTheirKvs | src/ETCDParsedResponse.cpp:40-47 | When every event is an object, decoding the events is decoding their `kv` members in order. Events without one are skipped. |
| ParsedResponses.DecodeWrittenEntries | src/ETCDParsedResponse.cpp:34-39 | Entries written as the gateway writes them decode back to themselves, in order. |
| ParsedResponses.DecodeWrittenResponse | src/ETCDParsedResponse.cpp:14-48 | A well-formed response decodes to exactly the header and the entries it carries. |
| ParsedResponses.ParsedResponse.constructor | src/ETCDParsedResponse.cpp:6-8 | Before `parse`, the header is all zeros and there are no entries. |
| ParsedResponses.ParsedResponse.Parse | src/ETCDParsedResponse.cpp:14-48 | Assigns the header and rebuilds the entry list as `DecodeBody` decodes them, or throws the first failure. |
| ParsedResponses.ParsedResponse.AssignHeader | src/ETCDParsedResponse.cpp:28-31 | The four `stoull` assignments leave the header `ReadHeader` reads, or throw its error. |
| ParsedResponses.ParsedResponse.FillEntries | src/ETCDParsedResponse.cpp:33-47 | Clears the list, then leaves the `kvs` entries followed by the `events` entries, or throws the first failure. |
| ParsedResponses.ParsedResponse.AppendKvs | src/ETCDParsedResponse.cpp:34-39 | Appends the entries of `kvs` when it is present, or throws. |
| ParsedResponses.ParsedResponse.AppendEvents | src/ETCDParsedResponse.cpp:40-47 | Appends the entries of `events` when it is present, or throws. |
| ParsedResponses.ParsedResponse.PushKvList | src/ETCDParsedResponse.cpp:36-38 | The `kvs` loop appends the entries decoded before the first failure, and reports that failure. |
| ParsedResponses.ParsedResponse.PushEvents | src/ETCDParsedResponse.cpp:42-46 | The `events` loop appends the `kv` entry of each event that has one, up to the first failure. |
| ParsedResponses.New | src/ETCDParsedResponse.cpp:6-12 | Construction yields an object holding what `Decode` gives: an empty text is not parsed. Otherwise it throws `Decode`'s failure. |
| Responses.AssignHeaderFields | src/ETCDResponse.cpp:29-32 | The legacy header assignments succeed exactly when `ReadHeader` does, and then leave its header. Otherwise they throw its error. A field takes the value read only when it and every field before it were read; the others keep their old value. |
| Responses.LegacyParseIsIdempotent | src/ETCDResponse.cpp:10-41 | `isParsed` is never set, so every getter parses again. A second parse changes nothing and throws what the first threw, so entries are not duplicated. |
| Responses.LegacyAgreesWithParsed | src/ETCDResponse.cpp:26-40 | On a response the reader accepts, with no `events` member, that `ETCDParsedResponse` decodes: the legacy decoder reads the same header. It reads the same entries when `kvs` is present and keeps its old entries when it is not. |
| Responses.LegacyReadsWrittenResponse | src/ETCDResponse.cpp:10-41 | A well-formed response is read by the legacy decoder to exactly its header and entries. |
| Responses.DecodersDisagreeOnMissingCode | src/ETCDResponse.cpp:96-102 | For an `error` without a `code`, the legacy decoder throws etcd code 0 with the bare message, while `ETCDParsedResponse` throws -1. |
| Responses.ResponseFuture.constructor | src/ETCDResponse.cpp:118-122 | A new future holds its body and has not been taken. |
| Responses.ResponseFuture.Get | src/ETCDResponse.cpp:128 | Taking the body marks the future as taken. |
| Responses.Response.constructor | src/ETCDResponse.cpp:118-122 | A new response owns an untaken future and has no body yet. Its header fields are zero and it has no entries, an assumption explained under "Left out". |
| Responses.Response.Wait | src/ETCDResponse.cpp:124-131 | The body is taken from the future at most once. Afterwards the response holds the future's body, and the decoded fields are unchanged. |
| Responses.Response.Parse | src/ETCDResponse.cpp:10-41 | Takes the body if need be, then leaves the fields and the error that `LegacyParse` gives from the previous fields. When already parsed, it does nothing. |
| Responses.Response.ParseRoot | src/ETCDResponse.cpp:26-40 | The decoding steps after the read end where `LegacyParseRoot` says, including partial header updates. |
| Responses.Response.AssignHeader | src/ETCDResponse.cpp:29-32 | The four assignments, field by field: a field whose `stoull` throws, and every field after it, keeps its old value. |
| Responses.Response.FillKvs | src/ETCDResponse.cpp:34-40 | The list is cleared and refilled only when `kvs` is present. |
| Responses.Response.PushKvList | src/ETCDResponse.cpp:37-39 | The `kvs` loop appends the entries decoded before the first failure, and reports that failure. |
| Responses.Response.GetKVEntries | src/ETCDResponse.cpp:110-114 | Parses, then returns the entry list `LegacyParse` leaves, or its error. |
| Responses.Response.KvCount | src/ETCDResponse.cpp:133-137 | Parses, then returns the length of that same entry list, or its error. |
| Client.StartChecks | src/ETCDClient.cpp:9-14 | `start()` passes exactly when the thread count is positive and the address non-empty. The thread count is checked first (11), then the address (12). |
| Client.NewClient | src/ETCDClient.cpp:44-52 | Construction fails only for a non-empty address with zero threads, and then with error 11. Error 12 cannot arise here. The client keeps its arguments and the default prefix. |
| Client.EtcdClient.constructor | src/ETCDClient.cpp:44-48 | Stores the address, port and thread count, and the prefix starts as `/v3alpha`. |
| Client.EtcdClient.SetRequest | src/ETCDClient.cpp:56-65 | `set` posts to the fixed `/v3alpha/kv/put`, whatever the prefix. The body gives back exactly the base64 key and value texts. |
| Client.EtcdClient.GetRequest | src/ETCDClient.cpp:67-75 | `get` posts to the prefix plus `/kv/range`, and the body gives back exactly the base64 key text. |
| Client.EtcdClient.DelRequest | src/ETCDClient.cpp:77-85 | `del` posts to the prefix plus `/kv/deleterange`, with the same body as `get`. |
| Client.EtcdClient.SetVersionUrlPrefix | src/ETCDClient.cpp:111 | Later `get` and `del` targets start with the new prefix. |
| Client.Base64IsQuoteFree | src/ETCDClient.cpp:60-63 | Base64 text holds no '"', so it cannot end the JSON string it is placed in. |
| Client.ReadKeyBodyInverts | src/ETCDClient.cpp:73 | A `get` or `del` body is parsed back to exactly the key text placed in it. |
| Client.ReadSetBodyInverts | src/ETCDClient.cpp:63 | A `set` body is parsed back to exactly the key and value texts placed in it. |
| Client.SetRequestIsInjective | src/ETCDClient.cpp:56-65 | Distinct keys or values give distinct `set` requests. |
| Client.KeyBodyIsInjective | src/ETCDClient.cpp:67-75 | Distinct keys give distinct `get` and `del` bodies. |
| Client.SetThenGetReadsValueBack | tests/test_general.cpp:33-37 | Suppose the gateway answers `get` with the texts the `set` body carried. Then the response yields exactly the key and value that were set. |

## Left out

- The HTTP session (src/HttpSession.cpp), the watch (src/ETCDWatch.cpp), `customCommand`, `watch`, `stop()` and the thread pool and io_context work guard that `start()` creates. These are asynchronous network I/O and threads. A request is modelled as the `Request` value handed to `customCommand`.
- `ToBase64PlusOne`, `getAll`, `delAll`, `leaseGrant`, `leaseRevoke`, `leaseTimeToLive` and `LEASE_MIN_TTL` are declared in include/etcd-beast/ETCDClient.h but have no definition in the sources, so there is no behaviour to model.
- Where a header and its source file differ, the model follows the `.cpp` file:
  - `set`'s `leaseID` parameter;
  - `kvEntriesVec`, `kvEntriesMap` and the lease getters of `ETCDParsedResponse`;
  - `parsedData` of `ETCDResponse`;
  - `clusterId`, `memberId`, `revision`, `raftTerm` and `kvEntries` of `ETCDResponse`. src/ETCDResponse.cpp uses them, but include/etcd-beast/ETCDResponse.h does not declare them and the constructor (src/ETCDResponse.cpp:118-122) initialises only the future. The model assumes they start at zero and empty.
- jsoncpp's reader and `FastWriter` are uninterpreted parameters. Only the success flag and the root the reader reports are used. Floating-point numbers and the distinction between signed, unsigned and 64-bit JSON integers are not modelled: numbers are unbounded integers, and `asInt` refuses what does not fit in 32 bits.
- `bn::encode_b64` (BaseN.h) is not part of this model. Its output is taken to be the unpadded encoding of section 4 of RFC 4648.
- `bn::decode_b64` and `boost::beast::detail::base64_decode` are not part of this model either. Both are modelled by one decoder: it decodes the alphabet characters up to the first other character, padding included, and never fails.
- Keys and values are byte strings, while JSON strings are character strings. No character encoding is modelled between the two.
- The legacy `__processIfError` builds its exception from `v["code"].asInt()` and `v["error"].asString()`. C++ does not fix the order in which these arguments are evaluated. The model evaluates `code` first, so when both throw, the `code` exception is the one reported.
- The exceptions of the future itself (a broken promise, a transport error), the HTTP status line and the headers of the response are not modelled. The future only yields a body, once.
- `ETCDError`'s `long` fields are modelled as unbounded integers. The sentinel is the 64-bit `std::numeric_limits<long>::min()`.
- The `fullMessage` cache of `what()` is modelled as the returned text, since it is rebuilt from the unchanged fields on every call.
- Default arguments are not modelled: those of the constructors, and the "/v3alpha" default of `setVersionUrlPrefix` (include/etcd-beast/ETCDClient.h:44). Every construction in the core passes its arguments explicitly, so the three-argument constructor's default etcd code (the sentinel) is never used there. `Client.EtcdClient.SetVersionUrlPrefix` always takes the prefix as an argument; calling it with "/v3alpha" gives the default's effect.
- The port and the thread count are bounded to `uint16_t` and `unsigned`, and `std::thread::hardware_concurrency()` as the default thread count is not modelled.
- After a document is erased, src/JsonStringParserQueue.cpp:38 subtracts `std::distance(begin, begin + charCount)` from the cursor. That forms an iterator past the end whenever fewer than `charCount` bytes remain. The model sets the cursor to 0, which is what the subtraction yields when the iterator arithmetic is carried out as plain pointer arithmetic.
- Framer.InvBounds: the `int32_t` depth is bounded only from above. Once the framer is stuck on an unmatched '}', each later `pushData` lowers the depth by one (src/JsonStringParserQueue.cpp:28), so after about 2^31 failing pushes that decrement would overflow. The model's depth is an unbounded integer and does not capture this.
- Framer.ScanYieldsFrames: it holds only from a state with no rejected slice buffered. When the reader rejects a slice (error 21, src/JsonStringParserQueue.cpp:9-11), the slice is not erased and the cursor stays past it at depth 0, so every later slice starts with the rejected bytes and is not a single document.
- ParsedResponses.ParsedResponse.Parse: when it throws, the contract does not state which header fields were already assigned. The constructor rethrows, so the partly filled object is never observable. `ParsedResponses.New` states this.
- Framer.JsonStringParserQueue.PullDataAndClear: the source moves the queue out, which leaves a valid but unspecified vector. The model states it is empty, which is what the standard library implementations leave.
- Framer.ScanAppend: when the shorter scan throws, the longer one is stated to throw an error of the same kind, not the same message. An unmatched '}' reports the whole buffer, which then includes the appended bytes.
- Framer.PushTwiceIsPushOnce: for the same reason, an error is matched by kind and not by message.
- Responses.ResponseFuture.Get: a second `get()` on a `std::future` is undefined behaviour, so the model requires that the body has not been taken yet.
