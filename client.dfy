/**
 * The request side of `ETCDClient`: the checks of `start()`, the fixed
 * targets and JSON bodies of `set`, `get` and `del`, and the version prefix
 * that `setVersionUrlPrefix` replaces. Keys and values travel as
 * `ToBase64` text inside the bodies.
 */
module Client {
  import opened Wrappers
  import opened Errors
  import opened Json
  import opened Schema
  import opened Base64
  import ParsedResponses
  import Responses
  import Decimal

  /** `uint16_t`. */
  type Port = p: int | 0 <= p < 0x1_0000

  /** `unsigned`. */
  type UInt32 = n: int | 0 <= n < 0x1_0000_0000

  /** The in-class initial value of `ETCDVersionPrefix` (etcd 3.2's gateway). */
  const DefaultVersionPrefix: string := "/v3alpha"

  /** `set` posts here whatever the configured prefix is. */
  const PutTarget: string := "/v3alpha/kv/put"
  const RangePath: string := "/kv/range"
  const DeleteRangePath: string := "/kv/deleterange"

  /** The three pieces of text around the base64 key and value in a request body. */
  const KeyOpen: string := "{\"key\": \""
  const ValueOpen: string := "\", \"value\": \""
  const BodyClose: string := "\"}"

  /** What `customCommand` is handed: the target and the JSON body of one POST. */
  datatype Request = Request(target: string, body: string)

  /**
   * The guards of `start()`: the thread count is checked before the
   * address, and the first failing guard is thrown.
   */
  function StartChecks(address: string, threadCount: UInt32): (err: Option<EtcdError>)
    ensures err.None? <==> threadCount > 0 && address != []
    ensures threadCount == 0 ==> err == Some(NewError(InvalidNumOfThreads, "Invalid number of threads"))
    ensures threadCount > 0 && address == [] ==> err == Some(NewError(InvalidAddress, "Invalid address"))
  {
    if threadCount <= 0 then Some(NewError(InvalidNumOfThreads, "Invalid number of threads"))
    else if address == [] then Some(NewError(InvalidAddress, "Invalid address"))
    else None
  }

  /** The body of `get` and `del`. */
  function KeyBody(k64: string): string {
    KeyOpen + k64 + BodyClose
  }

  /** The body of `set`. */
  function SetBody(k64: string, v64: string): string {
    KeyOpen + k64 + ValueOpen + v64 + BodyClose
  }

  predicate QuoteFree(s: string) {
    forall i :: 0 <= i < |s| ==> s[i] != '"'
  }

  /** The index of the first '"' in `s`, or `|s|`. */
  function FirstQuote(s: string): (k: nat)
    ensures k <= |s| && QuoteFree(s[..k])
    ensures k < |s| ==> s[k] == '"'
  {
    if s == [] || s[0] == '"' then 0
    else
      var k := 1 + FirstQuote(s[1..]);
      assert s[..k] == [s[0]] + s[1..][..k - 1];
      k
  }

  /** Reads the key text back out of a `get` or `del` body, as the gateway would. */
  function ReadKeyBody(body: string): Option<string> {
    if |body| >= |KeyOpen| && body[..|KeyOpen|] == KeyOpen then
      var rest := body[|KeyOpen|..];
      var k := FirstQuote(rest);
      if rest[k..] == BodyClose then Some(rest[..k]) else None
    else None
  }

  /** Reads the key and value texts back out of a `set` body. */
  function ReadSetBody(body: string): Option<(string, string)> {
    if |body| >= |KeyOpen| && body[..|KeyOpen|] == KeyOpen then
      var rest := body[|KeyOpen|..];
      var k := FirstQuote(rest);
      var after := rest[k..];
      if |after| >= |ValueOpen| && after[..|ValueOpen|] == ValueOpen then
        var tail := after[|ValueOpen|..];
        var j := FirstQuote(tail);
        if tail[j..] == BodyClose then Some((rest[..k], tail[..j])) else None
      else None
    else None
  }

  /** Base64 text never holds a '"', so it cannot end the JSON string it is placed in. */
  lemma Base64IsQuoteFree(s: seq<Byte>)
    ensures QuoteFree(ToBase64(s))
  {
  }

  lemma {:induction false} FirstQuoteAfter(a: string, b: string)
    requires QuoteFree(a) && |b| > 0 && b[0] == '"'
    ensures FirstQuote(a + b) == |a|
    decreases |a|
  {
    if a == [] {
      assert a + b == b;
    } else {
      assert (a + b)[1..] == a[1..] + b;
      FirstQuoteAfter(a[1..], b);
    }
  }

  /** A `get` or `del` body gives back exactly the key text placed in it. */
  lemma ReadKeyBodyInverts(k64: string)
    requires QuoteFree(k64)
    ensures ReadKeyBody(KeyBody(k64)) == Some(k64)
  {
    var body := KeyBody(k64);
    var rest := k64 + BodyClose;
    assert body == KeyOpen + rest;
    assert body[..|KeyOpen|] == KeyOpen && body[|KeyOpen|..] == rest;
    FirstQuoteAfter(k64, BodyClose);
    assert rest[..|k64|] == k64 && rest[|k64|..] == BodyClose;
  }

  /** A `set` body gives back exactly the key and value texts placed in it. */
  lemma ReadSetBodyInverts(k64: string, v64: string)
    requires QuoteFree(k64) && QuoteFree(v64)
    ensures ReadSetBody(SetBody(k64, v64)) == Some((k64, v64))
  {
    var body := SetBody(k64, v64);
    var tail := v64 + BodyClose;
    var after := ValueOpen + tail;
    var rest := k64 + after;
    assert body == KeyOpen + rest;
    assert body[..|KeyOpen|] == KeyOpen && body[|KeyOpen|..] == rest;
    FirstQuoteAfter(k64, after);
    assert rest[..|k64|] == k64 && rest[|k64|..] == after;
    assert after[..|ValueOpen|] == ValueOpen && after[|ValueOpen|..] == tail;
    FirstQuoteAfter(v64, BodyClose);
    assert tail[..|v64|] == v64 && tail[|v64|..] == BodyClose;
  }

  class EtcdClient {
    const address: string
    const port: Port
    const threadCount: UInt32
    /** `ETCDVersionPrefix`. */
    var versionPrefix: string

    /** The field assignments of the constructor; `start()` is run by `NewClient`. */
    constructor (address: string, port: Port, threadCount: UInt32)
      ensures this.address == address && this.port == port && this.threadCount == threadCount
      ensures versionPrefix == DefaultVersionPrefix
    {
      this.address := address;
      this.port := port;
      this.threadCount := threadCount;
      versionPrefix := DefaultVersionPrefix;
    }

    /** `set(key, value)`: the fixed put target, and a body that carries both texts. */
    function SetRequest(key: seq<Byte>, value: seq<Byte>): (r: Request)
      ensures r.target == PutTarget
      ensures ReadSetBody(r.body) == Some((ToBase64(key), ToBase64(value)))
    {
      Base64IsQuoteFree(key);
      Base64IsQuoteFree(value);
      ReadSetBodyInverts(ToBase64(key), ToBase64(value));
      Request(PutTarget, SetBody(ToBase64(key), ToBase64(value)))
    }

    /** `get(key)`: the range path under the current prefix. */
    function GetRequest(key: seq<Byte>): (r: Request)
      reads this
      ensures r.target == versionPrefix + RangePath
      ensures ReadKeyBody(r.body) == Some(ToBase64(key))
    {
      Base64IsQuoteFree(key);
      ReadKeyBodyInverts(ToBase64(key));
      Request(versionPrefix + RangePath, KeyBody(ToBase64(key)))
    }

    /** `del(key)`: the delete-range path under the current prefix, with the same body as `get`. */
    function DelRequest(key: seq<Byte>): (r: Request)
      reads this
      ensures r.target == versionPrefix + DeleteRangePath
      ensures ReadKeyBody(r.body) == Some(ToBase64(key))
      ensures r.body == GetRequest(key).body
    {
      Base64IsQuoteFree(key);
      ReadKeyBodyInverts(ToBase64(key));
      Request(versionPrefix + DeleteRangePath, KeyBody(ToBase64(key)))
    }

    /** `setVersionUrlPrefix(str)`: later `get` and `del` targets start with `str`. */
    method SetVersionUrlPrefix(str: string)
      modifies this`versionPrefix
      ensures versionPrefix == str
    {
      versionPrefix := str;
    }
  }

  /**
   * `ETCDClient(Address, Port, ThreadCount)`: `start()` runs only for a
   * non-empty address, so construction fails only for a zero thread count.
   */
  method NewClient(address: string, port: Port, threadCount: UInt32) returns (r: Result<EtcdClient, EtcdError>)
    ensures r.Failure? <==> address != [] && threadCount == 0
    ensures r.Failure? ==> r.error == NewError(InvalidNumOfThreads, "Invalid number of threads")
    ensures r.Success? ==> r.value.address == address && r.value.port == port && r.value.threadCount == threadCount
    ensures r.Success? ==> r.value.versionPrefix == DefaultVersionPrefix
  {
    var client := new EtcdClient(address, port, threadCount);
    if address != [] {
      var err := StartChecks(address, threadCount);
      if err.Some? {
        return Failure(err.value);
      }
    }
    r := Success(client);
  }

  /** Distinct keys or values give distinct `set` requests. */
  lemma SetRequestIsInjective(c: EtcdClient, k1: seq<Byte>, v1: seq<Byte>, k2: seq<Byte>, v2: seq<Byte>)
    requires c.SetRequest(k1, v1) == c.SetRequest(k2, v2)
    ensures k1 == k2 && v1 == v2
  {
    ToBase64IsInjective(k1, k2);
    ToBase64IsInjective(v1, v2);
  }

  /** Distinct keys give distinct `get` (and `del`) bodies. */
  lemma KeyBodyIsInjective(c: EtcdClient, k1: seq<Byte>, k2: seq<Byte>)
    requires c.GetRequest(k1).body == c.GetRequest(k2).body
    ensures k1 == k2
  {
    ToBase64IsInjective(k1, k2);
  }

  /** The kv entry the gateway stores for a `set`: the texts the body carried, and its revisions. */
  function StoredEntry(sent: (string, string), createRevision: string, modRevision: string, version: string): Json {
    JObject(map[
      "key" := JString(sent.0), "value" := JString(sent.1),
      "create_revision" := JString(createRevision), "mod_revision" := JString(modRevision),
      "version" := JString(version)])
  }

  /**
   * A value written by `set` is read back by `get`: when the gateway answers
   * the range request with the key and value texts the `set` body carried,
   * the response object yields exactly that key and value.
   */
  lemma SetThenGetReadsValueBack(
    c: EtcdClient, lib: JsonLib, key: seq<Byte>, value: seq<Byte>,
    body: string, h: Header, createRevision: string, modRevision: string, version: string,
    st: Responses.LegacyState)
    requires h.clusterId < Decimal.U64Modulus && h.memberId < Decimal.U64Modulus
    requires h.revision < Decimal.U64Modulus && h.raftTerm < Decimal.U64Modulus
    requires ReadSetBody(c.SetRequest(key, value).body).Some?
    requires var stored := StoredEntry(ReadSetBody(c.SetRequest(key, value).body).value, createRevision, modRevision, version);
      body != [] && lib.read(body) == ReadOutcome(true, JObject(map["header" := HeaderJson(h), "kvs" := JArray([stored])]))
    ensures Responses.LegacyParse(lib, body, st)
      == Responses.LegacyOutcome(Responses.LegacyState(h, [KVEntry(key, value, createRevision, modRevision, version)]), None)
  {
    var entry := KVEntry(key, value, createRevision, modRevision, version);
    StoredEntryIsWritten(c, key, value, createRevision, modRevision, version);
    assert ParsedResponses.EntriesJson([entry]) == [ParsedResponses.EntryJson(entry)];
    assert lib.read(body).root == ParsedResponses.ResponseJson(h, [entry]);
    Responses.LegacyReadsWrittenResponse(lib, body, h, [entry], st);
  }

  lemma StoredEntryIsWritten(c: EtcdClient, key: seq<Byte>, value: seq<Byte>, createRevision: string, modRevision: string, version: string)
    ensures ReadSetBody(c.SetRequest(key, value).body) == Some((ToBase64(key), ToBase64(value)))
    ensures StoredEntry(ReadSetBody(c.SetRequest(key, value).body).value, createRevision, modRevision, version)
      == ParsedResponses.EntryJson(KVEntry(key, value, createRevision, modRevision, version))
  {
  }
}
