/**
 * `ETCDResponse`, the older response object the client's requests return:
 * it owns the future of an HTTP response, retrieves it at most once, and
 * decodes its body on every `getKVEntries` and `kvCount`. Compared with
 * `ETCDParsedResponse` it ignores the reader's verdict, reports an etcd
 * error without the full response, reads only `kvs` (never `events`),
 * clears the entry list only when `kvs` is present, and keeps whatever it
 * had assigned when a later step throws.
 */
module Responses {
  import opened Wrappers
  import opened Errors
  import opened Json
  import opened Schema
  import ParsedResponses
  import Decimal

  /** The decoded part of the object: the four header fields and the entry list. */
  datatype LegacyState = LegacyState(header: Header, entries: seq<KVEntry>)

  /** What one `parse()` leaves behind, and the exception it threw, if any. */
  datatype LegacyOutcome = LegacyOutcome(state: LegacyState, error: Option<Failure>)

  /** The header after the four `std::stoull` assignments, and the exception that stopped them. */
  datatype HeaderUpdate = HeaderUpdate(header: Header, error: Option<Failure>)

  /** The entry list after the `kvs` block, and the exception that stopped it. */
  datatype EntriesUpdate = EntriesUpdate(entries: seq<KVEntry>, error: Option<Failure>)

  const Initial: LegacyState := LegacyState(Header(0, 0, 0, 0), [])

  /**
   * `__processIfError`: an `error` member is rethrown with `code` read by
   * `asInt()` (0 when absent) and the message read by `asString()`.
   */
  function LegacyCheckError(v: Json): Result<(), Failure> {
    var hasError :- IsMember(v, "error");
    if !hasError then Success(())
    else
      var code :- AsInt(Get(v, "code"));
      var msg :- AsString(Get(v, "error"));
      Failure(Etcd(NewEtcdError(EtcdReturnedError, code, ParsedResponses.EtcdReturned + msg)))
  }

  /**
   * The four assignments of `parse()`, one field at a time: a field whose
   * `stoull` throws, and every field after it, keeps its previous value.
   */
  function AssignHeaderFields(v: Json, h: Header): (r: HeaderUpdate)
    ensures r.error.None? <==> ReadHeader(v).Success?
    ensures ReadHeader(v).Success? ==> r.header == ReadHeader(v).value
    ensures ReadHeader(v).Failure? ==> r.error == Some(ReadHeader(v).error)
    // A field takes the value read only when it and every field before it were read.
    ensures var c, m, rv, t := ReadHeaderField(v, "cluster_id"), ReadHeaderField(v, "member_id"),
        ReadHeaderField(v, "revision"), ReadHeaderField(v, "raft_term");
      && r.header.clusterId == (if c.Success? then c.value else h.clusterId)
      && r.header.memberId == (if c.Success? && m.Success? then m.value else h.memberId)
      && r.header.revision == (if c.Success? && m.Success? && rv.Success? then rv.value else h.revision)
      && r.header.raftTerm == (if c.Success? && m.Success? && rv.Success? && t.Success? then t.value else h.raftTerm)
  {
    match ReadHeaderField(v, "cluster_id")
    case Failure(f) => HeaderUpdate(h, Some(f))
    case Success(clusterId) =>
      var h := h.(clusterId := clusterId);
      match ReadHeaderField(v, "member_id")
      case Failure(f) => HeaderUpdate(h, Some(f))
      case Success(memberId) =>
        var h := h.(memberId := memberId);
        match ReadHeaderField(v, "revision")
        case Failure(f) => HeaderUpdate(h, Some(f))
        case Success(revision) =>
          var h := h.(revision := revision);
          match ReadHeaderField(v, "raft_term")
          case Failure(f) => HeaderUpdate(h, Some(f))
          case Success(raftTerm) => HeaderUpdate(h.(raftTerm := raftTerm), None)
  }

  /**
   * The `kvs` block: without a `kvs` member the list is left as it was;
   * with one it is cleared and refilled up to the first entry that throws.
   */
  function LegacyKvs(lib: JsonLib, v: Json, entries: seq<KVEntry>): EntriesUpdate {
    match IsMember(v, "kvs")
    case Failure(f) => EntriesUpdate(entries, Some(f))
    case Success(hasKvs) =>
      if !hasKvs then EntriesUpdate(entries, None)
      else match Elements(Get(v, "kvs"))
        case Failure(f) => EntriesUpdate([], Some(f))
        case Success(items) =>
          var list := DecodeKvList(lib, items);
          EntriesUpdate(list.entries, list.failure)
  }

  /** `parse()` once the body has been read into `v`, starting from the fields in `st`. */
  function LegacyParseRoot(lib: JsonLib, body: string, v: Json, st: LegacyState): LegacyOutcome {
    match LegacyCheckError(v)
    case Failure(f) => LegacyOutcome(st, Some(f))
    case Success(_) =>
      match VerifyHeader(v, body)
      case Failure(f) => LegacyOutcome(st, Some(f))
      case Success(_) =>
        var header := AssignHeaderFields(v, st.header);
        if header.error.Some? then LegacyOutcome(st.(header := header.header), header.error)
        else
          var kvs := LegacyKvs(lib, v, st.entries);
          LegacyOutcome(LegacyState(header.header, kvs.entries), kvs.error)
  }

  /** `parse()` on the response body: the reader's success flag is not looked at. */
  function LegacyParse(lib: JsonLib, body: string, st: LegacyState): LegacyOutcome {
    LegacyParseRoot(lib, body, lib.read(body).root, st)
  }

  // ---------------------------------------------------------------------
  // Properties of the legacy decoder
  // ---------------------------------------------------------------------

  lemma AssignHeaderTwice(v: Json, h: Header)
    ensures AssignHeaderFields(v, AssignHeaderFields(v, h).header) == AssignHeaderFields(v, h)
  {
    match ReadHeaderField(v, "cluster_id")
    case Failure(_) =>
    case Success(_) =>
      match ReadHeaderField(v, "member_id")
      case Failure(_) =>
      case Success(_) =>
        match ReadHeaderField(v, "revision")
        case Failure(_) =>
        case Success(_) =>
  }

  lemma LegacyKvsTwice(lib: JsonLib, v: Json, entries: seq<KVEntry>)
    ensures LegacyKvs(lib, v, LegacyKvs(lib, v, entries).entries) == LegacyKvs(lib, v, entries)
  {
  }

  /**
   * `isParsed` is never set, so every `getKVEntries` and `kvCount` parses
   * again; doing so changes nothing, and throws what the first parse threw:
   * entries are not duplicated.
   */
  lemma LegacyParseIsIdempotent(lib: JsonLib, body: string, st: LegacyState)
    ensures var once := LegacyParse(lib, body, st);
      LegacyParse(lib, body, once.state) == once
  {
    var v := lib.read(body).root;
    AssignHeaderTwice(v, st.header);
    var header := AssignHeaderFields(v, st.header);
    LegacyKvsTwice(lib, v, st.entries);
  }

  /**
   * On a response the reader accepts, that has no `events` member and that
   * `ETCDParsedResponse` decodes, the legacy decoder reads the same header;
   * it reads the same entries when `kvs` is present and keeps the entries it
   * had when it is not.
   */
  lemma LegacyAgreesWithParsed(lib: JsonLib, body: string, st: LegacyState)
    requires lib.read(body).ok
    requires ParsedResponses.DecodeBody(lib, body).Success?
    requires IsMember(lib.read(body).root, "events") == Success(false)
    ensures var v := lib.read(body).root;
      var d := ParsedResponses.DecodeBody(lib, body).value;
      && v.JObject?
      && LegacyParse(lib, body, st)
        == LegacyOutcome(LegacyState(d.header, if "kvs" in v.members then d.entries else st.entries), None)
  {
    var v := lib.read(body).root;
    assert ParsedResponses.DecodeRoot(lib, body, v).Success?;
    assert VerifyHeader(v, body).Success?;
    assert v.JObject?;
    assert "error" !in v.members by {
      assert ParsedResponses.CheckEtcdError(lib, v).Success?;
    }
    assert LegacyCheckError(v) == Success(());
    var entries := ParsedResponses.AllEntries(lib, v);
    assert entries.Success?;
    assert ParsedResponses.EventEntries(lib, v) == Success([]);
    assert entries.value == ParsedResponses.KvsEntries(lib, v).value + [];
  }

  /** A well-formed response is read by the legacy decoder to exactly its header and entries. */
  lemma LegacyReadsWrittenResponse(lib: JsonLib, body: string, h: Header, entries: seq<KVEntry>, st: LegacyState)
    requires h.clusterId < Decimal.U64Modulus && h.memberId < Decimal.U64Modulus
    requires h.revision < Decimal.U64Modulus && h.raftTerm < Decimal.U64Modulus
    requires body != [] && lib.read(body) == ReadOutcome(true, ParsedResponses.ResponseJson(h, entries))
    ensures LegacyParse(lib, body, st) == LegacyOutcome(LegacyState(h, entries), None)
  {
    var v := ParsedResponses.ResponseJson(h, entries);
    ParsedResponses.DecodeWrittenResponse(lib, body, h, entries);
    assert "kvs" in v.members && "events" !in v.members;
    LegacyAgreesWithParsed(lib, body, st);
  }

  /**
   * An `error` without a `code`: the legacy decoder reports etcd code 0 and
   * the bare message, while `ETCDParsedResponse` reports -1.
   */
  lemma DecodersDisagreeOnMissingCode(lib: JsonLib, body: string, m: map<string, Json>, st: LegacyState, indeterminate: int)
    requires body != [] && lib.read(body) == ReadOutcome(true, JObject(m))
    requires "error" in m && m["error"].JString? && "code" !in m
    ensures var legacy := LegacyParse(lib, body, st);
      && legacy.state == st
      && legacy.error == Some(Etcd(NewEtcdError(EtcdReturnedError, 0, ParsedResponses.EtcdReturned + m["error"].s)))
      && legacy.error.value.error.GetEtcdErrorCode(indeterminate) == 0
    ensures var parsed := ParsedResponses.Decode(lib, body);
      parsed.Failure? && parsed.error.Etcd? && parsed.error.error.GetEtcdErrorCode(indeterminate) == -1
  {
    var v := JObject(m);
    assert IsMember(v, "error") == Success(true);
    assert Get(v, "code") == JNull;
    ParsedResponses.EtcdErrorComesFirst(lib, body, m, indeterminate);
  }

  // ---------------------------------------------------------------------
  // The response object
  // ---------------------------------------------------------------------

  /** The `std::future` of the HTTP response: its body can be taken once. */
  class ResponseFuture {
    const body: string
    var taken: bool

    constructor (body: string)
      ensures this.body == body && !taken
    {
      this.body := body;
      taken := false;
    }

    /** `get()`: a second call is not allowed. */
    method Get() returns (b: string)
      requires !taken
      modifies this
      ensures taken && b == body
    {
      taken := true;
      b := body;
    }
  }

  class Response {
    /** The JSON reader and writer the decoder calls. */
    const lib: JsonLib
    const future: ResponseFuture
    var isParsed: bool
    var isFutureRetrieved: bool
    /** `rawResponse.body()`: empty until the future is retrieved. */
    var rawBody: string
    var clusterId: nat
    var memberId: nat
    var revision: nat
    var raftTerm: nat
    var kvEntries: seq<KVEntry>

    /** The flag tells whether the future has been taken, and the body is then the future's. */
    ghost predicate Valid()
      reads this, future
    {
      isFutureRetrieved == future.taken && (isFutureRetrieved ==> rawBody == future.body)
    }

    function State(): LegacyState
      reads this
    {
      LegacyState(Header(clusterId, memberId, revision, raftTerm), kvEntries)
    }

    constructor (lib: JsonLib, future: ResponseFuture)
      requires !future.taken
      ensures Valid()
      ensures this.lib == lib && this.future == future
      ensures !isParsed && !isFutureRetrieved && rawBody == [] && State() == Initial
    {
      this.lib := lib;
      this.future := future;
      isParsed := false;
      isFutureRetrieved := false;
      rawBody := [];
      clusterId, memberId, revision, raftTerm := 0, 0, 0, 0;
      kvEntries := [];
    }

    /** `getJsonResponse()`. */
    function GetJsonResponse(): string
      reads this
    {
      rawBody
    }

    /** `wait()`: takes the future's body unless that has been done already. */
    method Wait()
      requires Valid()
      modifies this`isFutureRetrieved, this`rawBody, future
      ensures Valid() && isFutureRetrieved && rawBody == future.body
      ensures State() == old(State())
    {
      if !isFutureRetrieved {
        isFutureRetrieved := true;
        rawBody := future.Get();
      }
    }

    /**
     * `parse()`: retrieves the body if need be and decodes it into the
     * fields; on an exception the fields keep what was assigned before it.
     */
    method Parse() returns (err: Option<Failure>)
      requires Valid()
      modifies this`isFutureRetrieved, this`rawBody, future,
        this`clusterId, this`memberId, this`revision, this`raftTerm, this`kvEntries
      ensures Valid()
      ensures old(isParsed) ==> State() == old(State()) && err.None?
      ensures !old(isParsed) ==> isFutureRetrieved && rawBody == future.body
      ensures !old(isParsed) ==>
        var r := LegacyParse(lib, future.body, old(State()));
        State() == r.state && err == r.error
    {
      if isParsed {
        return None;
      }
      Wait();
      var v := lib.read(rawBody).root;
      err := ParseRoot(v);
    }

    /** The decoding steps of `parse()` once the body has been read into `v`. */
    method ParseRoot(v: Json) returns (err: Option<Failure>)
      modifies this`clusterId, this`memberId, this`revision, this`raftTerm, this`kvEntries
      ensures var r := LegacyParseRoot(lib, rawBody, v, old(State()));
        State() == r.state && err == r.error
    {
      var noError := LegacyCheckError(v);
      if noError.Failure? {
        return Some(noError.error);
      }
      var headerOk := VerifyHeader(v, rawBody);
      if headerOk.Failure? {
        return Some(headerOk.error);
      }
      err := AssignHeader(v);
      if err.Some? {
        return;
      }
      err := FillKvs(v);
    }

    /** The four `std::stoull` assignments, in order. */
    method AssignHeader(v: Json) returns (err: Option<Failure>)
      modifies this`clusterId, this`memberId, this`revision, this`raftTerm
      ensures var r := AssignHeaderFields(v, old(State()).header);
        State().header == r.header && err == r.error
    {
      var field := ReadHeaderField(v, "cluster_id");
      if field.Failure? {
        return Some(field.error);
      }
      clusterId := field.value;
      field := ReadHeaderField(v, "member_id");
      if field.Failure? {
        return Some(field.error);
      }
      memberId := field.value;
      field := ReadHeaderField(v, "revision");
      if field.Failure? {
        return Some(field.error);
      }
      revision := field.value;
      field := ReadHeaderField(v, "raft_term");
      if field.Failure? {
        return Some(field.error);
      }
      raftTerm := field.value;
      err := None;
    }

    /** The `kvs` block of `parse()`. */
    method FillKvs(v: Json) returns (err: Option<Failure>)
      modifies this`kvEntries
      ensures var r := LegacyKvs(lib, v, old(kvEntries));
        kvEntries == r.entries && err == r.error
    {
      var hasKvs := IsMember(v, "kvs");
      if hasKvs.Failure? {
        return Some(hasKvs.error);
      }
      if !hasKvs.value {
        return None;
      }
      kvEntries := [];
      var items := Elements(Get(v, "kvs"));
      if items.Failure? {
        return Some(items.error);
      }
      err := PushKvList(items.value);
    }

    /** The `kvs` loop: appends the decoded items up to the first that fails. */
    method PushKvList(items: seq<Json>) returns (err: Option<Failure>)
      modifies this`kvEntries
      ensures var list := DecodeKvList(lib, items);
        kvEntries == old(kvEntries) + list.entries && err == list.failure
    {
      ghost var steps := KvSteps(lib, items);
      var i := 0;
      while i < |items|
        invariant 0 <= i <= |items|
        invariant Collect(steps[..i]).failure.None?
        invariant kvEntries == old(kvEntries) + Collect(steps[..i]).entries
      {
        CollectStep(steps, i);
        var entry := ParseSingleKvEntry(lib, items[i]);
        if entry.Failure? {
          CollectStopsAtFailure(steps, i + 1);
          return Some(entry.error);
        }
        kvEntries := kvEntries + [entry.value];
        i := i + 1;
      }
      assert steps[..i] == steps;
      err := None;
    }

    /** `getKVEntries()`: parses, then hands out the entry list. */
    method GetKVEntries() returns (r: Result<seq<KVEntry>, Failure>)
      requires Valid()
      modifies this`isFutureRetrieved, this`rawBody, future,
        this`clusterId, this`memberId, this`revision, this`raftTerm, this`kvEntries
      ensures Valid()
      ensures !old(isParsed) ==>
        var p := LegacyParse(lib, future.body, old(State()));
        State() == p.state
        && r == if p.error.Some? then Failure(p.error.value) else Success(p.state.entries)
      ensures old(isParsed) ==> State() == old(State()) && r == Success(old(kvEntries))
    {
      var err := Parse();
      if err.Some? {
        return Failure(err.value);
      }
      r := Success(kvEntries);
    }

    /** `kvCount()`: parses, then counts the entries. */
    method KvCount() returns (r: Result<nat, Failure>)
      requires Valid()
      modifies this`isFutureRetrieved, this`rawBody, future,
        this`clusterId, this`memberId, this`revision, this`raftTerm, this`kvEntries
      ensures Valid()
      ensures !old(isParsed) ==>
        var p := LegacyParse(lib, future.body, old(State()));
        State() == p.state
        && r == if p.error.Some? then Failure(p.error.value) else Success(|p.state.entries|)
      ensures old(isParsed) ==> State() == old(State()) && r == Success(|old(kvEntries)|)
    {
      var err := Parse();
      if err.Some? {
        return Failure(err.value);
      }
      r := Success(|kvEntries|);
    }
  }
}
