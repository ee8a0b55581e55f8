/**
 * `ETCDParsedResponse`: decodes the JSON text of one gateway response into
 * its header and its kv entries, or throws. The checks run in a fixed order
 * and the first failure stops decoding: the reader's verdict, an `error`
 * member sent by etcd, the header members, the header values, then every
 * kv entry of `kvs` followed by the `kv` of every `events` item.
 */
module ParsedResponses {
  import opened Wrappers
  import opened Errors
  import opened Json
  import opened Schema
  import Decimal

  /** What a successful `parse` leaves in the object. */
  datatype Decoded = Decoded(header: Header, entries: seq<KVEntry>)

  const ZeroHeader: Header := Header(0, 0, 0, 0)

  const CouldNotParse: string := "Could not parse json message: "
  const EtcdReturned: string := "ETCD returned an error: "
  const FullResponse: string := "; Full json response: "

  /** `__processIfError`: an `error` member is rethrown with etcd's `code` (or -1) and its message. */
  function CheckEtcdError(lib: JsonLib, v: Json): Result<(), Failure> {
    var hasError :- IsMember(v, "error");
    if !hasError then Success(())
    else
      var hasCode :- IsMember(v, "code");
      var code :- if hasCode then AsInt(Get(v, "code")) else Success(-1);
      var error := Get(v, "error");
      var msg := if IsString(error) then error.s else lib.write(v);
      Failure(Etcd(NewEtcdError(EtcdReturnedError, code, EtcdReturned + msg + FullResponse + lib.write(v))))
  }

  /** The entries of the `kvs` array, or none when it is absent. */
  function KvsEntries(lib: JsonLib, v: Json): Result<seq<KVEntry>, Failure> {
    var hasKvs :- IsMember(v, "kvs");
    if !hasKvs then Success([])
    else
      var items :- Elements(Get(v, "kvs"));
      var list := DecodeKvList(lib, items);
      if list.failure.Some? then Failure(list.failure.value) else Success(list.entries)
  }

  /** One turn of the `events` loop: an event with a `kv` member contributes that entry; the others are skipped. */
  function EventStep(lib: JsonLib, event: Json): Step {
    match IsMember(event, "kv")
    case Failure(f) => Stop(f)
    case Success(hasKv) => if hasKv then KvStep(lib, Get(event, "kv")) else Skip
  }

  function EventSteps(lib: JsonLib, events: seq<Json>): (steps: seq<Step>)
    ensures |steps| == |events| && forall i :: 0 <= i < |events| ==> steps[i] == EventStep(lib, events[i])
  {
    seq(|events|, i requires 0 <= i < |events| => EventStep(lib, events[i]))
  }

  /** The `events` loop: the entries pushed so far, and the exception that stopped it, if any. */
  function DecodeEvents(lib: JsonLib, events: seq<Json>): KvList {
    Collect(EventSteps(lib, events))
  }

  /** The entries of the `events` array, or none when it is absent. */
  function EventEntries(lib: JsonLib, v: Json): Result<seq<KVEntry>, Failure> {
    var hasEvents :- IsMember(v, "events");
    if !hasEvents then Success([])
    else
      var events :- Elements(Get(v, "events"));
      var list := DecodeEvents(lib, events);
      if list.failure.Some? then Failure(list.failure.value) else Success(list.entries)
  }

  /** Every entry: those of `kvs` first, then those of `events`. */
  function AllEntries(lib: JsonLib, v: Json): Result<seq<KVEntry>, Failure> {
    var kvs :- KvsEntries(lib, v);
    var events :- EventEntries(lib, v);
    Success(kvs + events)
  }

  /** `parse()` once the reader has accepted the text and built `v`. */
  function DecodeRoot(lib: JsonLib, raw: string, v: Json): Result<Decoded, Failure> {
    var noError :- CheckEtcdError(lib, v);
    var headerOk :- VerifyHeader(v, raw);
    var header :- ReadHeader(v);
    var entries :- AllEntries(lib, v);
    Success(Decoded(header, entries))
  }

  /** `parse()` on the raw text. */
  function DecodeBody(lib: JsonLib, raw: string): Result<Decoded, Failure> {
    var read := lib.read(raw);
    if !read.ok then Failure(Etcd(NewError(FailedToParseJsonMessage, CouldNotParse + raw)))
    else DecodeRoot(lib, raw, read.root)
  }

  /** The constructor: an empty text is not parsed at all. */
  function Decode(lib: JsonLib, raw: string): Result<Decoded, Failure> {
    if raw == [] then Success(Decoded(ZeroHeader, [])) else DecodeBody(lib, raw)
  }

  // ---------------------------------------------------------------------
  // Properties of the decoder
  // ---------------------------------------------------------------------

  /** The `kv` members of the events that have one, in order. */
  function EventKvs(events: seq<Json>): seq<Json>
    decreases |events|
  {
    if events == [] then []
    else
      var event := events[|events| - 1];
      var front := EventKvs(events[..|events| - 1]);
      if event.JObject? && "kv" in event.members then front + [event.members["kv"]] else front
  }

  lemma {:induction false} EventPushesAreKvSteps(lib: JsonLib, events: seq<Json>)
    requires forall i :: 0 <= i < |events| ==> events[i].JObject?
    ensures Pushes(EventSteps(lib, events)) == KvSteps(lib, EventKvs(events))
    decreases |events|
  {
    if events != [] {
      var n := |events| - 1;
      var front := events[..n];
      EventPushesAreKvSteps(lib, front);
      EventStepsPrefix(lib, events);
      var event := events[n];
      if "kv" in event.members {
        KvStepsSnoc(lib, EventKvs(front), event.members["kv"]);
      }
    }
  }

  lemma EventStepsPrefix(lib: JsonLib, events: seq<Json>)
    requires events != []
    ensures var steps := EventSteps(lib, events);
      && steps[..|events| - 1] == EventSteps(lib, events[..|events| - 1])
      && steps[|events| - 1] == EventStep(lib, events[|events| - 1])
  {
  }

  lemma KvStepsSnoc(lib: JsonLib, kvs: seq<Json>, kv: Json)
    ensures KvSteps(lib, kvs + [kv]) == KvSteps(lib, kvs) + [KvStep(lib, kv)]
  {
  }

  /**
   * When every event is an object, decoding the events is decoding the list
   * of their `kv` members: events without one are skipped.
   */
  lemma EventsAreTheirKvs(lib: JsonLib, events: seq<Json>)
    requires forall i :: 0 <= i < |events| ==> events[i].JObject?
    ensures DecodeEvents(lib, events) == DecodeKvList(lib, EventKvs(events))
  {
    CollectIgnoresSkips(EventSteps(lib, events));
    EventPushesAreKvSteps(lib, events);
  }

  /** A JSON text the reader rejects is refused with `FailedToParseJsonMessage` before anything else is looked at. */
  lemma ReaderRejectionComesFirst(lib: JsonLib, raw: string)
    requires raw != [] && !lib.read(raw).ok
    ensures Decode(lib, raw).Failure?
    ensures Decode(lib, raw).error == Etcd(NewError(FailedToParseJsonMessage, CouldNotParse + raw))
  {
  }

  /**
   * An `error` member wins over every header and entry check: the response
   * is refused with `EtcdReturnedError`, carrying etcd's `code` (or -1 when
   * there is none) and the message built from etcd's `error` text (or the
   * whole response written out when `error` is not a string) followed by
   * the whole response; its `what()` shows that code as coming from etcd.
   */
  lemma EtcdErrorComesFirst(lib: JsonLib, raw: string, m: map<string, Json>, indeterminate: int)
    requires raw != [] && lib.read(raw) == ReadOutcome(true, JObject(m))
    requires "error" in m
    requires "code" in m ==> m["code"].JInt? && Int32Min <= m["code"].i <= Int32Max
    ensures Decode(lib, raw).Failure? && Decode(lib, raw).error.Etcd?
    ensures var e := Decode(lib, raw).error.error;
      var code := if "code" in m then m["code"].i else -1;
      && e.errorCode == EtcdReturnedError
      && e.GetEtcdErrorCode(indeterminate) == code
      && e.errorMsg == EtcdReturned + (if m["error"].JString? then m["error"].s else lib.write(JObject(m)))
           + FullResponse + lib.write(JObject(m))
      && ParseWhat(e.What(indeterminate)) == Some(WhatParts(true, code, e.errorMsg))
  {
    var code := if "code" in m then m["code"].i else -1;
    var checked := CheckEtcdError(lib, JObject(m));
    EtcdErrorCheck(lib, m);
    assert Decode(lib, raw) == Failure(checked.error);
    WhatRoundTrip(checked.error.error, indeterminate);
  }

  lemma EtcdErrorCheck(lib: JsonLib, m: map<string, Json>)
    requires "error" in m
    requires "code" in m ==> m["code"].JInt? && Int32Min <= m["code"].i <= Int32Max
    ensures var checked := CheckEtcdError(lib, JObject(m));
      && checked.Failure? && checked.error.Etcd?
      && checked.error.error.errorCode == EtcdReturnedError
      && checked.error.error.etcdErrorCode == Given(if "code" in m then m["code"].i else -1)
      && checked.error.error.errorMsg == EtcdReturned + (if m["error"].JString? then m["error"].s else lib.write(JObject(m)))
           + FullResponse + lib.write(JObject(m))
  {
    var v := JObject(m);
    assert IsMember(v, "error") == Success(true);
    assert IsMember(v, "code") == Success("code" in m);
  }

  /** An etcd response as the gateway writes it: a header and the `kvs` array. */
  function ResponseJson(h: Header, entries: seq<KVEntry>): Json
    requires h.clusterId < Decimal.U64Modulus && h.memberId < Decimal.U64Modulus
    requires h.revision < Decimal.U64Modulus && h.raftTerm < Decimal.U64Modulus
  {
    JObject(map["header" := HeaderJson(h), "kvs" := JArray(EntriesJson(entries))])
  }

  function EntryJson(e: KVEntry): Json {
    KvJson(e.key, e.value, e.createRevision, e.modRevision, e.version)
  }

  function EntriesJson(entries: seq<KVEntry>): (items: seq<Json>)
    ensures |items| == |entries| && forall i :: 0 <= i < |entries| ==> items[i] == EntryJson(entries[i])
  {
    seq(|entries|, i requires 0 <= i < |entries| => EntryJson(entries[i]))
  }

  /** Entries written by the gateway are decoded back to themselves, in order. */
  lemma DecodeWrittenEntries(lib: JsonLib, entries: seq<KVEntry>)
    ensures DecodeKvList(lib, EntriesJson(entries)) == KvList(entries, None)
  {
    var items := EntriesJson(entries);
    var steps := KvSteps(lib, items);
    forall i | 0 <= i < |entries|
      ensures steps[i] == Push(entries[i])
    {
      var e := entries[i];
      KvRoundTrip(lib, e.key, e.value, e.createRevision, e.modRevision, e.version);
    }
    CollectAllPushed(steps, entries);
  }

  /**
   * A well-formed response is decoded to exactly the header and the entries
   * it carries: every check passes and nothing is lost or reordered.
   */
  lemma DecodeWrittenResponse(lib: JsonLib, raw: string, h: Header, entries: seq<KVEntry>)
    requires h.clusterId < Decimal.U64Modulus && h.memberId < Decimal.U64Modulus
    requires h.revision < Decimal.U64Modulus && h.raftTerm < Decimal.U64Modulus
    requires raw != [] && lib.read(raw) == ReadOutcome(true, ResponseJson(h, entries))
    ensures Decode(lib, raw) == Success(Decoded(h, entries))
  {
    var v := ResponseJson(h, entries);
    WrittenResponseHasNoError(lib, h, entries);
    WrittenResponseHeader(raw, h, entries);
    WrittenResponseEntries(lib, h, entries);
  }

  lemma WrittenResponseHasNoError(lib: JsonLib, h: Header, entries: seq<KVEntry>)
    requires h.clusterId < Decimal.U64Modulus && h.memberId < Decimal.U64Modulus
    requires h.revision < Decimal.U64Modulus && h.raftTerm < Decimal.U64Modulus
    ensures CheckEtcdError(lib, ResponseJson(h, entries)) == Success(())
  {
    assert "error" !in ResponseJson(h, entries).members;
  }

  lemma WrittenResponseHeader(raw: string, h: Header, entries: seq<KVEntry>)
    requires h.clusterId < Decimal.U64Modulus && h.memberId < Decimal.U64Modulus
    requires h.revision < Decimal.U64Modulus && h.raftTerm < Decimal.U64Modulus
    ensures VerifyHeader(ResponseJson(h, entries), raw) == Success(())
    ensures ReadHeader(ResponseJson(h, entries)) == Success(h)
  {
    assert ResponseJson(h, entries).members["header"] == HeaderJson(h);
    HeaderRoundTrip(ResponseJson(h, entries), h, raw);
  }

  lemma WrittenResponseEntries(lib: JsonLib, h: Header, entries: seq<KVEntry>)
    requires h.clusterId < Decimal.U64Modulus && h.memberId < Decimal.U64Modulus
    requires h.revision < Decimal.U64Modulus && h.raftTerm < Decimal.U64Modulus
    ensures AllEntries(lib, ResponseJson(h, entries)) == Success(entries)
  {
    var v := ResponseJson(h, entries);
    assert IsMember(v, "kvs") == Success(true);
    assert Elements(Get(v, "kvs")) == Success(EntriesJson(entries));
    DecodeWrittenEntries(lib, entries);
    assert KvsEntries(lib, v) == Success(entries);
    assert IsMember(v, "events") == Success(false);
    assert EventEntries(lib, v) == Success([]);
    assert entries + [] == entries;
  }

  // ---------------------------------------------------------------------
  // The response object
  // ---------------------------------------------------------------------

  class ParsedResponse {
    /** The JSON reader and writer the decoder calls. */
    const lib: JsonLib
    const rawJsonString: string
    var clusterId: nat
    var memberId: nat
    var revision: nat
    var raftTerm: nat
    var kvEntries: seq<KVEntry>

    /** The object before `parse` runs: every field at its in-class initial value. */
    constructor (lib: JsonLib, raw: string)
      ensures this.lib == lib && rawJsonString == raw
      ensures GetHeader() == ZeroHeader && kvEntries == []
    {
      this.lib := lib;
      rawJsonString := raw;
      clusterId, memberId, revision, raftTerm := 0, 0, 0, 0;
      kvEntries := [];
    }

    /** `getClusterId`, `getMemberId`, `getRevision` and `getRaftTerm` together. */
    function GetHeader(): Header
      reads this
    {
      Header(clusterId, memberId, revision, raftTerm)
    }

    function GetKVEntries(): seq<KVEntry>
      reads this
    {
      kvEntries
    }

    /**
     * `parse()`: assigns the header fields and rebuilds the entry list, or
     * stops at the first check that fails.
     */
    method Parse() returns (err: Option<Failure>)
      modifies this
      ensures match DecodeBody(lib, rawJsonString)
        case Success(d) => err.None? && GetHeader() == d.header && kvEntries == d.entries
        case Failure(f) => err == Some(f)
    {
      var read := lib.read(rawJsonString);
      if !read.ok {
        return Some(Etcd(NewError(FailedToParseJsonMessage, CouldNotParse + rawJsonString)));
      }
      var v := read.root;
      var noError := CheckEtcdError(lib, v);
      if noError.Failure? {
        return Some(noError.error);
      }
      var headerOk := VerifyHeader(v, rawJsonString);
      if headerOk.Failure? {
        return Some(headerOk.error);
      }
      err := AssignHeader(v);
      if err.Some? {
        return;
      }
      err := FillEntries(v);
    }

    /** The four `std::stoull` assignments, in order. */
    method AssignHeader(v: Json) returns (err: Option<Failure>)
      modifies this`clusterId, this`memberId, this`revision, this`raftTerm
      ensures match ReadHeader(v)
        case Success(h) => err.None? && GetHeader() == h
        case Failure(f) => err == Some(f)
    {
      var field := ReadHeaderField(v, "cluster_id");
      if field.Failure? {
        return Some(field.error);
      }
      clusterId := field.value;
      field := ReadHeaderField(v, "member_id");
      if field.Failure? {
        return Some(field.error);
      }
      memberId := field.value;
      field := ReadHeaderField(v, "revision");
      if field.Failure? {
        return Some(field.error);
      }
      revision := field.value;
      field := ReadHeaderField(v, "raft_term");
      if field.Failure? {
        return Some(field.error);
      }
      raftTerm := field.value;
      err := None;
    }

    /** `kvEntries.clear()`, then the `kvs` loop, then the `events` loop. */
    method FillEntries(v: Json) returns (err: Option<Failure>)
      modifies this`kvEntries
      ensures match AllEntries(lib, v)
        case Success(es) => err.None? && kvEntries == es
        case Failure(f) => err == Some(f)
    {
      kvEntries := [];
      ghost var kvs := KvsEntries(lib, v);
      err := AppendKvs(v);
      if err.Some? {
        assert AllEntries(lib, v) == Failure(err.value);
        return;
      }
      assert kvs.Success? && kvEntries == kvs.value;
      ghost var events := EventEntries(lib, v);
      err := AppendEvents(v);
      assert AllEntries(lib, v) == if events.Success? then Success(kvs.value + events.value) else Failure(events.error);
    }

    /** The `kvs` member, when present, through the `kvs` loop. */
    method AppendKvs(v: Json) returns (err: Option<Failure>)
      modifies this`kvEntries
      ensures match KvsEntries(lib, v)
        case Success(es) => err.None? && kvEntries == old(kvEntries) + es
        case Failure(f) => err == Some(f)
    {
      var hasKvs := IsMember(v, "kvs");
      if hasKvs.Failure? {
        return Some(hasKvs.error);
      }
      if !hasKvs.value {
        assert kvEntries == kvEntries + [];
        return None;
      }
      var items := Elements(Get(v, "kvs"));
      if items.Failure? {
        return Some(items.error);
      }
      err := PushKvList(items.value);
    }

    /** The `events` member, when present, through the `events` loop. */
    method AppendEvents(v: Json) returns (err: Option<Failure>)
      modifies this`kvEntries
      ensures match EventEntries(lib, v)
        case Success(es) => err.None? && kvEntries == old(kvEntries) + es
        case Failure(f) => err == Some(f)
    {
      var hasEvents := IsMember(v, "events");
      if hasEvents.Failure? {
        return Some(hasEvents.error);
      }
      if !hasEvents.value {
        assert kvEntries == kvEntries + [];
        return None;
      }
      var events := Elements(Get(v, "events"));
      if events.Failure? {
        return Some(events.error);
      }
      err := PushEvents(events.value);
    }

    /** The `kvs` loop: appends the decoded items up to the first that fails. */
    method PushKvList(items: seq<Json>) returns (err: Option<Failure>)
      modifies this`kvEntries
      ensures var list := DecodeKvList(lib, items);
        kvEntries == old(kvEntries) + list.entries && err == list.failure
    {
      ghost var steps := KvSteps(lib, items);
      var i := 0;
      while i < |items|
        invariant 0 <= i <= |items|
        invariant Collect(steps[..i]).failure.None?
        invariant kvEntries == old(kvEntries) + Collect(steps[..i]).entries
      {
        CollectStep(steps, i);
        var entry := ParseSingleKvEntry(lib, items[i]);
        if entry.Failure? {
          CollectStopsAtFailure(steps, i + 1);
          return Some(entry.error);
        }
        kvEntries := kvEntries + [entry.value];
        i := i + 1;
      }
      assert steps[..i] == steps;
      err := None;
    }

    /** The `events` loop: appends the `kv` of every event that has one, up to the first that fails. */
    method PushEvents(events: seq<Json>) returns (err: Option<Failure>)
      modifies this`kvEntries
      ensures var list := DecodeEvents(lib, events);
        kvEntries == old(kvEntries) + list.entries && err == list.failure
    {
      ghost var steps := EventSteps(lib, events);
      var i := 0;
      while i < |events|
        invariant 0 <= i <= |events|
        invariant Collect(steps[..i]).failure.None?
        invariant kvEntries == old(kvEntries) + Collect(steps[..i]).entries
      {
        CollectStep(steps, i);
        var event := events[i];
        var hasKv := IsMember(event, "kv");
        if hasKv.Failure? {
          CollectStopsAtFailure(steps, i + 1);
          return Some(hasKv.error);
        }
        if hasKv.value {
          var entry := ParseSingleKvEntry(lib, Get(event, "kv"));
          if entry.Failure? {
            CollectStopsAtFailure(steps, i + 1);
            return Some(entry.error);
          }
          kvEntries := kvEntries + [entry.value];
        }
        i := i + 1;
      }
      assert steps[..i] == steps;
      err := None;
    }
  }

  /**
   * `ETCDParsedResponse(RawJsonString)`: builds the object and parses a
   * non-empty text; a thrown error means no object exists.
   */
  method New(lib: JsonLib, raw: string) returns (r: Result<ParsedResponse, Failure>)
    ensures match Decode(lib, raw)
      case Success(d) => r.Success? && r.value.GetHeader() == d.header && r.value.kvEntries == d.entries
      case Failure(f) => r == Failure(f)
  {
    var response := new ParsedResponse(lib, raw);
    if raw != [] {
      var err := response.Parse();
      if err.Some? {
        return Failure(err.value);
      }
    }
    r := Success(response);
  }
}
