/**
 * What both response decoders require of a gateway response: the header
 * fields, the five fields of a kv entry, and how one kv entry and a list of
 * them are decoded. The two decoders run these checks in the same order
 * and with the same messages.
 */
module Schema {
  import opened Wrappers
  import opened Errors
  import opened Json
  import Decimal
  import Base64

  /** One key-value entry: key and value are decoded bytes, the revisions are copied as text. */
  datatype KVEntry = KVEntry(
    key: seq<Base64.Byte>,
    value: seq<Base64.Byte>,
    createRevision: string,
    modRevision: string,
    version: string)

  /** The response header, each field an unsigned 64-bit integer. */
  datatype Header = Header(clusterId: nat, memberId: nat, revision: nat, raftTerm: nat)

  const NoHeader: string := "No header found in: "

  /** The member a check looks for and the message prefix it reports when the member is missing. */
  datatype FieldCheck = FieldCheck(member: string, missing: string)

  /** The header members, in the order they are checked. */
  const HeaderChecks: seq<FieldCheck> := [
    FieldCheck("cluster_id", "No cluster id in: "),
    FieldCheck("member_id", "No member id in: "),
    FieldCheck("revision", "No revision in: "),
    FieldCheck("raft_term", "No raft term in: ")]

  /** The kv entry members, in the order they are checked. */
  const KvChecks: seq<FieldCheck> := [
    FieldCheck("key", "No key id in: "),
    FieldCheck("create_revision", "No create_revision in: "),
    FieldCheck("mod_revision", "No mod_revision in: "),
    FieldCheck("version", "No version in: "),
    FieldCheck("value", "No value in: ")]

  /** The error a failed presence check throws: always `InvalidMsgHeader`, whatever was being checked. */
  function Missing(check: FieldCheck, shown: string): Failure {
    Etcd(NewError(InvalidMsgHeader, check.missing + shown))
  }

  /** Runs the checks in order; the first member `v` lacks stops it. */
  function CheckMembers(v: Json, checks: seq<FieldCheck>, shown: string): Result<(), Failure>
    decreases |checks|
  {
    if checks == [] then Success(())
    else
      var present :- IsMember(v, checks[0].member);
      if !present then Failure(Missing(checks[0], shown))
      else CheckMembers(v, checks[1..], shown)
  }

  /**
   * On an object the checks pass exactly when every member is present, and
   * otherwise report the first absent member with `InvalidMsgHeader`.
   */
  lemma CheckMembersFindsFirstMissing(m: map<string, Json>, checks: seq<FieldCheck>, shown: string)
    ensures CheckMembers(JObject(m), checks, shown).Success?
      <==> forall i :: 0 <= i < |checks| ==> checks[i].member in m
    ensures CheckMembers(JObject(m), checks, shown).Failure? ==>
      exists i :: 0 <= i < |checks|
        && checks[i].member !in m
        && (forall j :: 0 <= j < i ==> checks[j].member in m)
        && CheckMembers(JObject(m), checks, shown).error == Missing(checks[i], shown)
  {
    CheckMembersPassWhenAllPresent(m, checks, shown);
    CheckMembersReportFirstMissing(m, checks, shown);
  }

  lemma {:induction false} CheckMembersPassWhenAllPresent(m: map<string, Json>, checks: seq<FieldCheck>, shown: string)
    ensures CheckMembers(JObject(m), checks, shown).Success?
      <==> forall i :: 0 <= i < |checks| ==> checks[i].member in m
    decreases |checks|
  {
    if checks != [] && checks[0].member in m {
      CheckMembersPassWhenAllPresent(m, checks[1..], shown);
      forall i | 0 < i < |checks|
        ensures checks[i] == checks[1..][i - 1]
      {
      }
    }
  }

  lemma {:induction false} CheckMembersReportFirstMissing(m: map<string, Json>, checks: seq<FieldCheck>, shown: string)
    ensures CheckMembers(JObject(m), checks, shown).Failure? ==>
      exists i :: 0 <= i < |checks|
        && checks[i].member !in m
        && (forall j :: 0 <= j < i ==> checks[j].member in m)
        && CheckMembers(JObject(m), checks, shown).error == Missing(checks[i], shown)
    decreases |checks|
  {
    if checks != [] && checks[0].member in m {
      var r := CheckMembers(JObject(m), checks, shown);
      assert r == CheckMembers(JObject(m), checks[1..], shown);
      if r.Failure? {
        CheckMembersReportFirstMissing(m, checks[1..], shown);
        var i :| 0 <= i < |checks[1..]|
          && checks[1..][i].member !in m
          && (forall j :: 0 <= j < i ==> checks[1..][j].member in m)
          && r.error == Missing(checks[1..][i], shown);
        assert checks[i + 1] == checks[1..][i];
        forall j | 0 <= j < i + 1
          ensures checks[j].member in m
        {
          if j > 0 {
            assert checks[j] == checks[1..][j - 1];
          }
        }
      }
    }
  }

  /** `__verifyHeaderContent`: `header`, then its four members; the message shows the raw response text. */
  function VerifyHeader(v: Json, raw: string): Result<(), Failure> {
    var hasHeader :- IsMember(v, "header");
    if !hasHeader then Failure(Etcd(NewError(InvalidMsgHeader, NoHeader + raw)))
    else CheckMembers(Get(v, "header"), HeaderChecks, raw)
  }

  /** `__verifyKVEntryContent`: the five members; the message shows the entry as the writer prints it. */
  function VerifyKv(lib: JsonLib, kv: Json): Result<(), Failure> {
    CheckMembers(kv, KvChecks, lib.write(kv))
  }

  /** `std::stoull(v["header"][name].asString())`; both of its exceptions carry the text "stoull". */
  function ReadHeaderField(v: Json, name: string): Result<nat, Failure> {
    var text :- AsString(Get(Get(v, "header"), name));
    match Decimal.Stoull(text)
    case Some(n) => Success(n)
    case None => Failure(Library("stoull"))
  }

  /** The four header fields, read in declaration order. */
  function ReadHeader(v: Json): Result<Header, Failure> {
    var clusterId :- ReadHeaderField(v, "cluster_id");
    var memberId :- ReadHeaderField(v, "member_id");
    var revision :- ReadHeaderField(v, "revision");
    var raftTerm :- ReadHeaderField(v, "raft_term");
    Success(Header(clusterId, memberId, revision, raftTerm))
  }

  /** A header as the gateway writes it: every field the decimal text of a 64-bit value. */
  function HeaderJson(h: Header): Json
    requires h.clusterId < Decimal.U64Modulus && h.memberId < Decimal.U64Modulus
    requires h.revision < Decimal.U64Modulus && h.raftTerm < Decimal.U64Modulus
  {
    JObject(map[
      "cluster_id" := JString(Decimal.NatToString(h.clusterId)),
      "member_id" := JString(Decimal.NatToString(h.memberId)),
      "revision" := JString(Decimal.NatToString(h.revision)),
      "raft_term" := JString(Decimal.NatToString(h.raftTerm))])
  }

  /**
   * A response whose "header" member is a header written as decimal text
   * passes the checks and has that header read back exactly.
   */
  lemma HeaderRoundTrip(v: Json, h: Header, raw: string)
    requires h.clusterId < Decimal.U64Modulus && h.memberId < Decimal.U64Modulus
    requires h.revision < Decimal.U64Modulus && h.raftTerm < Decimal.U64Modulus
    requires v.JObject? && "header" in v.members && v.members["header"] == HeaderJson(h)
    ensures VerifyHeader(v, raw) == Success(())
    ensures ReadHeader(v) == Success(h)
  {
    WrittenHeaderHasMembers(h, raw);
    ReadWrittenField(v, "cluster_id", h.clusterId);
    ReadWrittenField(v, "member_id", h.memberId);
    ReadWrittenField(v, "revision", h.revision);
    ReadWrittenField(v, "raft_term", h.raftTerm);
    ReadHeaderOfFields(v, h);
  }

  lemma ReadHeaderOfFields(v: Json, h: Header)
    requires ReadHeaderField(v, "cluster_id") == Success(h.clusterId)
    requires ReadHeaderField(v, "member_id") == Success(h.memberId)
    requires ReadHeaderField(v, "revision") == Success(h.revision)
    requires ReadHeaderField(v, "raft_term") == Success(h.raftTerm)
    ensures ReadHeader(v) == Success(h)
  {
  }

  lemma WrittenHeaderHasMembers(h: Header, shown: string)
    requires h.clusterId < Decimal.U64Modulus && h.memberId < Decimal.U64Modulus
    requires h.revision < Decimal.U64Modulus && h.raftTerm < Decimal.U64Modulus
    ensures CheckMembers(HeaderJson(h), HeaderChecks, shown) == Success(())
  {
    var m := HeaderJson(h).members;
    CheckMembersFindsFirstMissing(m, HeaderChecks, shown);
    assert forall i :: 0 <= i < |HeaderChecks| ==> HeaderChecks[i].member in m;
  }

  lemma ReadWrittenField(v: Json, name: string, n: nat)
    requires n < Decimal.U64Modulus
    requires v.JObject? && "header" in v.members && v.members["header"].JObject?
    requires name in v.members["header"].members
    requires v.members["header"].members[name] == JString(Decimal.NatToString(n))
    ensures ReadHeaderField(v, name) == Success(n)
  {
    Decimal.StoullReadsDecimal(n);
  }

  /**
   * `parseSingleKvEntry`: the five presence checks, then the three revision
   * strings, then the key and value text, which are base64-decoded.
   */
  function ParseSingleKvEntry(lib: JsonLib, kv: Json): (r: Result<KVEntry, Failure>)
    ensures r.Success? ==> kv.JObject? && forall i :: 0 <= i < |KvChecks| ==> KvChecks[i].member in kv.members
  {
    var checked :- VerifyKv(lib, kv);
    var createRevision :- AsString(Get(kv, "create_revision"));
    var modRevision :- AsString(Get(kv, "mod_revision"));
    var version :- AsString(Get(kv, "version"));
    var key64 :- AsString(Get(kv, "key"));
    var value64 :- AsString(Get(kv, "value"));
    CheckMembersSucceeded(kv, lib.write(kv));
    Success(KVEntry(Base64.Decode(key64), Base64.Decode(value64), createRevision, modRevision, version))
  }

  /**
   * `parseSingleKvEntry` succeeds exactly when the entry is an object with
   * the five members and each of them converts to text; the entry then holds
   * the base64 decoding of `key` and `value` and the three revision texts
   * as they were sent.
   */
  lemma ParseSingleKvEntryReadsMembers(lib: JsonLib, kv: Json)
    ensures ParseSingleKvEntry(lib, kv).Success? <==>
      && kv.JObject?
      && (forall i :: 0 <= i < |KvChecks| ==> KvChecks[i].member in kv.members)
      && AsString(Get(kv, "key")).Success?
      && AsString(Get(kv, "value")).Success?
      && AsString(Get(kv, "create_revision")).Success?
      && AsString(Get(kv, "mod_revision")).Success?
      && AsString(Get(kv, "version")).Success?
    ensures ParseSingleKvEntry(lib, kv).Success? ==>
      ParseSingleKvEntry(lib, kv).value == KVEntry(
        Base64.Decode(AsString(Get(kv, "key")).value),
        Base64.Decode(AsString(Get(kv, "value")).value),
        AsString(Get(kv, "create_revision")).value,
        AsString(Get(kv, "mod_revision")).value,
        AsString(Get(kv, "version")).value)
  {
    if kv.JObject? {
      CheckMembersFindsFirstMissing(kv.members, KvChecks, lib.write(kv));
    }
  }

  /** An entry whose five members are strings holds the decoded key and value and the revisions verbatim. */
  lemma KvEntryOfStrings(lib: JsonLib, k: string, v: string, cr: string, mr: string, ver: string)
    ensures ParseSingleKvEntry(lib, JObject(map[
        "key" := JString(k), "value" := JString(v), "create_revision" := JString(cr),
        "mod_revision" := JString(mr), "version" := JString(ver)]))
      == Success(KVEntry(Base64.Decode(k), Base64.Decode(v), cr, mr, ver))
  {
    var kv := JObject(map[
        "key" := JString(k), "value" := JString(v), "create_revision" := JString(cr),
        "mod_revision" := JString(mr), "version" := JString(ver)]);
    assert forall i :: 0 <= i < |KvChecks| ==> KvChecks[i].member in kv.members;
    assert Get(kv, "key") == JString(k) && Get(kv, "value") == JString(v);
    assert Get(kv, "create_revision") == JString(cr) && Get(kv, "mod_revision") == JString(mr);
    assert Get(kv, "version") == JString(ver);
    ParseSingleKvEntryReadsMembers(lib, kv);
  }

  lemma CheckMembersSucceeded(kv: Json, shown: string)
    requires CheckMembers(kv, KvChecks, shown).Success?
    ensures kv.JObject? && forall i :: 0 <= i < |KvChecks| ==> KvChecks[i].member in kv.members
  {
    if kv.JObject? {
      CheckMembersFindsFirstMissing(kv.members, KvChecks, shown);
    }
  }

  /** A kv entry as the gateway writes it: key and value in base64, the revisions as strings. */
  function KvJson(key: seq<Base64.Byte>, value: seq<Base64.Byte>, createRevision: string, modRevision: string, version: string): Json {
    JObject(map[
      "key" := JString(Base64.ToBase64(key)),
      "value" := JString(Base64.ToBase64(value)),
      "create_revision" := JString(createRevision),
      "mod_revision" := JString(modRevision),
      "version" := JString(version)])
  }

  /** The bytes stored by a request are the bytes a response decodes. */
  lemma KvRoundTrip(lib: JsonLib, key: seq<Base64.Byte>, value: seq<Base64.Byte>, createRevision: string, modRevision: string, version: string)
    ensures ParseSingleKvEntry(lib, KvJson(key, value, createRevision, modRevision, version))
      == Success(KVEntry(key, value, createRevision, modRevision, version))
  {
    var kv := KvJson(key, value, createRevision, modRevision, version);
    WrittenKvHasMembers(key, value, createRevision, modRevision, version, lib.write(kv));
    Base64.DecodeToBase64(key);
    Base64.DecodeToBase64(value);
  }

  lemma WrittenKvHasMembers(key: seq<Base64.Byte>, value: seq<Base64.Byte>, createRevision: string, modRevision: string, version: string, shown: string)
    ensures var kv := KvJson(key, value, createRevision, modRevision, version);
      && CheckMembers(kv, KvChecks, shown) == Success(())
      && AsString(Get(kv, "create_revision")) == Success(createRevision)
      && AsString(Get(kv, "mod_revision")) == Success(modRevision)
      && AsString(Get(kv, "version")) == Success(version)
      && AsString(Get(kv, "key")) == Success(Base64.ToBase64(key))
      && AsString(Get(kv, "value")) == Success(Base64.ToBase64(value))
  {
    var kv := KvJson(key, value, createRevision, modRevision, version);
    assert forall i :: 0 <= i < |KvChecks| ==> KvChecks[i].member in kv.members;
    CheckMembersFindsFirstMissing(kv.members, KvChecks, shown);
  }

  /** A kv entry lacking a member is refused with `InvalidMsgHeader`, never with `InvalidMsgKvContent`. */
  lemma MissingKvMemberIsHeaderError(lib: JsonLib, m: map<string, Json>)
    requires exists i :: 0 <= i < |KvChecks| && KvChecks[i].member !in m
    ensures ParseSingleKvEntry(lib, JObject(m)).Failure?
    ensures ParseSingleKvEntry(lib, JObject(m)).error.Etcd?
    ensures ParseSingleKvEntry(lib, JObject(m)).error.error.errorCode == InvalidMsgHeader
  {
    CheckMembersFindsFirstMissing(m, KvChecks, lib.write(JObject(m)));
  }

  /** What one turn of an entry loop does: push an entry, skip the item, or stop with an exception. */
  datatype Step = Push(entry: KVEntry) | Skip | Stop(failure: Failure)

  /** The entries pushed before the first failure, and that failure. */
  datatype KvList = KvList(entries: seq<KVEntry>, failure: Option<Failure>)

  /** Runs the turns of an entry loop in order: entries are pushed until a turn throws. */
  function Collect(steps: seq<Step>): (r: KvList)
    ensures |r.entries| <= |steps|
    decreases |steps|
  {
    if steps == [] then KvList([], None)
    else
      var done := Collect(steps[..|steps| - 1]);
      if done.failure.Some? then done
      else match steps[|steps| - 1]
        case Push(e) => KvList(done.entries + [e], None)
        case Skip => done
        case Stop(f) => KvList(done.entries, Some(f))
  }

  /** One more turn of the loop. */
  lemma CollectStep(steps: seq<Step>, i: nat)
    requires i < |steps|
    ensures var done := Collect(steps[..i]);
      Collect(steps[..i + 1]) ==
        if done.failure.Some? then done
        else match steps[i]
          case Push(e) => KvList(done.entries + [e], None)
          case Skip => done
          case Stop(f) => KvList(done.entries, Some(f))
  {
    assert steps[..i + 1][..i] == steps[..i];
  }

  /** Once a turn has thrown, the later turns never run. */
  lemma {:induction false} CollectStopsAtFailure(steps: seq<Step>, i: nat)
    requires i <= |steps| && Collect(steps[..i]).failure.Some?
    ensures Collect(steps) == Collect(steps[..i])
    decreases |steps| - i
  {
    if i < |steps| {
      CollectStep(steps, i);
      CollectStopsAtFailure(steps, i + 1);
    } else {
      assert steps[..i] == steps;
    }
  }

  /** A loop in which every turn pushes yields exactly the pushed entries, in order. */
  lemma {:induction false} CollectAllPushed(steps: seq<Step>, entries: seq<KVEntry>)
    requires |steps| == |entries|
    requires forall i :: 0 <= i < |steps| ==> steps[i] == Push(entries[i])
    ensures Collect(steps) == KvList(entries, None)
    decreases |steps|
  {
    if steps != [] {
      var n := |steps| - 1;
      CollectAllPushed(steps[..n], entries[..n]);
      assert entries == entries[..n] + [entries[n]];
    }
  }

  /** The turns that do something: skipped items removed. */
  function Pushes(steps: seq<Step>): seq<Step>
    decreases |steps|
  {
    if steps == [] then []
    else
      var front := Pushes(steps[..|steps| - 1]);
      if steps[|steps| - 1].Skip? then front else front + [steps[|steps| - 1]]
  }

  /** Skipped items change nothing. */
  lemma {:induction false} CollectIgnoresSkips(steps: seq<Step>)
    ensures Collect(steps) == Collect(Pushes(steps))
    decreases |steps|
  {
    if steps != [] {
      var n := |steps| - 1;
      CollectIgnoresSkips(steps[..n]);
      if !steps[n].Skip? {
        var all := Pushes(steps[..n]) + [steps[n]];
        CollectStep(all, |Pushes(steps[..n])|);
        assert all[..|all| - 1] == Pushes(steps[..n]);
      }
    }
  }

  /** One turn of the `kvs` loop. */
  function KvStep(lib: JsonLib, kv: Json): (s: Step)
    ensures !s.Skip?
  {
    match ParseSingleKvEntry(lib, kv)
    case Success(e) => Push(e)
    case Failure(f) => Stop(f)
  }

  function KvSteps(lib: JsonLib, items: seq<Json>): (steps: seq<Step>)
    ensures |steps| == |items| && forall i :: 0 <= i < |items| ==> steps[i] == KvStep(lib, items[i])
  {
    seq(|items|, i requires 0 <= i < |items| => KvStep(lib, items[i]))
  }

  /**
   * The `push_back(parseSingleKvEntry(items[i]))` loop: the entries pushed
   * so far, and the exception that stopped it, if any.
   */
  function DecodeKvList(lib: JsonLib, items: seq<Json>): KvList {
    Collect(KvSteps(lib, items))
  }
}
