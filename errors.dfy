/**
 * The client's error taxonomy: the integer error kinds, the exception
 * object `ETCDError` and the two-way text of its `what()`.
 */
module Errors {
  import opened Wrappers
  import Decimal

  const UnknownError: int := 0
  const InvalidNumOfThreads: int := 11
  const InvalidAddress: int := 12
  const FailedToReadSocket: int := 13
  const FailedToWriteSocket: int := 14
  const FailedToResolveAddress: int := 15
  const FailedToConnect: int := 16
  const InvalidMsgHeader: int := 17
  const InvalidMsgKvContent: int := 18
  const EtcdReturnedError: int := 19
  const FailedToReadSocketLongRunning: int := 20
  const FailedToParseJsonFromQueue: int := 21
  const HugeUnparsedFromQueue: int := 22
  const InvalidJsonStrClosure: int := 23
  const RequestedSingleResponseFromLongRequest: int := 24
  const FailedToParseJsonMessage: int := 25
  const CancelWatchReturnedError: int := 26
  const MinTtlExceededError: int := 27
  const EmptyKeyError: int := 28
  const InvalidKeyPrefixError: int := 29

  /** `std::numeric_limits<long>::min()` on a 64-bit `long`: "no code from the server". */
  const DefaultEtcdErrValue: int := -0x8000_0000_0000_0000

  /** The closed set of error kinds, in declaration order. */
  function ErrorKinds(): (kinds: seq<int>)
    ensures |kinds| == 20
    ensures forall i, j :: 0 <= i < j < |kinds| ==> kinds[i] < kinds[j]
    ensures forall i :: 0 <= i < |kinds| ==> kinds[i] == UnknownError || 11 <= kinds[i] <= 29
    ensures DefaultEtcdErrValue !in kinds
  {
    [UnknownError, InvalidNumOfThreads, InvalidAddress, FailedToReadSocket,
     FailedToWriteSocket, FailedToResolveAddress, FailedToConnect, InvalidMsgHeader,
     InvalidMsgKvContent, EtcdReturnedError, FailedToReadSocketLongRunning,
     FailedToParseJsonFromQueue, HugeUnparsedFromQueue, InvalidJsonStrClosure,
     RequestedSingleResponseFromLongRequest, FailedToParseJsonMessage,
     CancelWatchReturnedError, MinTtlExceededError, EmptyKeyError, InvalidKeyPrefixError]
  }

  /**
   * The `etcdErrorCode` field. The two-argument constructor never
   * initialises it, so its value is whatever the memory held.
   */
  datatype EtcdCode = Given(code: int) | Indeterminate

  /** An `ETCDError`. Its three fields are fixed at construction and read through const getters. */
  datatype EtcdError = EtcdError(errorCode: int, etcdErrorCode: EtcdCode, errorMsg: string) {

    function GetErrorCode(): int {
      errorCode
    }

    function GetErrorMessage(): string {
      errorMsg
    }

    /** `getEtcdErrorCode()`; `indeterminate` stands for the uninitialised field's contents. */
    function GetEtcdErrorCode(indeterminate: int): int {
      match etcdErrorCode
      case Given(c) => c
      case Indeterminate => indeterminate
    }

    /**
     * `what()`: the message it stores in its `fullMessage` cache and returns.
     * The cache is rebuilt from the unchanged fields on every call.
     */
    function What(indeterminate: int): string {
      var etcd := GetEtcdErrorCode(indeterminate);
      if etcd == DefaultEtcdErrValue then
        "Error: " + Decimal.IntToString(errorCode) + ": " + errorMsg
      else
        "Error from ETCD response: " + Decimal.IntToString(etcd) + ": " + errorMsg
    }
  }

  /** `ETCDError(Code, Message)`: the etcd code is left uninitialised. */
  function NewError(code: int, message: string): (e: EtcdError)
    ensures e.GetErrorCode() == code && e.GetErrorMessage() == message
    ensures forall garbage :: e.GetEtcdErrorCode(garbage) == garbage
  {
    EtcdError(code, Indeterminate, message)
  }

  /** `ETCDError(Code, EtcdErrorCode, Message)`. */
  function NewEtcdError(code: int, etcdCode: int, message: string): (e: EtcdError)
    ensures e.GetErrorCode() == code && e.GetErrorMessage() == message
    ensures forall garbage :: e.GetEtcdErrorCode(garbage) == etcdCode
  {
    EtcdError(code, Given(etcdCode), message)
  }

  /** What the C++ code throws: an `ETCDError`, or a standard or jsoncpp exception with its `what()`. */
  datatype Failure = Etcd(error: EtcdError) | Library(what: string)

  /** The pieces `What` is made of, read back from its text. */
  datatype WhatParts = WhatParts(fromServer: bool, code: int, message: string)

  const LocalPrefix: string := "Error: "
  const ServerPrefix: string := "Error from ETCD response: "

  /** The index of the first ':' in `s`, or `|s|`. */
  function FirstColon(s: string): (k: nat)
    ensures k <= |s|
    ensures forall i :: 0 <= i < k ==> s[i] != ':'
    ensures k < |s| ==> s[k] == ':'
  {
    if s == [] then 0
    else if s[0] == ':' then 0
    else 1 + FirstColon(s[1..])
  }

  /** Splits "<integer>: <message>". */
  function ParseCodeAndMessage(s: string): Option<(int, string)> {
    var k := FirstColon(s);
    if k + 1 < |s| && s[k + 1] == ' ' then
      match Decimal.ParseInt(s[..k])
      case Some(c) => Some((c, s[k + 2..]))
      case None => None
    else None
  }

  /** Reads a `what()` text back into which branch produced it, the code it shows and the message. */
  function ParseWhat(m: string): Option<WhatParts> {
    if |m| >= |ServerPrefix| && m[..|ServerPrefix|] == ServerPrefix then
      match ParseCodeAndMessage(m[|ServerPrefix|..])
      case Some(p) => Some(WhatParts(true, p.0, p.1))
      case None => None
    else if |m| >= |LocalPrefix| && m[..|LocalPrefix|] == LocalPrefix then
      match ParseCodeAndMessage(m[|LocalPrefix|..])
      case Some(p) => Some(WhatParts(false, p.0, p.1))
      case None => None
    else None
  }

  lemma {:induction false} CodeAndMessageRoundTrip(c: int, msg: string)
    ensures ParseCodeAndMessage(Decimal.IntToString(c) + ": " + msg) == Some((c, msg))
  {
    var d := Decimal.IntToString(c);
    var s := d + ": " + msg;
    FirstColonAfterNumber(d, ": " + msg);
    assert s == d + (": " + msg);
    assert s[..|d|] == d;
    assert s[|d| + 2..] == msg;
    Decimal.IntToStringRoundTrip(c);
  }

  lemma {:induction false} FirstColonAfterNumber(d: string, rest: string)
    requires forall k :: 0 <= k < |d| ==> Decimal.IsDigit(d[k]) || d[k] == '-'
    requires |rest| > 0 && rest[0] == ':'
    ensures FirstColon(d + rest) == |d|
    decreases |d|
  {
    if d != [] {
      assert (d + rest)[1..] == d[1..] + rest;
      FirstColonAfterNumber(d[1..], rest);
    } else {
      assert d + rest == rest;
    }
  }

  lemma ParseLocalWhat(c: int, msg: string)
    ensures ParseWhat(LocalPrefix + Decimal.IntToString(c) + ": " + msg) == Some(WhatParts(false, c, msg))
  {
    var tail := Decimal.IntToString(c) + ": " + msg;
    var m := LocalPrefix + tail;
    assert LocalPrefix + Decimal.IntToString(c) + ": " + msg == m;
    assert m[5] == ':' && ServerPrefix[5] == ' ';
    assert m[..|LocalPrefix|] == LocalPrefix;
    assert m[|LocalPrefix|..] == tail;
    CodeAndMessageRoundTrip(c, msg);
  }

  lemma ParseServerWhat(c: int, msg: string)
    ensures ParseWhat(ServerPrefix + Decimal.IntToString(c) + ": " + msg) == Some(WhatParts(true, c, msg))
  {
    var tail := Decimal.IntToString(c) + ": " + msg;
    var m := ServerPrefix + tail;
    assert ServerPrefix + Decimal.IntToString(c) + ": " + msg == m;
    assert m[..|ServerPrefix|] == ServerPrefix;
    assert m[|ServerPrefix|..] == tail;
    CodeAndMessageRoundTrip(c, msg);
  }

  /**
   * `what()` is two-way and loses nothing: its text says whether the server
   * supplied a code, which code is shown (the etcd code, or the client's own
   * code when the etcd code is the sentinel) and the full message.
   */
  lemma WhatRoundTrip(e: EtcdError, indeterminate: int)
    ensures
      var etcd := e.GetEtcdErrorCode(indeterminate);
      var fromServer := etcd != DefaultEtcdErrValue;
      ParseWhat(e.What(indeterminate))
        == Some(WhatParts(fromServer, if fromServer then etcd else e.errorCode, e.errorMsg))
  {
    var etcd := e.GetEtcdErrorCode(indeterminate);
    if etcd == DefaultEtcdErrValue {
      ParseLocalWhat(e.errorCode, e.errorMsg);
    } else {
      ParseServerWhat(etcd, e.errorMsg);
    }
  }
}
