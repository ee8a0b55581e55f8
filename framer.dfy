/**
 * `JsonStringParserQueue`: the brace-balance framer that cuts the body of
 * a watch stream, which carries JSON documents back to back with no
 * delimiter, into single documents.
 *
 * Bytes are appended to `dataQueue`; a cursor `charCount` walks over the
 * bytes not yet scanned while `bracketLevel` counts '{' minus '}'. When the
 * count returns to zero the buffer prefix up to and including that '}' is
 * handed to the JSON reader and erased. Only the two brace characters
 * matter: braces inside JSON strings are counted like any other.
 *
 * `Scan` is the loop of `pushData` written as a function; the class below
 * runs the loop in place and is proved to end in the state `Scan` gives.
 */
module Framer {
  import opened Wrappers
  import opened Errors
  import opened Json

  const OpenChar: char := '{'
  const CloseChar: char := '}'
  /** `1 << 14`: the cursor may pass this many bytes before `pushData` gives up. */
  const LargestExpectedJson: nat := 0x4000

  const UInt32Limit: nat := 0x1_0000_0000
  const Int32Limit: nat := 0x8000_0000

  /** How a byte moves the bracket level. */
  function Weight(c: char): int {
    if c == OpenChar then 1 else if c == CloseChar then -1 else 0
  }

  /** The number of '{' minus the number of '}' in `s`. */
  function Balance(s: string): int
    decreases |s|
  {
    if s == [] then 0 else Balance(s[..|s| - 1]) + Weight(s[|s| - 1])
  }

  lemma {:induction false} BalanceBounds(s: string)
    ensures -|s| <= Balance(s) <= |s|
    decreases |s|
  {
    if s != [] {
      BalanceBounds(s[..|s| - 1]);
    }
  }

  /** Scanning one more byte adds its weight. */
  lemma BalanceStep(s: string, k: nat)
    requires k < |s|
    ensures Balance(s[..k + 1]) == Balance(s[..k]) + Weight(s[k])
  {
    assert s[..k + 1][..k] == s[..k];
  }

  /** The four fields of a framer. */
  datatype FramerState = FramerState(dataQueue: string, parsedValuesQueue: seq<Json>, charCount: nat, bracketLevel: int) {
    /** The state right after `pushData` has inserted `data` at the end of the buffer. */
    function Append(data: string): FramerState {
      this.(dataQueue := dataQueue + data)
    }
  }

  /** A framer as its in-class initialisers leave it. */
  const Fresh: FramerState := FramerState([], [], 0, 0)

  /** The end of one `pushData` loop: the new state, the slices it parsed, and the error it threw, if any. */
  datatype Scanned = Scanned(state: FramerState, frames: seq<string>, error: Option<EtcdError>)

  function HugeError(): EtcdError {
    NewError(HugeUnparsedFromQueue, "Huge unparsed json data")
  }

  function ClosureError(buffer: string): EtcdError {
    NewError(InvalidJsonStrClosure, "Invalid bracket appeared in string: " + buffer)
  }

  function ParseError(jsonStr: string): EtcdError {
    NewError(FailedToParseJsonFromQueue, "Failed to parse json string: " + jsonStr)
  }

  /**
   * The `while (charCount < dataQueue.size())` loop of `pushData`, started
   * from `s`. Each turn scans one byte; a '}' that brings the level back to
   * zero hands the prefix to the reader and erases it.
   */
  function Scan(lib: JsonLib, s: FramerState): (r: Scanned)
    requires s.charCount <= |s.dataQueue|
    ensures r.state.charCount <= |r.state.dataQueue|
    ensures r.error.None? ==> r.state.charCount == |r.state.dataQueue|
    decreases |s.dataQueue| - s.charCount
  {
    var c := s.charCount;
    if c == |s.dataQueue| then
      Scanned(s, [], None)
    else if c > LargestExpectedJson then
      Scanned(s, [], Some(HugeError()))
    else if s.dataQueue[c] == OpenChar then
      Scan(lib, s.(bracketLevel := s.bracketLevel + 1, charCount := c + 1))
    else if s.dataQueue[c] == CloseChar then
      var level := s.bracketLevel - 1;
      if level < 0 then
        Scanned(s.(bracketLevel := level), [], Some(ClosureError(s.dataQueue)))
      else if level > 0 then
        Scan(lib, s.(bracketLevel := level, charCount := c + 1))
      else
        var frame := s.dataQueue[..c + 1];
        var parsed := lib.read(frame);
        if !parsed.ok then
          Scanned(s.(bracketLevel := 0, charCount := c + 1), [], Some(ParseError(frame)))
        else
          var rest := Scan(lib, FramerState(s.dataQueue[c + 1..], s.parsedValuesQueue + [parsed.root], 0, 0));
          Scanned(rest.state, [frame] + rest.frames, rest.error)
    else
      Scan(lib, s.(charCount := c + 1))
  }

  /** `pushData(data)` on a framer in state `s`. */
  function Push(lib: JsonLib, s: FramerState, data: string): Scanned
    requires s.charCount <= |s.dataQueue|
  {
    Scan(lib, s.Append(data))
  }

  // ---------------------------------------------------------------------
  // The states a framer can be in
  // ---------------------------------------------------------------------

  /** The level is the balance of the scanned bytes, and it is not negative. */
  ghost predicate Tracked(s: FramerState) {
    && s.charCount <= |s.dataQueue|
    && s.bracketLevel == Balance(s.dataQueue[..s.charCount])
    && s.bracketLevel >= 0
  }

  /**
   * The state an unmatched '}' leaves behind: the cursor rests on that '}',
   * which was never consumed, and the level is negative.
   */
  ghost predicate Stuck(s: FramerState) {
    && s.charCount < |s.dataQueue|
    && s.charCount <= LargestExpectedJson
    && s.dataQueue[s.charCount] == CloseChar
    && s.bracketLevel < 0
  }

  /** Every state a framer reaches. */
  ghost predicate Inv(s: FramerState) {
    && s.charCount <= |s.dataQueue|
    && s.charCount <= LargestExpectedJson + 1
    && (Tracked(s) || Stuck(s))
  }

  /** No prefix of `p` goes below zero, and no '}' in `p` closes a document. */
  ghost predicate Open(p: string) {
    forall k :: 0 < k <= |p| ==>
      Balance(p[..k]) >= 0 && (p[k - 1] == CloseChar ==> Balance(p[..k]) > 0)
  }

  /** A tracked state whose scanned bytes hold no complete document. */
  ghost predicate Clean(s: FramerState) {
    Tracked(s) && Open(s.dataQueue[..s.charCount])
  }

  /** One complete document: it ends with the '}' that first brings the balance back to zero. */
  ghost predicate IsFrame(f: string) {
    && |f| > 0
    && f[|f| - 1] == CloseChar
    && Balance(f) == 0
    && Open(f[..|f| - 1])
  }

  /** The slices of a scan laid end to end. */
  function Concat(fs: seq<string>): string
    decreases |fs|
  {
    if fs == [] then [] else fs[0] + Concat(fs[1..])
  }

  /** What the reader made of each slice. */
  function Roots(lib: JsonLib, fs: seq<string>): seq<Json>
    decreases |fs|
  {
    if fs == [] then [] else [lib.read(fs[0]).root] + Roots(lib, fs[1..])
  }

  lemma AppendKeepsInv(s: FramerState, data: string)
    requires Inv(s)
    ensures Inv(s.Append(data))
  {
    var t := s.Append(data);
    assert t.dataQueue[..t.charCount] == s.dataQueue[..s.charCount];
  }

  /** Scanning keeps a framer among its reachable states, and a scan that throws nothing ends tracked. */
  lemma {:induction false} ScanKeepsInv(lib: JsonLib, s: FramerState)
    requires Inv(s)
    ensures Inv(Scan(lib, s).state)
    ensures Scan(lib, s).error.None? ==> Tracked(Scan(lib, s).state)
    decreases |s.dataQueue| - s.charCount
  {
    var c := s.charCount;
    if c == |s.dataQueue| || c > LargestExpectedJson {
    } else if Stuck(s) {
    } else {
      BalanceStep(s.dataQueue, c);
      if s.dataQueue[c] == OpenChar {
        ScanKeepsInv(lib, s.(bracketLevel := s.bracketLevel + 1, charCount := c + 1));
      } else if s.dataQueue[c] == CloseChar {
        var level := s.bracketLevel - 1;
        if level > 0 {
          ScanKeepsInv(lib, s.(bracketLevel := level, charCount := c + 1));
        } else if level == 0 {
          var parsed := lib.read(s.dataQueue[..c + 1]);
          if parsed.ok {
            ScanKeepsInv(lib, FramerState(s.dataQueue[c + 1..], s.parsedValuesQueue + [parsed.root], 0, 0));
          }
        }
      } else {
        ScanKeepsInv(lib, s.(charCount := c + 1));
      }
    }
  }

  /**
   * In every reachable state the cursor stays within 1 << 14 + 1 and the
   * level never exceeds the cursor, so neither the `uint32_t` cursor nor the
   * `int32_t` level can overflow upwards.
   */
  lemma InvBounds(s: FramerState)
    requires Inv(s)
    ensures s.charCount <= LargestExpectedJson + 1 < UInt32Limit
    ensures s.bracketLevel <= s.charCount < Int32Limit
  {
    if Tracked(s) {
      BalanceBounds(s.dataQueue[..s.charCount]);
    }
  }

  /** A successful `pushData` leaves the cursor at the end and the level equal to the buffer's balance. */
  lemma PushSettles(lib: JsonLib, s: FramerState, data: string)
    requires Inv(s)
    requires Push(lib, s, data).error.None?
    ensures var t := Push(lib, s, data).state;
      t.charCount == |t.dataQueue| && t.bracketLevel == Balance(t.dataQueue) >= 0
  {
    AppendKeepsInv(s, data);
    ScanKeepsInv(lib, s.Append(data));
    var t := Push(lib, s, data).state;
    assert t.dataQueue[..t.charCount] == t.dataQueue;
  }

  /**
   * After an unmatched '}' the framer is stuck: every later `pushData`
   * throws the same error again without consuming anything, and the level
   * drops by one more each time.
   */
  lemma StuckStaysStuck(lib: JsonLib, s: FramerState, data: string)
    requires Stuck(s)
    ensures var t := s.Append(data);
      Push(lib, s, data) == Scanned(t.(bracketLevel := s.bracketLevel - 1), [], Some(ClosureError(t.dataQueue)))
    ensures Stuck(Push(lib, s, data).state)
  {
    var t := s.Append(data);
    assert t.dataQueue[t.charCount] == CloseChar;
  }

  lemma OpenSnoc(p: string, c: char)
    requires Open(p)
    requires Balance(p + [c]) >= 0
    requires c == CloseChar ==> Balance(p + [c]) > 0
    ensures Open(p + [c])
  {
    var q := p + [c];
    forall k | 0 < k <= |q|
      ensures Balance(q[..k]) >= 0 && (q[k - 1] == CloseChar ==> Balance(q[..k]) > 0)
    {
      if k <= |p| {
        assert q[..k] == p[..k];
      } else {
        assert q[..k] == q;
      }
    }
  }

  lemma ScanStepOpen(s: FramerState)
    requires Clean(s) && s.charCount < |s.dataQueue|
    requires s.bracketLevel + Weight(s.dataQueue[s.charCount]) >= 0
    requires s.dataQueue[s.charCount] == CloseChar ==> s.bracketLevel - 1 > 0
    ensures Open(s.dataQueue[..s.charCount + 1])
    ensures Balance(s.dataQueue[..s.charCount + 1]) == s.bracketLevel + Weight(s.dataQueue[s.charCount])
  {
    var c := s.charCount;
    BalanceStep(s.dataQueue, c);
    assert s.dataQueue[..c + 1] == s.dataQueue[..c] + [s.dataQueue[c]];
    OpenSnoc(s.dataQueue[..c], s.dataQueue[c]);
  }

  /**
   * Starting from a state whose scanned bytes hold no complete document,
   * every slice a scan hands to the reader is exactly one document, and a
   * scan that throws nothing again leaves no complete document behind.
   */
  lemma {:induction false} ScanYieldsFrames(lib: JsonLib, s: FramerState)
    requires Clean(s)
    ensures forall i :: 0 <= i < |Scan(lib, s).frames| ==> IsFrame(Scan(lib, s).frames[i])
    ensures Scan(lib, s).error.None? ==> Clean(Scan(lib, s).state)
    decreases |s.dataQueue| - s.charCount, 1
  {
    var c := s.charCount;
    if c == |s.dataQueue| || c > LargestExpectedJson {
    } else if s.dataQueue[c] == OpenChar {
      ScanStepOpen(s);
      ScanYieldsFrames(lib, s.(bracketLevel := s.bracketLevel + 1, charCount := c + 1));
    } else if s.dataQueue[c] == CloseChar {
      var level := s.bracketLevel - 1;
      if level > 0 {
        ScanStepOpen(s);
        ScanYieldsFrames(lib, s.(bracketLevel := level, charCount := c + 1));
      } else if level == 0 {
        ScanYieldsFramesFrame(lib, s);
      }
    } else {
      ScanStepOpen(s);
      ScanYieldsFrames(lib, s.(charCount := c + 1));
    }
  }

  /** `ScanYieldsFrames` at a '}' that brings the level back to zero. */
  lemma {:induction false} ScanYieldsFramesFrame(lib: JsonLib, s: FramerState)
    requires Clean(s) && s.charCount < |s.dataQueue| && s.charCount <= LargestExpectedJson
    requires s.dataQueue[s.charCount] == CloseChar && s.bracketLevel == 1
    ensures forall i :: 0 <= i < |Scan(lib, s).frames| ==> IsFrame(Scan(lib, s).frames[i])
    ensures Scan(lib, s).error.None? ==> Clean(Scan(lib, s).state)
    decreases |s.dataQueue| - s.charCount, 0
  {
    var c := s.charCount;
    var frame := s.dataQueue[..c + 1];
    var parsed := lib.read(frame);
    BalanceStep(s.dataQueue, c);
    assert frame[..c] == s.dataQueue[..c];
    assert IsFrame(frame);
    if parsed.ok {
      var next := FramerState(s.dataQueue[c + 1..], s.parsedValuesQueue + [parsed.root], 0, 0);
      assert next.dataQueue[..0] == [];
      ScanYieldsFrames(lib, next);
      var rest := Scan(lib, next);
      assert Scan(lib, s).frames == [frame] + rest.frames;
    }
  }

  /**
   * Nothing is lost or read twice: the slices a scan parsed, followed by
   * what stays buffered, are the buffer it started from; each slice was
   * accepted by the reader and its value was queued, in order.
   */
  lemma {:induction false} ScanPartitionsBuffer(lib: JsonLib, s: FramerState)
    requires s.charCount <= |s.dataQueue|
    ensures var r := Scan(lib, s);
      && Concat(r.frames) + r.state.dataQueue == s.dataQueue
      && r.state.parsedValuesQueue == s.parsedValuesQueue + Roots(lib, r.frames)
      && forall i :: 0 <= i < |r.frames| ==> lib.read(r.frames[i]).ok
    decreases |s.dataQueue| - s.charCount, 1
  {
    var c := s.charCount;
    if c == |s.dataQueue| || c > LargestExpectedJson {
    } else if s.dataQueue[c] == OpenChar {
      ScanPartitionsBuffer(lib, s.(bracketLevel := s.bracketLevel + 1, charCount := c + 1));
    } else if s.dataQueue[c] == CloseChar {
      var level := s.bracketLevel - 1;
      if level > 0 {
        ScanPartitionsBuffer(lib, s.(bracketLevel := level, charCount := c + 1));
      } else if level == 0 && lib.read(s.dataQueue[..c + 1]).ok {
        ScanPartitionsBufferFrame(lib, s);
      }
    } else {
      ScanPartitionsBuffer(lib, s.(charCount := c + 1));
    }
  }

  /** `ScanPartitionsBuffer` at a '}' that completes a document the reader accepts. */
  lemma {:induction false} ScanPartitionsBufferFrame(lib: JsonLib, s: FramerState)
    requires s.charCount < |s.dataQueue| && s.charCount <= LargestExpectedJson
    requires s.dataQueue[s.charCount] == CloseChar && s.bracketLevel == 1
    requires lib.read(s.dataQueue[..s.charCount + 1]).ok
    ensures var r := Scan(lib, s);
      && Concat(r.frames) + r.state.dataQueue == s.dataQueue
      && r.state.parsedValuesQueue == s.parsedValuesQueue + Roots(lib, r.frames)
      && forall i :: 0 <= i < |r.frames| ==> lib.read(r.frames[i]).ok
    decreases |s.dataQueue| - s.charCount, 0
  {
    var c := s.charCount;
    var frame := s.dataQueue[..c + 1];
    var parsed := lib.read(frame);
    var next := FramerState(s.dataQueue[c + 1..], s.parsedValuesQueue + [parsed.root], 0, 0);
    ScanPartitionsBuffer(lib, next);
    var rest := Scan(lib, next);
    ScanFrame(lib, s);
    var fs := [frame] + rest.frames;
    assert fs[0] == frame && fs[1..] == rest.frames;
    assert Concat(fs) == frame + Concat(rest.frames);
    assert Roots(lib, fs) == [parsed.root] + Roots(lib, rest.frames);
    assert frame + s.dataQueue[c + 1..] == s.dataQueue;
  }

  /**
   * Scanning looks only at bytes before the end of the buffer it was given:
   * bytes appended later are carried along untouched until the scan of the
   * shorter buffer is over, and are scanned after it.
   */
  lemma ScanAppend(lib: JsonLib, s: FramerState, data: string)
    requires s.charCount <= |s.dataQueue|
    ensures var r := Scan(lib, s);
      if r.error.None? then
          var more := Scan(lib, r.state.Append(data));
          Scan(lib, s.Append(data)) == Scanned(more.state, r.frames + more.frames, more.error)
        else
          var more := Scan(lib, s.Append(data));
          && more.state == r.state.Append(data)
          && more.frames == r.frames
          && more.error.Some?
          && more.error.value.errorCode == r.error.value.errorCode
  {
    if Scan(lib, s).error.None? {
      ScanAppendSettled(lib, s, data);
    } else {
      ScanAppendStopped(lib, s, data);
    }
  }

  /** `ScanAppend` when the scan of the shorter buffer ends without an error. */
  lemma {:induction false} ScanAppendSettled(lib: JsonLib, s: FramerState, data: string)
    requires s.charCount <= |s.dataQueue|
    requires Scan(lib, s).error.None?
    ensures var r := Scan(lib, s);
      var more := Scan(lib, r.state.Append(data));
      Scan(lib, s.Append(data)) == Scanned(more.state, r.frames + more.frames, more.error)
    decreases |s.dataQueue| - s.charCount, 1
  {
    var c := s.charCount;
    var t := s.Append(data);
    if c == |s.dataQueue| {
      assert [] + Scan(lib, t).frames == Scan(lib, t).frames;
    } else {
      assert t.dataQueue[c] == s.dataQueue[c];
      if s.dataQueue[c] == OpenChar {
        var s' := s.(bracketLevel := s.bracketLevel + 1, charCount := c + 1);
        assert t.(bracketLevel := s.bracketLevel + 1, charCount := c + 1) == s'.Append(data);
        ScanAppendSettled(lib, s', data);
      } else if s.dataQueue[c] == CloseChar {
        var level := s.bracketLevel - 1;
        if level > 0 {
          var s' := s.(bracketLevel := level, charCount := c + 1);
          assert t.(bracketLevel := level, charCount := c + 1) == s'.Append(data);
          ScanAppendSettled(lib, s', data);
        } else {
          ScanAppendSettledFrame(lib, s, data);
        }
      } else {
        var s' := s.(charCount := c + 1);
        assert t.(charCount := c + 1) == s'.Append(data);
        ScanAppendSettled(lib, s', data);
      }
    }
  }

  /** `ScanAppendSettled` at a '}' that completes a document. */
  lemma {:induction false} ScanAppendSettledFrame(lib: JsonLib, s: FramerState, data: string)
    requires s.charCount < |s.dataQueue| && s.charCount <= LargestExpectedJson
    requires s.dataQueue[s.charCount] == CloseChar && s.bracketLevel == 1
    requires Scan(lib, s).error.None?
    ensures var r := Scan(lib, s);
      var more := Scan(lib, r.state.Append(data));
      Scan(lib, s.Append(data)) == Scanned(more.state, r.frames + more.frames, more.error)
    decreases |s.dataQueue| - s.charCount, 0
  {
    var c := s.charCount;
    var t := s.Append(data);
    assert t.dataQueue[c] == s.dataQueue[c];
    var frame := s.dataQueue[..c + 1];
    assert t.dataQueue[..c + 1] == frame;
    var parsed := lib.read(frame);
    var next := FramerState(s.dataQueue[c + 1..], s.parsedValuesQueue + [parsed.root], 0, 0);
    assert FramerState(t.dataQueue[c + 1..], s.parsedValuesQueue + [parsed.root], 0, 0) == next.Append(data);
    ScanAppendSettled(lib, next, data);
    var rest := Scan(lib, next);
    var more := Scan(lib, rest.state.Append(data));
    assert [frame] + (rest.frames + more.frames) == ([frame] + rest.frames) + more.frames;
  }

  /** `ScanAppend` when the scan of the shorter buffer throws. */
  lemma {:induction false} ScanAppendStopped(lib: JsonLib, s: FramerState, data: string)
    requires s.charCount <= |s.dataQueue|
    requires Scan(lib, s).error.Some?
    ensures var r := Scan(lib, s);
      var more := Scan(lib, s.Append(data));
      && more.state == r.state.Append(data)
      && more.frames == r.frames
      && more.error.Some?
      && more.error.value.errorCode == r.error.value.errorCode
    decreases |s.dataQueue| - s.charCount
  {
    var c := s.charCount;
    var t := s.Append(data);
    assert t.dataQueue[c] == s.dataQueue[c];
    if c > LargestExpectedJson {
    } else if s.dataQueue[c] == OpenChar {
      var s' := s.(bracketLevel := s.bracketLevel + 1, charCount := c + 1);
      assert t.(bracketLevel := s.bracketLevel + 1, charCount := c + 1) == s'.Append(data);
      ScanAppendStopped(lib, s', data);
    } else if s.dataQueue[c] == CloseChar {
      var level := s.bracketLevel - 1;
      if level < 0 {
        assert t.(bracketLevel := level) == s.(bracketLevel := level).Append(data);
      } else if level > 0 {
        var s' := s.(bracketLevel := level, charCount := c + 1);
        assert t.(bracketLevel := level, charCount := c + 1) == s'.Append(data);
        ScanAppendStopped(lib, s', data);
      } else {
        var frame := s.dataQueue[..c + 1];
        assert t.dataQueue[..c + 1] == frame;
        var parsed := lib.read(frame);
        if parsed.ok {
          var next := FramerState(s.dataQueue[c + 1..], s.parsedValuesQueue + [parsed.root], 0, 0);
          assert FramerState(t.dataQueue[c + 1..], s.parsedValuesQueue + [parsed.root], 0, 0) == next.Append(data);
          ScanAppendStopped(lib, next, data);
        } else {
          assert t.(bracketLevel := 0, charCount := c + 1) == s.(bracketLevel := 0, charCount := c + 1).Append(data);
        }
      }
    } else {
      var s' := s.(charCount := c + 1);
      assert t.(charCount := c + 1) == s'.Append(data);
      ScanAppendStopped(lib, s', data);
    }
  }

  /**
   * Chunking does not matter: pushing `a` and then `b` ends exactly where
   * pushing `a + b` at once does, with the same documents in the same
   * order; and if pushing `a` throws, pushing `a + b` throws an error of
   * the same kind after handing over the same documents.
   */
  lemma PushTwiceIsPushOnce(lib: JsonLib, s: FramerState, a: string, b: string)
    requires s.charCount <= |s.dataQueue|
    ensures var first := Push(lib, s, a);
      if first.error.None? then
        var second := Push(lib, first.state, b);
        Push(lib, s, a + b) == Scanned(second.state, first.frames + second.frames, second.error)
      else
        var once := Push(lib, s, a + b);
        && once.frames == first.frames
        && once.state == first.state.Append(b)
        && once.error.Some? && once.error.value.errorCode == first.error.value.errorCode
  {
    assert s.Append(a + b) == s.Append(a).Append(b);
    ScanAppend(lib, s.Append(a), b);
  }

  /** Pushing the chunks one after the other, stopping at the first that throws. */
  function PushEach(lib: JsonLib, s: FramerState, chunks: seq<string>): (r: Scanned)
    requires s.charCount <= |s.dataQueue|
    decreases |chunks|
  {
    if chunks == [] then Scanned(s, [], None)
    else
      var first := Push(lib, s, chunks[0]);
      if first.error.Some? then first
      else
        var rest := PushEach(lib, first.state, chunks[1..]);
        Scanned(rest.state, first.frames + rest.frames, rest.error)
  }

  /**
   * Any split of the same bytes into chunks yields the same documents and
   * the same final framer as pushing them all at once, when no push throws
   * and the framer starts with nothing left to scan.
   */
  lemma {:induction false} ChunkingIndependence(lib: JsonLib, s: FramerState, chunks: seq<string>)
    requires s.charCount == |s.dataQueue|
    requires PushEach(lib, s, chunks).error.None?
    ensures PushEach(lib, s, chunks) == Push(lib, s, Concat(chunks))
    decreases |chunks|
  {
    if chunks == [] {
      assert s.Append([]) == s;
    } else {
      var first := Push(lib, s, chunks[0]);
      ChunkingIndependence(lib, first.state, chunks[1..]);
      PushTwiceIsPushOnce(lib, s, chunks[0], Concat(chunks[1..]));
    }
  }

  /** Where a scan ends and what it throws, forgetting the documents it handed over. */
  ghost function Settle(lib: JsonLib, s: FramerState): Scanned
    requires s.charCount <= |s.dataQueue|
  {
    var r := Scan(lib, s);
    Scanned(r.state, [], r.error)
  }

  // One turn of the loop, one lemma per branch.

  lemma ScanHuge(lib: JsonLib, s: FramerState)
    requires s.charCount < |s.dataQueue| && s.charCount > LargestExpectedJson
    ensures Scan(lib, s) == Scanned(s, [], Some(HugeError()))
  {
  }

  lemma ScanOpening(lib: JsonLib, s: FramerState)
    requires s.charCount < |s.dataQueue| && s.charCount <= LargestExpectedJson
    requires s.dataQueue[s.charCount] == OpenChar
    ensures Scan(lib, s) == Scan(lib, s.(bracketLevel := s.bracketLevel + 1, charCount := s.charCount + 1))
  {
  }

  lemma ScanOther(lib: JsonLib, s: FramerState)
    requires s.charCount < |s.dataQueue| && s.charCount <= LargestExpectedJson
    requires s.dataQueue[s.charCount] != OpenChar && s.dataQueue[s.charCount] != CloseChar
    ensures Scan(lib, s) == Scan(lib, s.(charCount := s.charCount + 1))
  {
  }

  lemma ScanUnmatched(lib: JsonLib, s: FramerState)
    requires s.charCount < |s.dataQueue| && s.charCount <= LargestExpectedJson
    requires s.dataQueue[s.charCount] == CloseChar && s.bracketLevel - 1 < 0
    ensures Scan(lib, s) == Scanned(s.(bracketLevel := s.bracketLevel - 1), [], Some(ClosureError(s.dataQueue)))
  {
  }

  lemma ScanInnerClose(lib: JsonLib, s: FramerState)
    requires s.charCount < |s.dataQueue| && s.charCount <= LargestExpectedJson
    requires s.dataQueue[s.charCount] == CloseChar && s.bracketLevel - 1 > 0
    ensures Scan(lib, s) == Scan(lib, s.(bracketLevel := s.bracketLevel - 1, charCount := s.charCount + 1))
  {
  }

  lemma ScanBadFrame(lib: JsonLib, s: FramerState)
    requires s.charCount < |s.dataQueue| && s.charCount <= LargestExpectedJson
    requires s.dataQueue[s.charCount] == CloseChar && s.bracketLevel == 1
    requires !lib.read(s.dataQueue[..s.charCount + 1]).ok
    ensures Scan(lib, s) == Scanned(s.(bracketLevel := 0, charCount := s.charCount + 1), [], Some(ParseError(s.dataQueue[..s.charCount + 1])))
  {
  }

  lemma ScanFrame(lib: JsonLib, s: FramerState)
    requires s.charCount < |s.dataQueue| && s.charCount <= LargestExpectedJson
    requires s.dataQueue[s.charCount] == CloseChar && s.bracketLevel == 1
    requires lib.read(s.dataQueue[..s.charCount + 1]).ok
    ensures var frame := s.dataQueue[..s.charCount + 1];
      var rest := Scan(lib, FramerState(s.dataQueue[s.charCount + 1..], s.parsedValuesQueue + [lib.read(frame).root], 0, 0));
      Scan(lib, s) == Scanned(rest.state, [frame] + rest.frames, rest.error)
  {
  }

  // ---------------------------------------------------------------------
  // The scenarios of the framer's own test
  // ---------------------------------------------------------------------

  predicate NoBraces(w: string) {
    forall i :: 0 <= i < |w| ==> w[i] != OpenChar && w[i] != CloseChar
  }

  /** An empty buffer with nothing pending, holding the values queued so far. */
  function Idle(queue: seq<Json>): FramerState {
    FramerState([], queue, 0, 0)
  }

  /** Bytes other than braces only move the cursor. */
  lemma {:induction false} ScanSkipsPlainBytes(lib: JsonLib, s: FramerState, k: nat)
    requires s.charCount + k <= |s.dataQueue|
    requires s.charCount + k <= LargestExpectedJson + 1
    requires NoBraces(s.dataQueue[s.charCount..s.charCount + k])
    ensures Scan(lib, s) == Scan(lib, s.(charCount := s.charCount + k))
    decreases k
  {
    if k > 0 {
      var c := s.charCount;
      assert s.dataQueue[c] == s.dataQueue[c..c + k][0];
      var s' := s.(charCount := c + 1);
      assert s'.dataQueue[s'.charCount..s'.charCount + (k - 1)] == s.dataQueue[c..c + k][1..];
      ScanSkipsPlainBytes(lib, s', k - 1);
    }
  }

  /** A single brace-free object pushed into an idle framer is handed over whole, and the framer is idle again. */
  lemma OneDocument(lib: JsonLib, queue: seq<Json>, w: string)
    requires NoBraces(w) && |w| < LargestExpectedJson
    requires lib.read("{" + w + "}").ok
    ensures Push(lib, Idle(queue), "{" + w + "}")
      == Scanned(Idle(queue + [lib.read("{" + w + "}").root]), ["{" + w + "}"], None)
  {
    var d := "{" + w + "}";
    var v := lib.read(d).root;
    assert |d| == |w| + 2 && d[0] == OpenChar && d[|w| + 1] == CloseChar;
    assert d[1..1 + |w|] == w;
    assert d[..|w| + 2] == d && d[|w| + 2..] == [];
    var t := FramerState(d, queue, 0, 0);
    assert Idle(queue).Append(d) == t;
    ScanOpening(lib, t);
    var s1 := FramerState(d, queue, 1, 1);
    ScanSkipsPlainBytes(lib, s1, |w|);
    var s2 := FramerState(d, queue, 1 + |w|, 1);
    ScanFrame(lib, s2);
    var rest := Scan(lib, Idle(queue + [v]));
    assert rest == Scanned(Idle(queue + [v]), [], None);
    assert Scan(lib, s2) == Scanned(Idle(queue + [v]), [d], None);
  }

  /** The same object split before its closing brace is handed over once, after the second push. */
  lemma SplitDocument(lib: JsonLib, queue: seq<Json>, w: string)
    requires NoBraces(w) && |w| < LargestExpectedJson
    requires lib.read("{" + w + "}").ok
    ensures var first := Push(lib, Idle(queue), "{" + w);
      && first.error.None? && first.frames == []
      && Push(lib, first.state, "}")
         == Scanned(Idle(queue + [lib.read("{" + w + "}").root]), ["{" + w + "}"], None)
  {
    OneDocument(lib, queue, w);
    PushTwiceIsPushOnce(lib, Idle(queue), "{" + w, "}");
    var t := Idle(queue).Append("{" + w);
    var s1 := t.(bracketLevel := 1, charCount := 1);
    assert t.dataQueue[1..1 + |w|] == w;
    ScanSkipsPlainBytes(lib, s1, |w|);
  }

  /** Three objects in one push are three documents, in order. */
  lemma ThreeDocuments(lib: JsonLib, queue: seq<Json>, w: string)
    requires NoBraces(w) && |w| < LargestExpectedJson
    requires lib.read("{" + w + "}").ok
    ensures var d := "{" + w + "}";
      var v := lib.read(d).root;
      Push(lib, Idle(queue), d + d + d) == Scanned(Idle(queue + [v, v, v]), [d, d, d], None)
  {
    var d := "{" + w + "}";
    var v := lib.read(d).root;
    OneDocument(lib, queue, w);
    OneDocument(lib, queue + [v], w);
    OneDocument(lib, queue + [v, v], w);
    assert queue + [v] + [v] == queue + [v, v];
    assert queue + [v, v] + [v] == queue + [v, v, v];
    PushTwiceIsPushOnce(lib, Idle(queue + [v]), d, d);
    PushTwiceIsPushOnce(lib, Idle(queue), d, d + d);
    assert d + (d + d) == d + d + d;
  }

  /**
   * A '}' pushed into an idle framer throws `InvalidJsonStrClosure`, and so
   * does every push after it, whatever it holds.
   */
  lemma StrayClosingBrace(lib: JsonLib, queue: seq<Json>, later: string)
    ensures var first := Push(lib, Idle(queue), "}");
      && first.frames == []
      && first.error == Some(ClosureError("}"))
      && Stuck(first.state)
      && Push(lib, first.state, later).frames == []
      && Push(lib, first.state, later).error == Some(ClosureError("}" + later))
  {
    var first := Push(lib, Idle(queue), "}");
    assert Idle(queue).Append("}").dataQueue == "}";
    StuckStaysStuck(lib, first.state, later);
  }

  // ---------------------------------------------------------------------
  // The framer object
  // ---------------------------------------------------------------------

  class JsonStringParserQueue {
    /** The JSON reader `parseAndAppendJson` calls. */
    const lib: JsonLib
    var dataQueue: string
    var parsedValuesQueue: seq<Json>
    var charCount: nat
    var bracketLevel: int

    function State(): FramerState
      reads this
    {
      FramerState(dataQueue, parsedValuesQueue, charCount, bracketLevel)
    }

    ghost predicate Valid()
      reads this
    {
      Inv(State())
    }

    constructor (lib: JsonLib)
      ensures this.lib == lib
      ensures Valid() && State() == Fresh
    {
      this.lib := lib;
      dataQueue := [];
      parsedValuesQueue := [];
      charCount := 0;
      bracketLevel := 0;
    }

    /** Parses one complete slice and queues its value, or throws without queueing anything. */
    method ParseAndAppendJson(jsonStr: string) returns (err: Option<EtcdError>)
      modifies this`parsedValuesQueue
      ensures var parsed := lib.read(jsonStr);
        if parsed.ok then
          err.None? && parsedValuesQueue == old(parsedValuesQueue) + [parsed.root]
        else
          err == Some(ParseError(jsonStr)) && parsedValuesQueue == old(parsedValuesQueue)
    {
      var parsed := lib.read(jsonStr);
      if !parsed.ok {
        return Some(ParseError(jsonStr));
      }
      parsedValuesQueue := parsedValuesQueue + [parsed.root];
      err := None;
    }

    /**
     * Appends `data` and scans the bytes after the saved cursor; a thrown
     * error leaves the framer in the state it had reached.
     */
    method PushData(data: string) returns (err: Option<EtcdError>)
      requires Valid()
      modifies this
      ensures Valid()
      ensures var r := Push(lib, old(State()), data);
        State() == r.state && err == r.error
    {
      AppendKeepsInv(State(), data);
      ScanKeepsInv(lib, State().Append(data));
      dataQueue := dataQueue + data;
      err := ScanPending();
    }

    /** The `while` loop of `pushData`: scans from the cursor to the end of the buffer or to the first `throw`. */
    method ScanPending() returns (err: Option<EtcdError>)
      requires charCount <= |dataQueue|
      modifies this
      ensures var r := Scan(lib, old(State()));
        State() == r.state && err == r.error
    {
      ghost var target := Settle(lib, State());
      while charCount < |dataQueue|
        invariant charCount <= |dataQueue|
        invariant Settle(lib, State()) == target
        decreases |dataQueue| - charCount
      {
        ghost var before := State();
        if charCount > LargestExpectedJson {
          ScanHuge(lib, before);
          return Some(HugeError());
        }
        if dataQueue[charCount] == OpenChar {
          ScanOpening(lib, before);
          bracketLevel := bracketLevel + 1;
          charCount := charCount + 1;
          continue;
        } else if dataQueue[charCount] == CloseChar {
          var stop;
          stop, err := CloseBracket();
          if stop {
            return;
          }
          continue;
        } else {
          ScanOther(lib, before);
          charCount := charCount + 1;
        }
      }
      err := None;
    }

    /**
     * One turn of the loop at a '}': throws at an unmatched one; hands the
     * prefix to the reader and erases it at one that closes a document.
     */
    method CloseBracket() returns (stop: bool, err: Option<EtcdError>)
      requires charCount < |dataQueue| && charCount <= LargestExpectedJson
      requires dataQueue[charCount] == CloseChar
      modifies this
      ensures charCount <= |dataQueue|
      ensures stop ==> err.Some? && Settle(lib, old(State())) == Scanned(State(), [], err)
      ensures !stop ==> err.None? && Settle(lib, State()) == Settle(lib, old(State()))
      ensures !stop ==> |dataQueue| - charCount < old(|dataQueue| - charCount)
    {
      ghost var before := State();
      bracketLevel := bracketLevel - 1;
      if bracketLevel < 0 {
        ScanUnmatched(lib, before);
        return true, Some(ClosureError(dataQueue));
      }
      charCount := charCount + 1;
      if bracketLevel == 0 {
        var jsonStr := dataQueue[..charCount];
        err := ParseAndAppendJson(jsonStr);
        if err.Some? {
          ScanBadFrame(lib, before);
          return true, err;
        }
        ScanFrame(lib, before);
        dataQueue := dataQueue[charCount..];
        charCount := 0;
      } else {
        ScanInnerClose(lib, before);
      }
      stop, err := false, None;
    }

    /** Hands over every document queued since the last pull and leaves the queue empty. */
    method PullDataAndClear() returns (res: seq<Json>)
      requires Valid()
      modifies this`parsedValuesQueue
      ensures Valid()
      ensures res == old(parsedValuesQueue) && parsedValuesQueue == []
    {
      res := parsedValuesQueue;
      parsedValuesQueue := [];
    }

    /** Drops the buffer and the queued documents and resets cursor and level. */
    method Clear()
      modifies this
      ensures Valid() && State() == Fresh
    {
      dataQueue := [];
      parsedValuesQueue := [];
      charCount := 0;
      bracketLevel := 0;
    }
  }
}
