/** Readers of the robot-state log that run while the control loop keeps appending to it
    (GetRobotState, GetRobotStateLog and GetRobotStateStream). The states that arrive before each
    buffer read are an input, so every interleaving of one reader with the writer is covered. */
module StateLogs {
  import opened Wrappers
  import opened CircularBuffers

  predicate IsInt32(i: int) {
    -0x8000_0000 <= i <= 0x7FFF_FFFF
  }

  /** Conversion of a 32-bit signed number to the unsigned type. */
  function ToUint(i: int): nat
    requires IsInt32(i)
  {
    if i < 0 then i + 0x1_0000_0000 else i
  }

  function ToInt(u: nat): int {
    if u <= 0x7FFF_FFFF then u else u - 0x1_0000_0000
  }

  /** Unsigned 32-bit increment. */
  function Increment(u: nat): nat {
    if u == 0xFFFF_FFFF then 0 else u + 1
  }

  /** The history after the first `k` batches have been appended to `h`. */
  ghost function Grown<T>(h: seq<T>, batches: seq<seq<T>>, k: nat): seq<T>
    requires k <= |batches|
  {
    if k == 0 then h else Grown(h, batches, k - 1) + batches[k - 1]
  }

  lemma {:induction false} GrownIsPrefix<T>(h: seq<T>, batches: seq<seq<T>>, j: nat, k: nat)
    requires j <= k <= |batches|
    ensures Grown(h, batches, j) <= Grown(h, batches, k)
    decreases k
  {
    if j == k {
    } else {
      GrownIsPrefix(h, batches, j, k - 1);
    }
  }

  /** What one buffer read at `i` contributes to the output. */
  ghost function Read<T>(h: seq<T>, i: int, cap: nat): seq<T> {
    if Retained(i, |h|, cap) then [h[i]] else []
  }

  method Deliver<T(0)>(buffer: CircularBuffer<T>, batch: seq<T>)
    requires buffer.Valid()
    modifies buffer, buffer.elems
    ensures buffer.Valid() && buffer.history == old(buffer.history) + batch
  {
    for k := 0 to |batch|
      invariant buffer.Valid() && buffer.history == old(buffer.history) + batch[..k]
    {
      buffer.Append(batch[k]);
    }
    assert batch == batch[..|batch|];
  }

  method GetRobotState<T(0)>(buffer: CircularBuffer<T>) returns (r: Option<T>)
    requires buffer.Valid()
    ensures r == if buffer.history == [] then None else Some(buffer.history[|buffer.history| - 1])
  {
    var n := buffer.Size();
    if n == 0 {
      return None;
    }
    r := buffer.Get(n - 1);
  }

  // ----- Log retrieval -----

  /** The last index of a request on a log of `size` entries; -1 stands for the latest entry. */
  function EndIndex(end: int, size: nat): nat
    requires IsInt32(end) && size <= 0x7FFF_FFFF
  {
    if end == -1 then ToUint(size - 1) else ToUint(end)
  }

  /** The unsigned loop counter after `k` passes. */
  ghost function LogCursor(start: nat, k: nat): nat {
    if k == 0 then start else Increment(LogCursor(start, k - 1))
  }

  /** Everything written in the first `k` passes; the counter is handed to the buffer as a signed number. */
  ghost function LogWritten<T>(h: seq<T>, batches: seq<seq<T>>, start: nat, cap: nat, k: nat): seq<T>
    requires k <= |batches|
  {
    if k == 0 then []
    else LogWritten(h, batches, start, cap, k - 1)
         + Read(Grown(h, batches, k), ToInt(LogCursor(start, k - 1)), cap)
  }

  /** One element of `arrivals` per pass; running out of them is a cancelled request. */
  method GetRobotStateLog<T(0)>(buffer: CircularBuffer<T>, start: int, end: int, arrivals: seq<seq<T>>)
    returns (written: seq<T>, passes: nat)
    requires buffer.Valid() && IsInt32(start) && IsInt32(end)
    requires |buffer.history| <= 0x7FFF_FFFF
    modifies buffer, buffer.elems
    ensures buffer.Valid() && passes <= |arrivals|
    ensures buffer.history == Grown(old(buffer.history), arrivals, passes)
    ensures written == LogWritten(old(buffer.history), arrivals, ToUint(start), buffer.elems.Length, passes)
    ensures var last := EndIndex(end, |old(buffer.history)|);
            && (forall k :: 0 <= k < passes ==> LogCursor(ToUint(start), k) <= last)
            && (passes < |arrivals| ==> LogCursor(ToUint(start), passes) > last)
    ensures RightPasses(start, end, |old(buffer.history)|, |arrivals|, passes)
    ensures Quiet(arrivals) && |arrivals| >= |old(buffer.history)| ==>
              RightLog(old(buffer.history), start, end, buffer.elems.Length, written)
  {
    ghost var h, cap := buffer.history, buffer.elems.Length;
    var size := buffer.Size();
    var last := EndIndex(end, size);
    var i := ToUint(start);
    passes := 0;
    written := [];
    while i <= last && passes < |arrivals|
      invariant buffer.Valid() && passes <= |arrivals|
      invariant buffer.history == Grown(old(buffer.history), arrivals, passes)
      invariant i == LogCursor(ToUint(start), passes)
      invariant forall k :: 0 <= k < passes ==> LogCursor(ToUint(start), k) <= last
      invariant written == LogWritten(old(buffer.history), arrivals, ToUint(start), buffer.elems.Length, passes)
      decreases |arrivals| - passes
    {
      Deliver(buffer, arrivals[passes]);
      var x := buffer.Get(ToInt(i));
      if x.Some? {
        written := written + [x.value];
      }
      i := Increment(i);
      passes := passes + 1;
    }
    CountPasses(start, end, |h|, |arrivals|, passes);
    QuietRequest(h, start, end, arrivals, cap, passes);
  }

  /** Nothing is appended. */
  ghost predicate Quiet<T>(arrivals: seq<seq<T>>) {
    forall j :: 0 <= j < |arrivals| ==> |arrivals[j]| == 0
  }

  /** How many entries a request asks for, one at each pass, unless it is cancelled first. A negative start lies
      behind every log. A negative end other than -1 lies there too, and such a request runs past the latest entry. */
  predicate RightPasses(start: int, end: int, size: nat, available: nat, passes: nat) {
    && passes <= available
    && (end == -1 && size == 0 ==> passes == available)
    && (end == -1 && size > 0 ==> passes == Min(available, if start < 0 then 0 else Max(0, size - start)))
    && (end >= 0 ==> passes == Min(available, if start < 0 then 0 else Max(0, end + 1 - start)))
    && (end < -1 ==> passes == Min(available, Max(0, end + 1 - start + if start < 0 then 0 else 0x1_0000_0000)))
  }

  /** What a request on a log nobody is writing to must write: the latest entry and those before it down to `start`,
      or those from `start` to `end`, as far as the buffer still holds them. */
  ghost predicate RightLog<T>(h: seq<T>, start: int, end: int, cap: nat, written: seq<T>) {
    && (start < 0 ==> written == [])
    && (0 <= start < |h| && end == -1 ==> written == h[Max(start, |h| - cap)..])
    && (0 <= start <= end < |h| ==>
          written == if Max(start, |h| - cap) <= end then h[Max(start, |h| - cap)..end + 1] else [])
    && (start >= |h| || 0 <= end < start ==> written == [])
    && (0 <= start < |h| && (end < -1 || end >= |h|) ==> written == h[Max(start, |h| - cap)..])
  }

  lemma {:induction false} CursorInOrder(start: nat, k: nat)
    requires start + k <= 0xFFFF_FFFF
    ensures LogCursor(start, k) == start + k
  {
    if k == 0 {
    } else {
      CursorInOrder(start, k - 1);
    }
  }

  lemma {:induction false} CursorIsUint(start: nat, k: nat)
    requires start <= 0xFFFF_FFFF
    ensures LogCursor(start, k) <= 0xFFFF_FFFF
  {
    if k == 0 {
    } else {
      CursorIsUint(start, k - 1);
    }
  }

  /** An uncancelled request ends by itself whatever its bounds are, except for the request "until the
      latest" on an empty log: that one runs until it is cancelled. */
  lemma {:induction false} LogRequestEnds(start: int, end: int, size: nat)
    requires IsInt32(start) && IsInt32(end) && size <= 0x7FFF_FFFF
    ensures (exists k: nat :: LogCursor(ToUint(start), k) > EndIndex(end, size)) <==> !(end == -1 && size == 0)
  {
    var i, last := ToUint(start), EndIndex(end, size);
    if end == -1 && size == 0 {
      forall k: nat ensures LogCursor(i, k) <= last {
        CursorIsUint(i, k);
      }
    } else {
      var k: nat := if i > last then 0 else last + 1 - i;
      CursorInOrder(i, k);
      assert LogCursor(i, k) > last;
    }
  }

  /** The part of h[start..stop] that a buffer of capacity `cap` still holds. */
  ghost function RetainedSlice<T>(h: seq<T>, start: nat, stop: nat, cap: nat): seq<T> {
    var lo := Max(start, |h| - cap);
    var hi := Min(stop, |h|);
    if lo <= hi then h[lo..hi] else []
  }

  lemma SliceStep<T>(h: seq<T>, start: nat, stop: nat, cap: nat)
    requires start <= stop
    ensures RetainedSlice(h, start, stop + 1, cap) == RetainedSlice(h, start, stop, cap) + Read(h, stop, cap)
  {
    var lo := Max(start, |h| - cap);
    if lo <= stop < |h| {
      assert h[lo..stop + 1] == h[lo..stop] + [h[stop]];
    }
  }

  /** The conversion of the counter makes no difference: beyond the signed range nothing is stored either way. */
  lemma SignedRead<T>(h: seq<T>, u: nat, cap: nat)
    requires u <= 0xFFFF_FFFF && |h| <= 0x7FFF_FFFF
    ensures Read(h, ToInt(u), cap) == Read(h, u, cap)
  {
  }

  lemma {:induction false} QuietGrown<T>(h: seq<T>, batches: seq<seq<T>>, k: nat)
    requires k <= |batches| && forall j :: 0 <= j < k ==> |batches[j]| == 0
    ensures Grown(h, batches, k) == h
  {
    if k == 0 {
    } else {
      QuietGrown(h, batches, k - 1);
      assert h + batches[k - 1] == h;
    }
  }

  /** What reading the indices from `start` to `stop` one by one contributes. */
  ghost function ReadEach<T>(h: seq<T>, start: nat, stop: nat, cap: nat): seq<T> {
    if stop <= start then [] else ReadEach(h, start, stop - 1, cap) + Read(h, stop - 1, cap)
  }

  lemma {:induction false} ReadEachIsSlice<T>(h: seq<T>, start: nat, stop: nat, cap: nat)
    requires start <= stop
    ensures ReadEach(h, start, stop, cap) == RetainedSlice(h, start, stop, cap)
  {
    if stop == start {
      assert RetainedSlice(h, start, start, cap) == [];
    } else {
      ReadEachIsSlice(h, start, stop - 1, cap);
      SliceStep(h, start, stop - 1, cap);
    }
  }

  lemma {:induction false} QuietPassesRead<T>(h: seq<T>, batches: seq<seq<T>>, start: nat, cap: nat, k: nat)
    requires k <= |batches| && start + k <= 0xFFFF_FFFF && |h| <= 0x7FFF_FFFF
    requires forall j :: 0 <= j < k ==> |batches[j]| == 0
    ensures LogWritten(h, batches, start, cap, k) == ReadEach(h, start, start + k, cap)
  {
    if k == 0 {
    } else {
      QuietPassesRead(h, batches, start, cap, k - 1);
      QuietPass(h, batches, start, start + (k - 1), cap, k - 1);
    }
  }

  lemma QuietPass<T>(h: seq<T>, batches: seq<seq<T>>, start: nat, i: nat, cap: nat, k: nat)
    requires k < |batches| && i == start + k < 0xFFFF_FFFF && |h| <= 0x7FFF_FFFF
    requires forall j :: 0 <= j <= k ==> |batches[j]| == 0
    ensures LogWritten(h, batches, start, cap, k + 1) == LogWritten(h, batches, start, cap, k) + Read(h, i, cap)
  {
    QuietGrown(h, batches, k + 1);
    CursorInOrder(start, k);
    SignedRead(h, i, cap);
  }

  /** On a log nobody is writing to, the first `k` passes write exactly what is retained of
      history[start..start+k], in order; k = last - start + 1 is the whole request. */
  lemma LogIsRetainedSlice<T>(h: seq<T>, batches: seq<seq<T>>, start: nat, cap: nat, k: nat)
    requires k <= |batches| && start + k <= 0xFFFF_FFFF && |h| <= 0x7FFF_FFFF
    requires forall j :: 0 <= j < k ==> |batches[j]| == 0
    ensures LogWritten(h, batches, start, cap, k) == RetainedSlice(h, start, start + k, cap)
  {
    QuietPassesRead(h, batches, start, cap, k);
    ReadEachIsSlice(h, start, start + k, cap);
  }

  /** A request makes as many passes as there are indices from `start` to `last`. */
  lemma PassesAre(start: nat, last: nat, passes: nat, available: nat)
    requires last < 0xFFFF_FFFF && passes <= available
    requires forall k :: 0 <= k < passes ==> LogCursor(start, k) <= last
    requires passes < available ==> LogCursor(start, passes) > last
    ensures passes == Min(available, Max(0, last + 1 - start))
  {
    assert LogCursor(start, 0) == start;
    var n := last + 1 - start;
    if start <= last && n <= available {
      CursorInOrder(start, n);
      if passes < n {
        CursorInOrder(start, passes);
      }
    } else if start <= last && passes < available {
      CursorInOrder(start, passes);
    }
  }

  /** The number of passes follows from when GetRobotStateLog stops. */
  lemma CountPasses(start: int, end: int, size: nat, available: nat, passes: nat)
    requires IsInt32(start) && IsInt32(end) && size <= 0x7FFF_FFFF && passes <= available
    requires forall k :: 0 <= k < passes ==> LogCursor(ToUint(start), k) <= EndIndex(end, size)
    requires passes < available ==> LogCursor(ToUint(start), passes) > EndIndex(end, size)
    ensures RightPasses(start, end, size, available, passes)
  {
    if end == -1 && size == 0 {
      CursorIsUint(ToUint(start), passes);
    } else {
      PassesAre(ToUint(start), EndIndex(end, size), passes, available);
    }
  }

  /** A request on a log nobody is writing to, stopping where GetRobotStateLog does and not cancelled before it has
      reached the latest entry, writes exactly what is retained of the entries asked for, in order. */
  lemma QuietRequest<T>(h: seq<T>, start: int, end: int, arrivals: seq<seq<T>>, cap: nat, passes: nat)
    requires |h| <= 0x7FFF_FFFF && IsInt32(start) && IsInt32(end)
    requires passes <= |arrivals|
    requires forall k :: 0 <= k < passes ==> LogCursor(ToUint(start), k) <= EndIndex(end, |h|)
    requires passes < |arrivals| ==> LogCursor(ToUint(start), passes) > EndIndex(end, |h|)
    ensures Quiet(arrivals) && |arrivals| >= |h| ==>
              RightLog(h, start, end, cap, LogWritten(h, arrivals, ToUint(start), cap, passes))
  {
    if !Quiet(arrivals) || |arrivals| < |h| {
    } else if h == [] {
      NothingWritten(h, arrivals, ToUint(start), cap, passes);
    } else {
      CountPasses(start, end, |h|, |arrivals|, passes);
      LogIsRetainedSlice(h, arrivals, ToUint(start), cap, passes);
      SliceIsRight(h, start, end, cap, |arrivals|, passes);
    }
  }

  lemma SliceIsRight<T>(h: seq<T>, start: int, end: int, cap: nat, available: nat, passes: nat)
    requires h != [] && |h| <= available && |h| <= 0x7FFF_FFFF && IsInt32(start) && IsInt32(end)
    requires RightPasses(start, end, |h|, available, passes)
    ensures RightLog(h, start, end, cap, RetainedSlice(h, ToUint(start), ToUint(start) + passes, cap))
  {
  }

  lemma {:induction false} NothingWritten<T>(h: seq<T>, batches: seq<seq<T>>, start: nat, cap: nat, k: nat)
    requires |h| == 0 && k <= |batches| && Quiet(batches)
    ensures LogWritten(h, batches, start, cap, k) == []
  {
    if k == 0 {
    } else {
      NothingWritten(h, batches, start, cap, k - 1);
      NothingRead(h, batches, k, ToInt(LogCursor(start, k - 1)), cap);
    }
  }

  lemma NothingRead<T>(h: seq<T>, batches: seq<seq<T>>, k: nat, i: int, cap: nat)
    requires |h| == 0 && k <= |batches| && Quiet(batches)
    ensures Read(Grown(h, batches, k), i, cap) == []
  {
    QuietGrown(h, batches, k);
  }

  /** While the control loop keeps appending, a request for existing entries is still served completely
      provided the first of them has not been overwritten by the time of the last read. */
  lemma {:induction false} LogSurvivesAppends<T>(h: seq<T>, batches: seq<seq<T>>, start: nat, cap: nat, k: nat)
    requires k <= |batches| && start + k <= |h| <= 0x7FFF_FFFF
    requires |Grown(h, batches, k)| - start <= cap
    ensures LogWritten(h, batches, start, cap, k) == h[start..start + k]
  {
    if k == 0 {
    } else {
      var last := start + (k - 1);
      GrownIsPrefix(h, batches, k - 1, k);
      GrownIsPrefix(h, batches, 0, k);
      LogSurvivesAppends(h, batches, start, cap, k - 1);
      CursorInOrder(start, k - 1);
      ReadNext(h, Grown(h, batches, k), start, last, cap);
    }
  }

  lemma ReadNext<T>(h: seq<T>, g: seq<T>, start: nat, last: nat, cap: nat)
    requires h <= g && start <= last < |h| && |g| - last <= cap
    ensures h[start..last + 1] == h[start..last] + Read(g, last, cap)
  {
  }

  function Max(a: int, b: int): int { if a >= b then a else b }

  function Min(a: int, b: int): int { if a <= b then a else b }

  // ----- Live stream -----

  /** The stream's next index after `k` passes; it subscribes at the current end of the log. */
  ghost function StreamCursor<T>(h: seq<T>, batches: seq<seq<T>>, k: nat): nat
    requires k <= |batches|
  {
    if k == 0 then |h|
    else
      var i := StreamCursor(h, batches, k - 1);
      if i >= |Grown(h, batches, k)| then i else i + 1
  }

  /** The log indices written in the first `k` passes. */
  ghost function StreamIndices<T>(h: seq<T>, batches: seq<seq<T>>, cap: nat, k: nat): seq<nat>
    requires k <= |batches|
  {
    if k == 0 then []
    else
      var i := StreamCursor(h, batches, k - 1);
      StreamIndices(h, batches, cap, k - 1)
      + if Retained(i, |Grown(h, batches, k)|, cap) then [i] else []
  }

  ghost function StreamWritten<T>(h: seq<T>, batches: seq<seq<T>>, cap: nat, k: nat): seq<T>
    requires k <= |batches|
  {
    if k == 0 then []
    else
      StreamWritten(h, batches, cap, k - 1)
      + Read(Grown(h, batches, k), StreamCursor(h, batches, k - 1), cap)
  }

  /** One element of `arrivals` per pass of the loop; the request is cancelled after the last one. */
  method GetRobotStateStream<T(0)>(buffer: CircularBuffer<T>, arrivals: seq<seq<T>>)
    returns (written: seq<T>)
    requires buffer.Valid()
    modifies buffer, buffer.elems
    ensures buffer.Valid() && buffer.history == Grown(old(buffer.history), arrivals, |arrivals|)
    ensures written == StreamWritten(old(buffer.history), arrivals, buffer.elems.Length, |arrivals|)
    ensures Settled(old(buffer.history), arrivals, buffer.elems.Length) ==>
              buffer.history == old(buffer.history) + written
  {
    StreamComplete(buffer.history, arrivals, buffer.elems.Length);
    var i: nat := buffer.Size();
    var k := 0;
    written := [];
    while k < |arrivals|
      invariant buffer.Valid() && 0 <= k <= |arrivals|
      invariant buffer.history == Grown(old(buffer.history), arrivals, k)
      invariant i == StreamCursor(old(buffer.history), arrivals, k)
      invariant written == StreamWritten(old(buffer.history), arrivals, buffer.elems.Length, k)
    {
      Deliver(buffer, arrivals[k]);
      var size := buffer.Size();
      if i < size {
        var x := buffer.Get(i);
        if x.Some? {
          written := written + [x.value];
        }
        i := i + 1;
      }
      k := k + 1;
    }
  }

  /** Entries written at increasing indices from `n` up to the cursor `c`. */
  ghost predicate InOrder<T>(n: nat, c: nat, r: seq<nat>, w: seq<T>, g: seq<T>) {
    && n <= c <= |g| && |w| == |r|
    && (forall j :: 0 <= j < |r| ==> n <= r[j] < c && w[j] == g[r[j]])
    && forall i, j :: 0 <= i < j < |r| ==> r[i] < r[j]
  }

  /** The stream writes entries of the history at strictly increasing indices from the subscription
      point on, never at or beyond its cursor. */
  lemma {:induction false} StreamIncreases<T>(h: seq<T>, batches: seq<seq<T>>, cap: nat, k: nat)
    requires k <= |batches|
    ensures InOrder(
      |h|, StreamCursor(h, batches, k), StreamIndices(h, batches, cap, k), StreamWritten(h, batches, cap, k),
      Grown(h, batches, k))
  {
    if k == 0 {
    } else {
      StreamIncreases(h, batches, cap, k - 1);
      GrownIsPrefix(h, batches, k - 1, k);
      IndicesGrow(
        |h|, StreamCursor(h, batches, k - 1), StreamIndices(h, batches, cap, k - 1),
        StreamWritten(h, batches, cap, k - 1), Grown(h, batches, k - 1), Grown(h, batches, k), cap);
    }
  }

  lemma IndicesGrow<T>(n: nat, c: nat, r: seq<nat>, w: seq<T>, before: seq<T>, g: seq<T>, cap: nat)
    requires before <= g && InOrder(n, c, r, w, before)
    ensures InOrder(
      n, if c >= |g| then c else c + 1, r + if Retained(c, |g|, cap) then [c] else [], w + Read(g, c, cap), g)
  {
  }

  /** Before each of the first `k` reads the reader was at most `cap` entries behind the writer. */
  ghost predicate LagWithin<T>(h: seq<T>, batches: seq<seq<T>>, cap: nat, k: nat)
    requires k <= |batches|
  {
    forall j :: 0 <= j < k ==> |Grown(h, batches, j + 1)| - StreamCursor(h, batches, j) <= cap
  }

  lemma LagBefore<T>(h: seq<T>, batches: seq<seq<T>>, cap: nat, k: nat)
    requires 0 < k <= |batches|
    ensures LagWithin(h, batches, cap, k) <==>
              LagWithin(h, batches, cap, k - 1) && |Grown(h, batches, k)| - StreamCursor(h, batches, k - 1) <= cap
  {
  }

  /** The stream has no gap up to its cursor exactly when it never fell more than a full buffer behind. */
  lemma {:induction false} StreamMissesNone<T>(h: seq<T>, batches: seq<seq<T>>, cap: nat, k: nat)
    requires k <= |batches|
    ensures |StreamIndices(h, batches, cap, k)| <= StreamCursor(h, batches, k) - |h|
    ensures |StreamIndices(h, batches, cap, k)| == StreamCursor(h, batches, k) - |h| <==> LagWithin(h, batches, cap, k)
  {
    if k == 0 {
    } else {
      StreamMissesNone(h, batches, cap, k - 1);
      LagBefore(h, batches, cap, k);
    }
  }

  /** `w` is the part of `g` from index `n` up to index `c`. */
  ghost predicate IsSlice<T>(n: nat, c: nat, w: seq<T>, g: seq<T>) {
    n + |w| == c <= |g| && forall j :: 0 <= j < |w| ==> w[j] == g[n + j]
  }

  /** Without gaps, the stream is the slice of the history from the subscription point to the cursor. */
  lemma {:induction false} StreamIsSlice<T>(h: seq<T>, batches: seq<seq<T>>, cap: nat, k: nat)
    requires k <= |batches| && LagWithin(h, batches, cap, k)
    ensures IsSlice(|h|, StreamCursor(h, batches, k), StreamWritten(h, batches, cap, k), Grown(h, batches, k))
  {
    if k == 0 {
    } else {
      LagBefore(h, batches, cap, k);
      StreamIsSlice(h, batches, cap, k - 1);
      GrownIsPrefix(h, batches, k - 1, k);
      SliceGrows(
        |h|, StreamCursor(h, batches, k - 1), StreamWritten(h, batches, cap, k - 1),
        Grown(h, batches, k - 1), Grown(h, batches, k), cap);
    }
  }

  /** No more arrives than the buffer holds, and after the last arrival there are enough passes to read it all. */
  ghost predicate Settled<T>(h: seq<T>, batches: seq<seq<T>>, cap: nat) {
    var n := |Grown(h, batches, |batches|)| - |h|;
    && n <= cap && n <= |batches|
    && forall j :: |batches| - n <= j < |batches| ==> |batches[j]| == 0
  }

  /** In `m` passes without arrivals the stream advances by `m` entries or to the end of the log. */
  lemma {:induction false} StreamAdvances<T>(h: seq<T>, batches: seq<seq<T>>, k: nat, m: nat)
    requires k + m <= |batches| && forall j :: k <= j < k + m ==> |batches[j]| == 0
    ensures |Grown(h, batches, k + m)| == |Grown(h, batches, k)|
    ensures StreamCursor(h, batches, k + m)
              == StreamCursor(h, batches, k) + Min(m, Max(0, |Grown(h, batches, k)| - StreamCursor(h, batches, k)))
    decreases m
  {
    if m == 0 {
    } else {
      StreamAdvances(h, batches, k, m - 1);
    }
  }

  /** A stream that is given time to catch up writes everything that has arrived, in order. */
  lemma StreamComplete<T>(h: seq<T>, batches: seq<seq<T>>, cap: nat)
    ensures Settled(h, batches, cap) ==>
              Grown(h, batches, |batches|) == h + StreamWritten(h, batches, cap, |batches|)
  {
    if Settled(h, batches, cap) {
      var g := Grown(h, batches, |batches|);
      GrownIsPrefix(h, batches, 0, |batches|);
      SettledCursor(h, batches, cap, |g| - |h|);
      SmallLag(h, batches, cap);
      StreamIsSlice(h, batches, cap, |batches|);
      SliceIsRest(h, g, StreamWritten(h, batches, cap, |batches|));
    }
  }

  lemma SettledCursor<T>(h: seq<T>, batches: seq<seq<T>>, cap: nat, n: nat)
    requires Settled(h, batches, cap) && n == |Grown(h, batches, |batches|)| - |h|
    ensures StreamCursor(h, batches, |batches|) == |Grown(h, batches, |batches|)|
  {
    StreamAdvances(h, batches, |batches| - n, n);
    StreamIncreases(h, batches, cap, |batches| - n);
  }

  lemma SliceIsRest<T>(h: seq<T>, g: seq<T>, w: seq<T>)
    requires h <= g && IsSlice(|h|, |g|, w, g)
    ensures g == h + w
  {
  }

  lemma SmallLag<T>(h: seq<T>, batches: seq<seq<T>>, cap: nat)
    requires |Grown(h, batches, |batches|)| - |h| <= cap
    ensures LagWithin(h, batches, cap, |batches|)
  {
    forall j | 0 <= j < |batches| ensures |Grown(h, batches, j + 1)| - StreamCursor(h, batches, j) <= cap {
      GrownIsPrefix(h, batches, j + 1, |batches|);
      StreamIncreases(h, batches, cap, j);
    }
  }

  lemma SliceGrows<T>(n: nat, c: nat, w: seq<T>, before: seq<T>, g: seq<T>, cap: nat)
    requires IsSlice(n, c, w, before) && before <= g && |g| - c <= cap
    ensures IsSlice(n, if c >= |g| then c else c + 1, w + Read(g, c, cap), g)
  {
  }
}
