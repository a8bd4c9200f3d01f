/** Where a strided converter reads: offsets into the concatenation of a list of buffers, of which
    only the sizes matter. `leap` is the distance between two reads. */
module Striding {

  function Total(ns: seq<nat>): nat {
    if ns == [] then 0 else Total(ns[..|ns|-1]) + ns[|ns|-1]
  }

  /** How many reads a buffer of n bytes gets, and by how much the last leap overshoots its end. */
  function Steps(n: nat, leap: nat): nat
    requires leap > 0
  {
    (n + leap - 1) / leap
  }

  function Pad(n: nat, leap: nat): (p: nat)
    requires leap > 0
    ensures p < leap && Steps(n, leap) * leap == n + p
  {
    StepsSpan(n, leap);
    Steps(n, leap) * leap - n
  }

  lemma StepsSpan(n: nat, leap: nat)
    requires leap > 0
    ensures n <= Steps(n, leap) * leap < n + leap
  {
    var q := (n + leap - 1) / leap;
    assert n + leap - 1 == q * leap + (n + leap - 1) % leap;
  }

  lemma StepsUnique(n: nat, leap: nat, c: nat, p: nat)
    requires leap > 0 && c * leap == n + p && p < leap
    ensures c == Steps(n, leap) && p == Pad(n, leap)
  {
    var d := Steps(n, leap);
    StepsSpan(n, leap);
    if c < d { MulStep(c, d, leap); }
    if d < c { MulStep(d, c, leap); }
  }

  lemma MulStep(a: nat, b: nat, leap: nat)
    requires a < b
    ensures a * leap + leap <= b * leap
  {
    assert b * leap == (b - a) * leap + a * leap;
    assert (b - a) * leap >= leap by { if b - a > 1 { assert (b - a) * leap == (b - a - 1) * leap + leap; } }
  }

  lemma JoinCount(a: nat, b: nat, leap: nat, x: nat, y: nat)
    requires a * leap == x && b * leap == y
    ensures (a + b) * leap == x + y
  {}

  function Run(start: nat, count: nat, leap: nat): seq<nat> {
    seq(count, k requires k >= 0 => start + k * leap)
  }

  lemma RunJoin(start: nat, a: nat, b: nat, leap: nat)
    ensures Run(start, a, leap) + Run(start + a * leap, b, leap) == Run(start, a + b, leap)
  {
    forall k | 0 <= k < b ensures start + a * leap + k * leap == start + (a + k) * leap {
      assert (a + k) * leap == a * leap + k * leap;
    }
  }

  /** The simple form: every leap bytes of one uninterrupted stream of n bytes. */
  function FlatOffsets(n: nat, leap: nat): seq<nat>
    requires leap > 0
  {
    Run(0, Steps(n, leap), leap)
  }

  // ----- the code: the carry moves the pointer but not the remaining count -----

  function Carry(ns: seq<nat>, leap: nat): nat
    requires leap > 0
  {
    if ns == [] then 0 else Pad(ns[|ns|-1], leap)
  }

  function CodeOffsets(ns: seq<nat>, leap: nat): seq<nat>
    requires leap > 0
  {
    if ns == [] then []
    else var init := ns[..|ns|-1];
      CodeOffsets(init, leap) + Run(Total(init) + Carry(init, leap), Steps(ns[|ns|-1], leap), leap)
  }

  function PadSum(ns: seq<nat>, leap: nat): nat
    requires leap > 0
  {
    if ns == [] then 0 else PadSum(ns[..|ns|-1], leap) + Pad(ns[|ns|-1], leap)
  }

  lemma {:induction false} CodeCount(ns: seq<nat>, leap: nat)
    requires leap > 0
    ensures |CodeOffsets(ns, leap)| * leap == Total(ns) + PadSum(ns, leap)
  {
    if ns != [] {
      var init, n := ns[..|ns|-1], ns[|ns|-1];
      CodeCount(init, leap);
      JoinCount(|CodeOffsets(init, leap)|, Steps(n, leap), leap, Total(init) + PadSum(init, leap), n + Pad(n, leap));
    }
  }

  predicate Multiples(ns: seq<nat>, leap: nat)
    requires leap > 0
  {
    forall i :: 0 <= i < |ns| ==> ns[i] % leap == 0
  }

  lemma MultipleHasNoPad(n: nat, leap: nat)
    requires leap > 0
    ensures n % leap == 0 <==> Pad(n, leap) == 0
  {
    var q := n / leap;
    assert n == q * leap + n % leap;
    if n % leap == 0 {
      StepsUnique(n, leap, q, 0);
    } else {
      assert (q + 1) * leap == q * leap + leap;
      StepsUnique(n, leap, q + 1, leap - n % leap);
    }
  }

  lemma {:induction false} MultiplesHaveNoPad(ns: seq<nat>, leap: nat)
    requires leap > 0
    ensures Multiples(ns, leap) <==> PadSum(ns, leap) == 0
  {
    if ns != [] {
      MultiplesHaveNoPad(ns[..|ns|-1], leap);
      MultipleHasNoPad(ns[|ns|-1], leap);
    }
  }

  /** Reading is in step with the flat form as long as every buffer but the last is whole leaps. */
  lemma {:induction false} InStep(ns: seq<nat>, leap: nat)
    requires leap > 0 && (ns == [] || Multiples(ns[..|ns|-1], leap))
    ensures CodeOffsets(ns, leap) == FlatOffsets(Total(ns), leap)
    ensures PadSum(ns, leap) == Carry(ns, leap) == Pad(Total(ns), leap)
  {
    if ns == [] {
      StepsUnique(0, leap, 0, 0);
    } else {
      var init, n := ns[..|ns|-1], ns[|ns|-1];
      InStep(init, leap);
      MultiplesHaveNoPad(init, leap);
      var t := Total(init);
      JoinFlat(t, n, leap);
      JoinCount(Steps(t, leap), Steps(n, leap), leap, t, n + Pad(n, leap));
      StepsUnique(t + n, leap, Steps(t, leap) + Steps(n, leap), Pad(n, leap));
    }
  }

  /** What a caller can check about the buffer sizes: ignoring empty buffers at the end, every
      buffer but the last two is whole leaps and the overshoots of those two stay below one leap. */
  predicate CarrySafe(ns: seq<nat>, leap: nat)
    requires leap > 0
  {
    ns == [] ||
    var init, n := ns[..|ns|-1], ns[|ns|-1];
    if n == 0 then CarrySafe(init, leap)
    else (init == [] || Multiples(init[..|init|-1], leap)) && Carry(init, leap) + Pad(n, leap) < leap
  }

  lemma EmptyBuffer(leap: nat)
    requires leap > 0
    ensures Steps(0, leap) == 0 && Pad(0, leap) == 0
  {
    StepsUnique(0, leap, 0, 0);
  }

  /** The code's reads are the flat reads exactly when the sizes are carry-safe. */
  lemma {:induction false} CodeIsFlatExactly(ns: seq<nat>, leap: nat)
    requires leap > 0
    ensures CodeOffsets(ns, leap) == FlatOffsets(Total(ns), leap) <==> CarrySafe(ns, leap)
  {
    EmptyBuffer(leap);
    if ns != [] {
      var init, n := ns[..|ns|-1], ns[|ns|-1];
      if n == 0 {
        CodeIsFlatExactly(init, leap);
        assert CodeOffsets(ns, leap) == CodeOffsets(init, leap);
      } else {
        if CarrySafe(ns, leap) { SafeIsFlat(ns, leap); }
        if CodeOffsets(ns, leap) == FlatOffsets(Total(ns), leap) { FlatIsSafe(ns, leap); }
      }
    }
  }

  lemma SafeIsFlat(ns: seq<nat>, leap: nat)
    requires leap > 0 && ns != [] && ns[|ns|-1] > 0 && CarrySafe(ns, leap)
    ensures CodeOffsets(ns, leap) == FlatOffsets(Total(ns), leap)
  {
    var init, n := ns[..|ns|-1], ns[|ns|-1];
    InStep(init, leap);
    JoinFlat(Total(init), n, leap);
  }

  /** Flat reads of a stream continue after its last leap, if the new overshoot leaves room. */
  lemma JoinFlat(t: nat, n: nat, leap: nat)
    requires leap > 0 && Pad(t, leap) + Pad(n, leap) < leap
    ensures FlatOffsets(t, leap) + Run(t + Pad(t, leap), Steps(n, leap), leap) == FlatOffsets(t + n, leap)
  {
    var a, b := Steps(t, leap), Steps(n, leap);
    JoinCount(a, b, leap, t + Pad(t, leap), n + Pad(n, leap));
    StepsUnique(t + n, leap, a + b, Pad(t, leap) + Pad(n, leap));
    RunJoin(0, a, b, leap);
  }

  lemma FlatIsSafe(ns: seq<nat>, leap: nat)
    requires leap > 0 && ns != [] && ns[|ns|-1] > 0
    requires CodeOffsets(ns, leap) == FlatOffsets(Total(ns), leap)
    ensures CarrySafe(ns, leap)
  {
    var init, n := ns[..|ns|-1], ns[|ns|-1];
    CodeCount(init, leap);
    CodeCount(ns, leap);
    var k := |CodeOffsets(init, leap)|;
    StepsSpan(n, leap);
    assert Steps(n, leap) > 0;
    var run := Run(Total(init) + Carry(init, leap), Steps(n, leap), leap);
    assert CodeOffsets(ns, leap)[k] == run[0] == Total(init) + Carry(init, leap);
    assert FlatOffsets(Total(ns), leap)[k] == k * leap;
    assert Carry(init, leap) == PadSum(init, leap);
    if init != [] { MultiplesHaveNoPad(init[..|init|-1], leap); }
    StepsSpan(Total(ns), leap);
    assert Total(ns) + PadSum(ns, leap) < Total(ns) + leap;
  }

  // ----- reads inside their buffers -----

  /** All reads of w bytes made for a buffer of n bytes, entered with the given carry, stay inside it. */
  predicate ReadsInside(carry: nat, n: nat, leap: nat, w: nat)
    requires leap > 0
  {
    forall k :: 0 <= k < Steps(n, leap) ==> carry + k * leap + w <= n
  }

  predicate AllReadsInside(ns: seq<nat>, leap: nat, w: nat)
    requires leap > 0
  {
    forall i :: 0 <= i < |ns| ==> ReadsInside(Carry(ns[..i], leap), ns[i], leap, w)
  }

  predicate FrameAligned(ns: seq<nat>, frame: nat)
    requires frame > 0
  {
    forall i :: 0 <= i < |ns| ==> ns[i] % frame == 0
  }

  lemma PadAligned(n: nat, frame: nat, ratio: nat)
    requires frame > 0 && ratio > 0 && n % frame == 0
    ensures frame * ratio > 0 && Pad(n, frame * ratio) % frame == 0
  {
    var leap := frame * ratio;
    assert leap > 0 by { if ratio > 1 { assert leap == frame * (ratio - 1) + frame; } }
    var q := n / frame;
    var c := Steps(n, leap) * ratio;
    assert Steps(n, leap) * leap == c * frame;
    assert n == q * frame;
    assert Pad(n, leap) == (c - q) * frame;
    MultipleMod(c - q, frame);
  }

  lemma MultipleMod(k: int, frame: nat)
    requires frame > 0
    ensures k * frame % frame == 0
  {
    var q := k * frame / frame;
    var r := k * frame % frame;
    assert (k - q) * frame == r;
    if k - q > 0 { MulStep(0, k - q, frame); }
    if k - q < 0 { MulStep(0, q - k, frame); }
  }

  /** A buffer is read within its bounds exactly when it is empty or the carry into it, its own overshoot
      and one read fit into a leap. This holds for all sizes, whole frames or not. */
  lemma ReadsInsideExactly(carry: nat, n: nat, leap: nat, w: nat)
    requires leap > 0
    ensures ReadsInside(carry, n, leap, w) <==> n == 0 || carry + Pad(n, leap) + w <= leap
  {
    var c, p := Steps(n, leap), Pad(n, leap);
    EmptyBuffer(leap);
    if n > 0 {
      StepsSpan(n, leap);
      AtLeastOne(c, leap, n);
      OneLess(c, leap);
      hide Steps, Pad;
      if carry + p + w <= leap {
        forall k | 0 <= k < c ensures carry + k * leap + w <= n {
          if k < c - 1 { MulStep(k, c - 1, leap); }
        }
      } else {
        assert !(carry + (c - 1) * leap + w <= n);
      }
    }
  }

  lemma AtLeastOne(c: nat, leap: nat, n: nat)
    requires c * leap >= n > 0
    ensures c > 0
  {}

  lemma OneLess(c: nat, leap: nat)
    requires c > 0
    ensures c * leap == (c - 1) * leap + leap
  {}

  /** The overshoot of each non-empty buffer, that of the buffer before it and one read fit into a leap. */
  predicate RoomForCarries(ns: seq<nat>, leap: nat, w: nat)
    requires leap > 0
  {
    forall i :: 0 <= i < |ns| ==> RoomAt(ns, i, leap, w)
  }

  predicate RoomAt(ns: seq<nat>, i: nat, leap: nat, w: nat)
    requires leap > 0 && i < |ns|
  {
    ns[i] == 0 || (if i == 0 then 0 else Pad(ns[i-1], leap)) + Pad(ns[i], leap) + w <= leap
  }

  lemma CarryIsPad(ns: seq<nat>, i: nat, leap: nat)
    requires leap > 0 && i < |ns|
    ensures Carry(ns[..i], leap) == if i == 0 then 0 else Pad(ns[i-1], leap)
  {
    if i > 0 { assert ns[..i][i-1] == ns[i-1]; }
  }

  /** For whole lists, of any sizes, that is exactly when the code keeps every read inside its own buffer. */
  lemma AllReadsInsideExactly(ns: seq<nat>, leap: nat, w: nat)
    requires leap > 0
    ensures AllReadsInside(ns, leap, w) <==> RoomForCarries(ns, leap, w)
  {
    hide Carry, Pad, ReadsInside;
    forall i | 0 <= i < |ns| ensures ReadsInside(Carry(ns[..i], leap), ns[i], leap, w) <==> RoomAt(ns, i, leap, w) {
      CarryIsPad(ns, i, leap);
      ReadsInsideExactly(Carry(ns[..i], leap), ns[i], leap, w);
    }
  }

  /** With whole frames and a read of at most one, the carry and the overshoot only need to stay below one
      leap. */
  lemma AlignedReadsInside(carry: nat, n: nat, frame: nat, ratio: nat, w: nat)
    requires frame > 0 && ratio > 0 && 0 < w <= frame && n % frame == 0 && carry % frame == 0
    ensures frame * ratio > 0
    ensures ReadsInside(carry, n, frame * ratio, w) <==> n == 0 || carry + Pad(n, frame * ratio) < frame * ratio
  {
    PadAligned(n, frame, ratio);
    var p := Pad(n, frame * ratio);
    hide Pad, ReadsInside;
    ReadsInsideExactly(carry, n, frame * ratio, w);
    if carry + p < frame * ratio { AlignedGap(carry, p, frame, ratio); }
  }

  lemma AlignedGap(carry: nat, p: nat, frame: nat, ratio: nat)
    requires frame > 0 && carry % frame == 0 && p % frame == 0 && carry + p < frame * ratio
    ensures carry + p + frame <= frame * ratio
  {
    var a := carry / frame + p / frame;
    assert carry + p == a * frame;
    assert ratio <= a ==> ratio * frame <= a * frame;
    MulStep(a, ratio, frame);
  }

  lemma RoomIfAligned(ns: seq<nat>, i: nat, frame: nat, ratio: nat, w: nat)
    requires frame > 0 && ratio > 0 && 0 < w <= frame && FrameAligned(ns, frame) && frame * ratio > 0 && i < |ns|
    requires (if i == 0 then 0 else Pad(ns[i-1], frame * ratio)) + Pad(ns[i], frame * ratio) < frame * ratio
    ensures RoomAt(ns, i, frame * ratio, w)
  {
    PadAligned(ns[i], frame, ratio);
    if i > 0 { PadAligned(ns[i-1], frame, ratio); }
    hide Pad;
    AlignedGap(if i == 0 then 0 else Pad(ns[i-1], frame * ratio), Pad(ns[i], frame * ratio), frame, ratio);
  }

  /** Before the last two buffers there is nothing to carry. */
  lemma SafePads(ns: seq<nat>, i: nat, leap: nat)
    requires leap > 0 && CarrySafe(ns, leap) && i < |ns| && ns[|ns|-1] != 0
    ensures (if i == 0 then 0 else Pad(ns[i-1], leap)) + Pad(ns[i], leap) < leap
  {
    var init := ns[..|ns|-1];
    if i < |init| {
      var whole := init[..|init|-1];
      if i > 0 { assert whole[i-1] == ns[i-1]; MultipleHasNoPad(ns[i-1], leap); }
      if i < |whole| { assert whole[i] == ns[i]; }
    } else if i > 0 {
      assert init[|init|-1] == ns[i-1];
    }
  }

  /** Frame-aligned sizes for which the reads are the flat reads also keep every read inside its own
      buffer. */
  lemma SafeReadsInside(ns: seq<nat>, frame: nat, ratio: nat, w: nat)
    requires frame > 0 && ratio > 0 && 0 < w <= frame && FrameAligned(ns, frame)
    requires frame * ratio > 0 && CarrySafe(ns, frame * ratio)
    ensures AllReadsInside(ns, frame * ratio, w)
  {
    hide AllReadsInside;
    SafeHasRoom(ns, frame, ratio, w);
    AllReadsInsideExactly(ns, frame * ratio, w);
  }

  lemma {:induction false} SafeHasRoom(ns: seq<nat>, frame: nat, ratio: nat, w: nat)
    requires frame > 0 && ratio > 0 && 0 < w <= frame && FrameAligned(ns, frame)
    requires frame * ratio > 0 && CarrySafe(ns, frame * ratio)
    ensures RoomForCarries(ns, frame * ratio, w)
  {
    if ns != [] {
      var leap, init := frame * ratio, ns[..|ns|-1];
      if ns[|ns|-1] == 0 {
        SafeHasRoom(init, frame, ratio, w);
        hide Pad, CarrySafe;
        forall i | 0 <= i < |ns| ensures RoomAt(ns, i, leap, w) {
          if i < |init| { assert RoomAt(init, i, leap, w); }
        }
      } else {
        hide RoomAt, Pad;
        forall i | 0 <= i < |ns| ensures RoomAt(ns, i, leap, w) {
          SafePads(ns, i, leap);
          RoomIfAligned(ns, i, frame, ratio, w);
        }
      }
    }
  }

  lemma {:induction false} TotalAligned(ns: seq<nat>, frame: nat)
    requires frame > 0 && FrameAligned(ns, frame)
    ensures Total(ns) % frame == 0
  {
    if ns != [] {
      TotalAligned(ns[..|ns|-1], frame);
      SumAligned(Total(ns[..|ns|-1]), ns[|ns|-1], frame);
    }
  }

  lemma SumAligned(a: nat, b: nat, frame: nat)
    requires frame > 0 && a % frame == 0 && b % frame == 0
    ensures (a + b) % frame == 0
  {
    WholeFrames(a, frame);
    WholeFrames(b, frame);
    JoinCount(a / frame, b / frame, frame, a, b);
    MultipleMod(a / frame + b / frame, frame);
  }

  lemma WholeFrames(a: nat, frame: nat)
    requires frame > 0 && a % frame == 0
    ensures a / frame * frame == a
  {}

  // ----- the intended rule: the carry is also deducted from the remaining count -----

  function StepsLeft(left: int, leap: nat): nat
    requires leap > 0
  {
    if left > 0 then Steps(left, leap) else 0
  }

  /** The carry left after all the buffers, when each starts with its size minus the carry to go. */
  function FixedCarry(ns: seq<nat>, leap: nat): nat
    requires leap > 0
  {
    if ns == [] then 0
    else var left := ns[|ns|-1] - FixedCarry(ns[..|ns|-1], leap);
      if left > 0 then Pad(left, leap) else -left
  }

  function FixedOffsets(ns: seq<nat>, leap: nat): seq<nat>
    requires leap > 0
  {
    if ns == [] then []
    else
      var init := ns[..|ns|-1];
      var c := FixedCarry(init, leap);
      FixedOffsets(init, leap) + Run(Total(init) + c, StepsLeft(ns[|ns|-1] - c, leap), leap)
  }

  /** With the rule of the source's comment the reads are the flat reads for every list of sizes,
      buffers shorter than the carry included; so only the total matters, not the split. */
  lemma {:induction false} FixedIsFlat(ns: seq<nat>, leap: nat)
    requires leap > 0
    ensures FixedOffsets(ns, leap) == FlatOffsets(Total(ns), leap)
    ensures FixedCarry(ns, leap) == Pad(Total(ns), leap)
  {
    EmptyBuffer(leap);
    if ns != [] {
      var init, n := ns[..|ns|-1], ns[|ns|-1];
      FixedIsFlat(init, leap);
      var t := Total(init);
      var c := Pad(t, leap);
      if n <= c {
        StepsUnique(t + n, leap, Steps(t, leap), c - n);
      } else {
        JoinCount(Steps(t, leap), Steps(n - c, leap), leap, t + c, n - c + Pad(n - c, leap));
        StepsUnique(t + n, leap, Steps(t, leap) + Steps(n - c, leap), Pad(n - c, leap));
        RunJoin(0, Steps(t, leap), Steps(n - c, leap), leap);
      }
    }
  }

  lemma SplitDoesNotMatter(ns: seq<nat>, ms: seq<nat>, leap: nat)
    requires leap > 0 && Total(ns) == Total(ms)
    ensures FixedOffsets(ns, leap) == FixedOffsets(ms, leap)
  {
    FixedIsFlat(ns, leap);
    FixedIsFlat(ms, leap);
  }

  /** Under that rule every read of a frame-aligned buffer also stays inside it. */
  lemma FixedReadsInside(carry: nat, n: nat, frame: nat, ratio: nat, w: nat)
    requires frame > 0 && ratio > 0 && 0 < w <= frame && n % frame == 0 && carry % frame == 0
    ensures frame * ratio > 0
    ensures forall k :: 0 <= k < StepsLeft(n - carry, frame * ratio) ==> carry + k * (frame * ratio) + w <= n
  {
    PadAligned(n, frame, ratio);
    if n > carry {
      assert n - carry == (n / frame - carry / frame) * frame;
      MultipleMod(n / frame - carry / frame, frame);
      AlignedReadsInside(0, n - carry, frame, ratio, w);
    }
  }

  /** What one buffer's reads are under that rule, entered with the carry of the buffers before it. */
  predicate FixedReadsAt(ns: seq<nat>, i: nat, leap: nat, w: nat)
    requires leap > 0 && i < |ns|
  {
    var c := FixedCarry(ns[..i], leap);
    forall k :: 0 <= k < StepsLeft(ns[i] - c, leap) ==> c + k * leap + w <= ns[i]
  }

  /** So does every read of every list of frame-aligned buffers: the carry stays whole frames. */
  lemma FixedListReadsInside(ns: seq<nat>, frame: nat, ratio: nat, w: nat)
    requires frame > 0 && ratio > 0 && 0 < w <= frame && FrameAligned(ns, frame) && frame * ratio > 0
    ensures forall i :: 0 <= i < |ns| ==> FixedReadsAt(ns, i, frame * ratio, w)
  {
    var leap := frame * ratio;
    forall i | 0 <= i < |ns| ensures FixedReadsAt(ns, i, leap, w) {
      FixedIsFlat(ns[..i], leap);
      TotalAligned(ns[..i], frame);
      PadAligned(Total(ns[..i]), frame, ratio);
      FixedReadsInside(FixedCarry(ns[..i], leap), ns[i], frame, ratio, w);
    }
  }

  /** The code as written does depend on the split: 20 bytes of 16-bit stereo at a ratio of two,
      once with a one-frame buffer in front and once in one piece. */
  lemma CodeDependsOnSplit()
    ensures Total([4, 8, 8]) == Total([20])
    ensures CodeOffsets([4, 8, 8], 8) != CodeOffsets([20], 8)
  {
    CodeIsFlatExactly([4, 8, 8], 8);
    CodeIsFlatExactly([20], 8);
    assert [4, 8, 8][..2] == [4, 8] && [4, 8][..1] == [4] && [20][..0] == [];
    assert !Multiples([4], 8);
  }

  /** Reading the wrong offsets need not mean reading outside: those sizes keep every read in its buffer. */
  lemma OutOfStepInside()
    ensures !CarrySafe([4, 8, 8], 8) && AllReadsInside([4, 8, 8], 8, 2)
  {
    var ns := [4, 8, 8];
    assert ns[..2] == [4, 8] && [4, 8][..1] == [4];
    assert [4][0] % 8 == 4;
    StepsUnique(8, 8, 1, 0);
    StepsUnique(4, 8, 1, 4);
    AllReadsInsideExactly(ns, 8, 2);
  }
}
