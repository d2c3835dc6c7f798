/** The duty-cycle buffer of the chained lights. */
module Pix {
  import opened Words

  const PIX_NUM := 24
  const PIX_ENCODE_LENGTH := 576
  const PIX_RESET_DELAY := 64
  const PIX_COUNTERTOP: nat := 20
  const HIGH: nat := 0x800E
  const LOW: nat := 0x8005

  datatype Color = Color(r: bv8, g: bv8, b: bv8)

  /** One call of `pix_color_set`. */
  datatype Call = Call(color: Color, index: Word)

  // ----- what the lights read

  /** Bit k of a byte, counted from the most significant. */
  predicate Bit(v: bv8, k: nat)
    requires k < 8
  {
    v & (1 << (7 - k)) != 0
  }

  function Duty(bit: bool): nat { if bit then HIGH else LOW }

  /** A duty cycle is a halfword: the polarity in its top bit, a compare value in the other 15. With the polarity set
      the line starts high and falls at the compare value; otherwise it starts low and rises there. */
  predicate StartsHigh(duty: nat) { duty / 0x8000 % 2 == 1 }

  function Compare(duty: nat): nat { duty % 0x8000 }

  /** For how many of the 20 counts of a period the line is high. */
  function HighCounts(duty: nat): (k: nat)
    ensures k <= PIX_COUNTERTOP
  {
    var edge := if Compare(duty) < PIX_COUNTERTOP then Compare(duty) else PIX_COUNTERTOP;
    if StartsHigh(duty) then edge else PIX_COUNTERTOP - edge
  }

  /** A bit is one pulse, high and then low; a light tells 1 from 0 by whether it is high for more than half of the
      period. */
  predicate IsPulse(duty: nat) { StartsHigh(duty) && 0 < HighCounts(duty) < PIX_COUNTERTOP }

  predicate ReadBit(duty: nat) { IsPulse(duty) && 2 * HighCounts(duty) > PIX_COUNTERTOP }

  /** The line stays low throughout. */
  predicate IsLow(duty: nat) { HighCounts(duty) == 0 }

  /** The byte that a series of duty cycles stands for, most significant bit first. */
  function ReadByte(duties: seq<nat>): bv8 {
    if duties == [] then 0 else Push(ReadByte(duties[..|duties|-1]), ReadBit(duties[|duties|-1]))
  }

  /** Both encodings are pulses, and the light reads them as they are meant. */
  lemma DutyReads(bit: bool)
    ensures IsPulse(Duty(bit)) && (ReadBit(Duty(bit)) <==> bit)
  {
  }

  /** The colour of light k: green first, then red, then blue. */
  function Read(buffer: seq<nat>, k: nat): Color
    requires k < PIX_NUM && |buffer| >= PIX_ENCODE_LENGTH
  {
    var at := 24 * k;
    Color(ReadByte(buffer[at + 8..at + 16]), ReadByte(buffer[at..at + 8]), ReadByte(buffer[at + 16..at + 24]))
  }

  predicate Carries(duties: seq<nat>, v: bv8) {
    |duties| == 8 && forall k :: 0 <= k < 8 ==> duties[k] == Duty(Bit(v, k))
  }

  /** The n most significant bits of a byte. */
  function Top(v: bv8, n: nat): bv8
    requires n <= 8
  {
    v >> (8 - n)
  }

  function Push(high: bv8, bit: bool): bv8 { (high << 1) | (if bit then 1 else 0) }

  lemma {:induction false} PrefixRead(v: bv8, duties: seq<nat>, n: nat)
    requires Carries(duties, v) && n <= 8
    ensures ReadByte(duties[..n]) == Top(v, n)
  {
    hide Bit, Top, Push, Duty, ReadBit;
    TopEnds(v);
    if n > 0 {
      DutyReads(Bit(v, n - 1));
      PrefixRead(v, duties, n - 1);
      assert duties[..n][..n-1] == duties[..n-1];
      assert duties[..n][n-1] == duties[n-1] == Duty(Bit(v, n - 1));
      NextBit(v, n);
    }
  }

  lemma TopEnds(v: bv8)
    ensures Top(v, 0) == 0 && Top(v, 8) == v
  {
  }

  lemma NextBit(v: bv8, n: nat)
    requires 1 <= n <= 8
    ensures Top(v, n) == Push(Top(v, n - 1), Bit(v, n - 1))
  {
    if n <= 4 { NextHighBit(v, n); } else { NextLowBit(v, n); }
  }

  lemma NextHighBit(v: bv8, n: nat)
    requires 1 <= n <= 4
    ensures Top(v, n) == Push(Top(v, n - 1), Bit(v, n - 1))
  {
    if n == 1 {} else if n == 2 {} else if n == 3 {} else {}
  }

  lemma NextLowBit(v: bv8, n: nat)
    requires 5 <= n <= 8
    ensures Top(v, n) == Push(Top(v, n - 1), Bit(v, n - 1))
  {
    if n == 5 {} else if n == 6 {} else if n == 7 {} else {}
  }

  /** Eight duty cycles carry the byte. */
  lemma ByteRoundTrip(v: bv8, duties: seq<nat>)
    requires Carries(duties, v)
    ensures ReadByte(duties) == v
  {
    hide Top, Bit, ReadByte;
    PrefixRead(v, duties, 8);
    TopEnds(v);
    assert duties[..8] == duties;
  }

  // ----- what the calls write

  /** Entry j of the 24 that encode a colour. */
  function Entry(c: Color, j: nat): nat
    requires j < 24
  {
    Duty(if j < 8 then Bit(c.g, j) else if j < 16 then Bit(c.r, j - 8) else Bit(c.b, j - 16))
  }

  /** The buffer with n entries of a colour written from an offset on. */
  ghost predicate Written(before: seq<nat>, after: seq<nat>, at: nat, c: Color, n: nat)
    requires n <= 24
  {
    && |after| == |before|
    && forall j :: 0 <= j < |before| ==> after[j] == if at <= j < at + n then Entry(c, j - at) else before[j]
  }

  /** Dark lights and the reset tail: the buffer after `pix_init`. */
  function Dark(): seq<nat> {
    seq(PIX_ENCODE_LENGTH + PIX_RESET_DELAY, i => if i < PIX_ENCODE_LENGTH then LOW else PIX_COUNTERTOP + 1)
  }

  /** One call: an index out of range changes nothing. */
  ghost predicate Step(before: seq<nat>, call: Call, after: seq<nat>) {
    if call.index >= PIX_NUM then after == before else Written(before, after, 24 * call.index, call.color, 24)
  }

  /** A call gives its light the colour and leaves every other light and the tail alone. */
  lemma StepReads(before: seq<nat>, call: Call, after: seq<nat>, k: nat)
    requires |before| == PIX_ENCODE_LENGTH + PIX_RESET_DELAY && Step(before, call, after) && k < PIX_NUM
    ensures |after| == |before| && after[PIX_ENCODE_LENGTH..] == before[PIX_ENCODE_LENGTH..]
    ensures Read(after, k) == if call.index == k then call.color else Read(before, k)
  {
    hide ReadByte, Bit, Duty;
    var at, c := 24 * k, call.color;
    if call.index == k {
      CarriesPart(before, after, at, c);
      ByteRoundTrip(c.g, after[at..at + 8]);
      ByteRoundTrip(c.r, after[at + 8..at + 16]);
      ByteRoundTrip(c.b, after[at + 16..at + 24]);
    } else {
      SamePart(before, after, at, 0);
      SamePart(before, after, at, 8);
      SamePart(before, after, at, 16);
    }
  }

  lemma CarriesPart(before: seq<nat>, after: seq<nat>, at: nat, c: Color)
    requires at + 24 <= |before| && Written(before, after, at, c, 24)
    ensures Carries(after[at..at + 8], c.g) && Carries(after[at + 8..at + 16], c.r)
    ensures Carries(after[at + 16..at + 24], c.b)
  {
    hide Bit, Duty;
    assert forall j :: 0 <= j < 24 ==> after[at + j] == Entry(c, j);
  }

  lemma SamePart(x: seq<nat>, y: seq<nat>, at: nat, i: nat)
    requires at + 24 <= |x| == |y| && i <= 16
    requires forall j :: at <= j < at + 24 ==> x[j] == y[j]
    ensures x[at + i..at + i + 8] == y[at + i..at + i + 8]
  {
    var n := at + i;
    var p, q := x[n..n + 8], y[n..n + 8];
    forall j | 0 <= j < 8 ensures p[j] == q[j] {
      assert x[n + j] == y[n + j];
    }
  }

  // ----- whole histories

  /** The states passed through after `pix_init` by a series of calls. */
  ghost predicate Run(states: seq<seq<nat>>, calls: seq<Call>) {
    && |states| == |calls| + 1 && states[0] == Dark()
    && forall i :: 0 <= i < |calls| ==> Step(states[i], calls[i], states[i + 1])
  }

  /** The last colour that the calls gave to light k; black if none did. */
  function LastColor(calls: seq<Call>, k: nat): Color {
    if calls == [] then Color(0, 0, 0)
    else if calls[|calls|-1].index == k then calls[|calls|-1].color
    else LastColor(calls[..|calls|-1], k)
  }

  /** A frame: a pulse for each of the 24 bits of each light, then 64 periods of 20 counts, 80 microseconds, low. */
  predicate IsFrame(buffer: seq<nat>) {
    && |buffer| == PIX_ENCODE_LENGTH + PIX_RESET_DELAY && PIX_ENCODE_LENGTH == 24 * PIX_NUM
    && (forall i :: 0 <= i < PIX_ENCODE_LENGTH ==> IsPulse(buffer[i]))
    && (forall i :: PIX_ENCODE_LENGTH <= i < |buffer| ==> IsLow(buffer[i]))
    && PIX_RESET_DELAY * PIX_COUNTERTOP == 1280
  }

  /** Whatever was called, the buffer is a frame in which each light reads the last colour written to it. */
  lemma {:induction false} EveryHistoryReads(states: seq<seq<nat>>, calls: seq<Call>, k: nat)
    requires Run(states, calls) && k < PIX_NUM
    ensures var last := states[|calls|];
            && IsFrame(last) && Read(last, k) == LastColor(calls, k)
            && forall i :: PIX_ENCODE_LENGTH <= i < |last| ==> last[i] == PIX_COUNTERTOP + 1
    decreases |calls|
  {
    hide Read, Step, IsFrame;
    var n := |calls|;
    if n == 0 {
      DarkReads(k);
      DarkFrame();
    } else {
      EveryHistoryReads(states[..n], calls[..n-1], k);
      FrameLength(states[n-1]);
      StepReads(states[n-1], calls[n-1], states[n], k);
      StepFrame(states[n-1], calls[n-1], states[n]);
      var tail := states[n][PIX_ENCODE_LENGTH..];
      assert forall i :: PIX_ENCODE_LENGTH <= i < |states[n]| ==> states[n][i] == tail[i - PIX_ENCODE_LENGTH];
    }
  }

  lemma FrameLength(buffer: seq<nat>)
    requires IsFrame(buffer)
    ensures |buffer| == PIX_ENCODE_LENGTH + PIX_RESET_DELAY
  {
  }

  lemma DarkFrame()
    ensures IsFrame(Dark())
  {
    DutyReads(false);
  }

  lemma StepFrame(before: seq<nat>, call: Call, after: seq<nat>)
    requires IsFrame(before) && Step(before, call, after)
    ensures IsFrame(after)
  {
    hide Duty, IsPulse, IsLow, Bit;
    DutyReads(true);
    DutyReads(false);
    if call.index < PIX_NUM {
      forall i | 0 <= i < |after| ensures if i < PIX_ENCODE_LENGTH then IsPulse(after[i]) else IsLow(after[i]) {
        var at := 24 * call.index;
        assert after[i] == if at <= i < at + 24 then Entry(call.color, i - at) else before[i];
      }
    }
  }

  lemma DarkReads(k: nat)
    requires k < PIX_NUM
    ensures Read(Dark(), k) == Color(0, 0, 0)
  {
    hide ReadByte;
    var at := 24 * k;
    ZeroBits();
    ByteRoundTrip(0, Dark()[at..at + 8]);
    ByteRoundTrip(0, Dark()[at + 8..at + 16]);
    ByteRoundTrip(0, Dark()[at + 16..at + 24]);
  }

  lemma ZeroBits()
    ensures forall k :: 0 <= k < 8 ==> !Bit(0, k)
  {
    forall k | 0 <= k < 8 ensures !Bit(0, k) {
      if k == 0 {} else if k == 1 {} else if k == 2 {} else if k == 3 {}
      else if k == 4 {} else if k == 5 {} else if k == 6 {} else {}
    }
  }

  // ----- the buffer in place

  class Buffer {
    const duty: array<nat>

    ghost predicate Valid() {
      duty.Length == PIX_ENCODE_LENGTH + PIX_RESET_DELAY
    }

    /** `pix_init`, without the PWM peripheral. */
    method Init()
      requires Valid()
      modifies duty
      ensures duty[..] == Dark()
    {
      var i: nat := 0;
      while i < PIX_ENCODE_LENGTH
        invariant i <= PIX_ENCODE_LENGTH && forall j :: 0 <= j < i ==> duty[j] == LOW
      {
        duty[i] := LOW;
        i := i + 1;
      }
      while i < PIX_ENCODE_LENGTH + PIX_RESET_DELAY
        invariant PIX_ENCODE_LENGTH <= i <= duty.Length
        invariant forall j :: 0 <= j < i ==> duty[j] == if j < PIX_ENCODE_LENGTH then LOW else PIX_COUNTERTOP + 1
      {
        duty[i] := PIX_COUNTERTOP + 1;
        i := i + 1;
      }
    }

    /** `pix_color_set`. */
    method ColorSet(r: bv8, g: bv8, b: bv8, index: Word)
      requires Valid()
      modifies duty
      ensures Step(old(duty[..]), Call(Color(r, g, b), index), duty[..])
    {
      if index >= PIX_NUM {
        return;
      }
      var at := 24 * index;
      ghost var c := Color(r, g, b);
      var i: nat := 0;
      while i < 8
        invariant i <= 8 && Written(old(duty[..]), duty[..], at, c, i)
      {
        Put(at, i, if g & (1 << (7 - i)) != 0 then HIGH else LOW, old(duty[..]), c);
        i := i + 1;
      }
      while i < 16
        invariant 8 <= i <= 16 && Written(old(duty[..]), duty[..], at, c, i)
      {
        Put(at, i, if r & (1 << (15 - i)) != 0 then HIGH else LOW, old(duty[..]), c);
        i := i + 1;
      }
      while i < 24
        invariant 16 <= i <= 24 && Written(old(duty[..]), duty[..], at, c, i)
      {
        Put(at, i, if b & (1 << (23 - i)) != 0 then HIGH else LOW, old(duty[..]), c);
        i := i + 1;
      }
    }

    /** One entry of a colour. */
    method Put(at: nat, i: nat, value: nat, ghost before: seq<nat>, ghost c: Color)
      requires Valid() && i < 24 && at + i < PIX_ENCODE_LENGTH
      requires Written(before, duty[..], at, c, i) && value == Entry(c, i)
      modifies duty
      ensures Written(before, duty[..], at, c, i + 1)
    {
      hide Entry;
      duty[at + i] := value;
    }
  }
}
