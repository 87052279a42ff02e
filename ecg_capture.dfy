/** The capture loop of one acquisition process (`ECGCapture`): reading
    the 10-bit converter over SPI, keeping the last 500 samples and their
    times in two bounded buffers, and every five seconds handing the
    buffers to the plotter and the picture to the database. The SPI read,
    the clock, the plotter's output and the database's answer are inputs
    of each loop iteration (`Tick`). Samples are kept as converter counts;
    times as milliseconds. */
module EcgCapture {
  import opened Wrappers
  import opened Text

  /** `BUFFER_SIZE`, the `maxlen` of both deques. */
  const BufferSize := 500

  /** `SAVE_INTERVAL` (5 s), in milliseconds. */
  const SaveIntervalMs := 5000

  function Bits(b: byte): bv16
  {
    (b as int) as bv16
  }

  /** `(((r[0] & 0x1F) << 8) + (r[1] & 0xFE)) >> 3`: the five low bits of
      the first byte followed by the five high bits of the second, a value
      below 1024. */
  function DecodeAdc(b0: byte, b1: byte): (v: bv16)
    ensures v < 1024 && v as int < 1024
    ensures v == (Bits(b0) & 0x1F) * 32 + (Bits(b1) >> 3)
  {
    (((Bits(b0) & 0x1F) << 8) + (Bits(b1) & 0xFE)) >> 3
  }

  /** The decoded value ignores the three high bits of the first byte and
      the three low bits of the second. */
  lemma DecodeIgnoresOtherBits(b0: byte, b1: byte, c0: byte, c1: byte)
    requires Bits(b0) & 0x1F == Bits(c0) & 0x1F
    requires Bits(b1) >> 3 == Bits(c1) >> 3
    ensures DecodeAdc(b0, b1) == DecodeAdc(c0, c1)
  {
  }

  /** `_analog_read`, given what `spi.readbytes(2)` produced (`None`: it
      raised). An exception, including a short read, gives 0. */
  function AnalogRead(read: Option<seq<byte>>): (v: nat)
    ensures v < 1024
    ensures read.None? || |read.value| < 2 ==> v == 0
  {
    match read
    case None => 0
    case Some(r) => if |r| < 2 then 0 else DecodeAdc(r[0], r[1]) as int
  }

  /** A full read is the decoded pair of bytes. */
  lemma AnalogReadDecodes(r: seq<byte>)
    requires |r| >= 2
    ensures AnalogRead(Some(r)) == DecodeAdc(r[0], r[1]) as int
  {
  }

  /** The contents of a `deque(maxlen=500)` after appending all of `s`:
      its last 500 items at most. */
  function Window<T>(s: seq<T>): (w: seq<T>)
    ensures |w| == if |s| <= BufferSize then |s| else BufferSize
    ensures w == s[|s| - |w|..]
  {
    if |s| <= BufferSize then s else s[|s| - BufferSize..]
  }

  /** Appending to a full window drops its oldest item: the window of a
      window is the window of the whole history. */
  lemma WindowAppend<T>(s: seq<T>, x: T)
    ensures Window(Window(s) + [x]) == Window(s + [x])
  {
    var w := Window(s);
    if |s| > BufferSize {
      assert (w + [x])[1..] == s[|s| - BufferSize + 1..] + [x];
      assert (s + [x])[|s| + 1 - BufferSize..] == s[|s| - BufferSize + 1..] + [x];
    }
  }

  /** `deque.append` on a deque of `maxlen` `BufferSize`: a full deque
      drops its oldest item. */
  method DequeAppend<T>(buffer: seq<T>, x: T) returns (b: seq<T>)
    requires |buffer| <= BufferSize
    ensures b == Window(buffer + [x])
  {
    if |buffer| == BufferSize {
      b := buffer[1..] + [x];
      assert (buffer + [x])[1..] == b;
    } else {
      b := buffer + [x];
    }
  }

  lemma WindowChain<T>(start: seq<T>, history: seq<T>, x: T, w: seq<T>, w': seq<T>)
    requires w == Window(start + history) && w' == Window(w + [x])
    ensures w' == Window(start + (history + [x]))
  {
    WindowAppend(start + history, x);
    assert start + (history + [x]) == (start + history) + [x];
  }

  /** One iteration of the loop: the SPI read, the sample's time since
      `start_time` (ms), the clock (ms) at the save check, what
      `_generate_plot` returns (`b''` when it fails) and what
      `save_ecg_image` answers. */
  datatype Tick = Tick(read: Option<seq<byte>>, elapsed: int, now: int, plot: seq<byte>, stored: bool)

  /** What the capture object holds and what it sent out: the pictures
      passed to `save_ecg_image` with the answers, the buffers passed to
      `_generate_plot`, and the counts passed to
      `update_capture_session_count`. */
  datatype Snapshot = Snapshot(
    voltages: seq<nat>, times: seq<int>, sampleCount: nat, saveCount: nat,
    saves: seq<(seq<byte>, bool)>, plots: seq<(seq<nat>, seq<int>)>, countUpdates: seq<nat>)

  /** The number of saves the database accepted. */
  function Accepted(saves: seq<(seq<byte>, bool)>): nat
  {
    if saves == [] then 0 else Accepted(saves[..|saves| - 1]) + (if saves[|saves| - 1].1 then 1 else 0)
  }

  /** The lockstep buffers are bounded, only non-empty pictures reach the
      database, only non-empty buffers are plotted, and `save_count`
      counts the accepted saves. */
  predicate Good(s: Snapshot)
  {
    && |s.voltages| == |s.times| <= BufferSize
    && (forall i :: 0 <= i < |s.saves| ==> s.saves[i].0 != [])
    && (forall i :: 0 <= i < |s.plots| ==> s.plots[i].0 != [])
    && s.saveCount == Accepted(s.saves)
  }

  /** Both appends and the sample count of one iteration. */
  function Sampled(s: Snapshot, value: nat, time: int): Snapshot
  {
    s.(voltages := Window(s.voltages + [value]), times := Window(s.times + [time]),
       sampleCount := s.sampleCount + 1)
  }

  /** `_save_to_database`: nothing for empty bytes; otherwise one save,
      counted when accepted. */
  function AfterSave(s: Snapshot, image: seq<byte>, stored: bool): Snapshot
  {
    if image == [] then s
    else s.(saves := s.saves + [(image, stored)], saveCount := if stored then s.saveCount + 1 else s.saveCount)
  }

  /** The buffers handed to `_generate_plot`. */
  function Plotted(a: Snapshot): Snapshot
  {
    a.(plots := a.plots + [(a.voltages, a.times)])
  }

  /** The save check of one iteration, after the sample was added: when
      five seconds have passed, plot (the buffer is non-empty), save, and
      report the count. */
  function SaveStep(a: Snapshot, lastSave: int, t: Tick): (Snapshot, int)
  {
    if t.now - lastSave >= SaveIntervalMs then
      var b := if |a.voltages| > 0 then AfterSave(Plotted(a), t.plot, t.stored) else a;
      (b.(countUpdates := b.countUpdates + [b.saveCount]), t.now)
    else (a, lastSave)
  }

  /** One iteration from `s` with the last save at `lastSave`: the new
      snapshot and the new last-save time. */
  function Step(s: Snapshot, lastSave: int, t: Tick): (Snapshot, int)
  {
    SaveStep(Sampled(s, AnalogRead(t.read), t.elapsed), lastSave, t)
  }

  /** The samples and the times of a run of ticks. */
  function Samples(ticks: seq<Tick>): (vs: seq<nat>)
    ensures |vs| == |ticks|
  {
    if ticks == [] then [] else Samples(ticks[..|ticks| - 1]) + [AnalogRead(ticks[|ticks| - 1].read)]
  }

  function Times(ticks: seq<Tick>): (ts: seq<int>)
    ensures |ts| == |ticks|
  {
    if ticks == [] then [] else Times(ticks[..|ticks| - 1]) + [ticks[|ticks| - 1].elapsed]
  }

  /** The loop over `ticks`, iteration by iteration. */
  function RunFrom(s: Snapshot, lastSave: int, ticks: seq<Tick>): (Snapshot, int)
    decreases |ticks|
  {
    if ticks == [] then (s, lastSave)
    else
      var (p, l) := RunFrom(s, lastSave, ticks[..|ticks| - 1]);
      Step(p, l, ticks[|ticks| - 1])
  }

  lemma {:induction false} AcceptedAppend(saves: seq<(seq<byte>, bool)>, x: (seq<byte>, bool))
    ensures Accepted(saves + [x]) == Accepted(saves) + (if x.1 then 1 else 0)
  {
    assert (saves + [x])[..|saves|] == saves;
  }

  lemma SampledFacts(s: Snapshot, value: nat, time: int)
    requires Good(s)
    ensures var a := Sampled(s, value, time);
      Good(a) && |a.voltages| > 0 && a.saves == s.saves && a.plots == s.plots && a.countUpdates == s.countUpdates
  {
  }

  lemma PlotFacts(a: Snapshot)
    requires Good(a) && |a.voltages| > 0
    ensures Good(Plotted(a)) && |Plotted(a).plots| == |a.plots| + 1
  {
    var b := Plotted(a);
    assert forall i :: 0 <= i < |b.plots| ==> b.plots[i] == if i < |a.plots| then a.plots[i] else (a.voltages, a.times);
  }

  lemma SaveFacts(a: Snapshot, image: seq<byte>, stored: bool)
    requires Good(a)
    ensures var b := AfterSave(a, image, stored);
      && Good(b)
      && b.saveCount == a.saveCount + (if image != [] && stored then 1 else 0)
      && |b.saves| == |a.saves| + (if image != [] then 1 else 0)
      && b.plots == a.plots && b.countUpdates == a.countUpdates
  {
    if image != [] {
      var b := AfterSave(a, image, stored);
      AcceptedAppend(a.saves, (image, stored));
      assert forall i :: 0 <= i < |b.saves| ==> b.saves[i] == if i < |a.saves| then a.saves[i] else (image, stored);
    }
  }

  /** The save check: when due, exactly one plot, one save of a non-empty
      picture (counted when accepted) and one count report; otherwise
      nothing. The buffers are left alone. */
  lemma SaveStepFacts(a: Snapshot, lastSave: int, t: Tick)
    requires Good(a) && |a.voltages| > 0
    ensures var (b, l) := SaveStep(a, lastSave, t);
      && Good(b)
      && b.voltages == a.voltages && b.times == a.times && b.sampleCount == a.sampleCount
      && b.saveCount == a.saveCount + (if t.now - lastSave >= SaveIntervalMs && t.plot != [] && t.stored then 1 else 0)
      && |b.saves| == |a.saves| + (if t.now - lastSave >= SaveIntervalMs && t.plot != [] then 1 else 0)
      && |b.plots| == |a.plots| + (if t.now - lastSave >= SaveIntervalMs then 1 else 0)
      && (t.now - lastSave >= SaveIntervalMs ==> l == t.now && b.countUpdates == a.countUpdates + [b.saveCount])
      && (t.now - lastSave < SaveIntervalMs ==> l == lastSave && b.countUpdates == a.countUpdates)
  {
    if t.now - lastSave >= SaveIntervalMs {
      PlotFacts(a);
      SaveFacts(Plotted(a), t.plot, t.stored);
    }
  }

  /** One iteration keeps `Good`, appends to both buffers, counts one
      sample, and counts one save exactly when a save was due, the picture
      is non-empty and the database accepted it. */
  lemma StepFacts(s: Snapshot, lastSave: int, t: Tick)
    requires Good(s)
    ensures var (s', l') := Step(s, lastSave, t);
      && Good(s')
      && s'.voltages == Window(s.voltages + [AnalogRead(t.read)])
      && s'.times == Window(s.times + [t.elapsed])
      && s'.sampleCount == s.sampleCount + 1
      && s'.saveCount == s.saveCount + (if t.now - lastSave >= SaveIntervalMs && t.plot != [] && t.stored then 1 else 0)
  {
    var v := AnalogRead(t.read);
    var a := Sampled(s, v, t.elapsed);
    SampledFacts(s, v, t.elapsed);
    SaveStepFacts(a, lastSave, t);
    assert Step(s, lastSave, t) == SaveStep(a, lastSave, t);
  }

  /** After any number of iterations the buffers hold the last 500 samples
      and times of the whole history, and every iteration was counted. */
  lemma {:induction false} RunWindows(s: Snapshot, lastSave: int, ticks: seq<Tick>)
    requires Good(s)
    ensures var (s', _) := RunFrom(s, lastSave, ticks);
      && Good(s')
      && s'.voltages == Window(s.voltages + Samples(ticks))
      && s'.times == Window(s.times + Times(ticks))
      && s'.sampleCount == s.sampleCount + |ticks|
      && s'.saveCount >= s.saveCount
    decreases |ticks|
  {
    if ticks != [] {
      var n := |ticks| - 1;
      var front := ticks[..n];
      RunWindows(s, lastSave, front);
      var (p, l) := RunFrom(s, lastSave, front);
      var tick := ticks[n];
      assert RunFrom(s, lastSave, ticks) == Step(p, l, tick);
      StepFacts(p, l, tick);
      var q := Step(p, l, tick).0;
      WindowChain(s.voltages, Samples(front), AnalogRead(tick.read), p.voltages, q.voltages);
      WindowChain(s.times, Times(front), tick.elapsed, p.times, q.times);
    } else {
      assert s.voltages + [] == s.voltages;
      assert s.times + [] == s.times;
    }
  }

  class Capture {
    const diagnosticId: int
    var voltageBuffer: seq<nat>
    var timeBuffer: seq<int>
    var sampleCount: nat
    var saveCount: nat
    var saves: seq<(seq<byte>, bool)>
    var plots: seq<(seq<nat>, seq<int>)>
    var countUpdates: seq<nat>
    /** The count `finalize_capture_session` received, once the loop ended. */
    var finalCount: Option<nat>

    function St(): Snapshot
      reads this
    {
      Snapshot(voltageBuffer, timeBuffer, sampleCount, saveCount, saves, plots, countUpdates)
    }

    ghost predicate Valid()
      reads this
    {
      Good(St())
    }

    /** `__init__`; `start_time` only enters through `Tick.elapsed`. */
    constructor (id: int)
      ensures Valid() && diagnosticId == id
      ensures St() == Snapshot([], [], 0, 0, [], [], []) && finalCount == None
    {
      diagnosticId := id;
      voltageBuffer := [];
      timeBuffer := [];
      sampleCount := 0;
      saveCount := 0;
      saves := [];
      plots := [];
      countUpdates := [];
      finalCount := None;
    }

    /** The two `append`s and `sample_count += 1`. */
    method AddSample(value: nat, time: int)
      requires Valid()
      modifies this
      ensures St() == Sampled(old(St()), value, time)
      ensures finalCount == old(finalCount)
    {
      voltageBuffer := DequeAppend(voltageBuffer, value);
      timeBuffer := DequeAppend(timeBuffer, time);
      sampleCount := sampleCount + 1;
    }

    /** `_save_to_database`. */
    method SaveToDatabase(image: seq<byte>, stored: bool)
      requires Valid()
      modifies this
      ensures Valid()
      ensures St() == AfterSave(old(St()), image, stored)
      ensures finalCount == old(finalCount)
    {
      if image != [] {
        saves := saves + [(image, stored)];
        if stored {
          saveCount := saveCount + 1;
        }
      }
    }

    /** The save check of one iteration of `run`. */
    method CheckSave(t: Tick, lastSave: int) returns (newLastSave: int)
      requires Valid()
      modifies this
      ensures Valid()
      ensures (St(), newLastSave) == SaveStep(old(St()), lastSave, t)
      ensures finalCount == old(finalCount)
    {
      newLastSave := lastSave;
      if t.now - lastSave >= SaveIntervalMs {
        if |voltageBuffer| > 0 {
          plots := plots + [(voltageBuffer, timeBuffer)];
          SaveToDatabase(t.plot, t.stored);
        }
        newLastSave := t.now;
        countUpdates := countUpdates + [saveCount];
      }
    }

    /** One iteration of the `while` loop of `run`. */
    method Iterate(t: Tick, lastSave: int) returns (newLastSave: int)
      requires Valid()
      modifies this
      ensures Valid()
      ensures (St(), newLastSave) == Step(old(St()), lastSave, t)
      ensures finalCount == old(finalCount)
    {
      StepFacts(St(), lastSave, t);
      AddSample(AnalogRead(t.read), t.elapsed);
      newLastSave := CheckSave(t, lastSave);
    }

    /** `run`: the loop runs once per tick until the stop event is set, the
        last save starting at `begin`; then `_cleanup` reports the save
        count. */
    method Run(begin: int, ticks: seq<Tick>)
      requires Valid()
      modifies this
      ensures Valid()
      ensures St() == RunFrom(old(St()), begin, ticks).0
      ensures finalCount == Some(saveCount)
    {
      ghost var s0 := St();
      var lastSave := begin;
      var i := 0;
      while i < |ticks|
        invariant 0 <= i <= |ticks|
        invariant Valid()
        invariant (St(), lastSave) == RunFrom(s0, begin, ticks[..i])
      {
        assert ticks[..i + 1][..i] == ticks[..i];
        lastSave := Iterate(ticks[i], lastSave);
        i := i + 1;
      }
      assert ticks[..i] == ticks;
      finalCount := Some(saveCount);
    }
  }
}
