/**
 * Energy from a power history: the trapezoidal rule over consecutive valid samples, with
 * invalid states ("unknown", "unavailable", not a number) skipped and bridged over.
 *
 * The recorder's answer is an input, timestamps are integer microseconds (UTC), and
 * Python's `float()` on a state string is the parameter `parse`.
 */
module Energy {
  import opened Results

  /** A recorded state: its string value and when it was last updated (microseconds, UTC). */
  datatype State = State(state: string, lastUpdated: int)

  /** What the recorder query gives: per entity id, its states in time order. */
  datatype History = RecorderNotInitialized | Recorded(states: map<string, seq<State>>)

  datatype EnergyError = RecorderNotReady

  /** A valid sample: power in watts and time in microseconds. */
  datatype Sample = Sample(power: real, time: int)

  const MicrosPerSecond: real := 1_000_000.0

  /** The two state strings Home Assistant uses for "no reading". */
  predicate NoReading(state: string)
  {
    state == "unknown" || state == "unavailable"
  }

  /** The sample a state stands for, or None when it is skipped. */
  function AsSample(parse: string -> Option<real>, s: State): (r: Option<Sample>)
    ensures r.Some? <==> !NoReading(s.state) && parse(s.state).Some?
    ensures r.Some? ==> r.value == Sample(parse(s.state).value, s.lastUpdated)
  {
    if NoReading(s.state) then None
    else match parse(s.state)
      case None => None
      case Some(p) => Some(Sample(p, s.lastUpdated))
  }

  /** The valid samples of a state sequence, in order. */
  function ValidSamples(parse: string -> Option<real>, states: seq<State>): seq<Sample>
  {
    if states == [] then []
    else
      var last := states[|states| - 1];
      ValidSamples(parse, states[..|states| - 1])
        + match AsSample(parse, last) case None => [] case Some(x) => [x]
  }

  /** Hours elapsed between two sample times. */
  function Hours(from: int, to: int): real
  {
    ((to - from) as real / MicrosPerSecond) / 3600.0
  }

  /** kWh between two consecutive valid samples: mean power (W) times hours, over 1000. */
  function Trapezoid(prev: Sample, cur: Sample): real
  {
    ((cur.power + prev.power) / 2.0) * Hours(prev.time, cur.time) / 1000.0
  }

  /** The loop's increment, mean power times elapsed hours over 1000, is the trapezoid. */
  lemma TrapezoidFormula(prev: Sample, cur: Sample, avgPower: real, timeDiff: real)
    requires avgPower == (cur.power + prev.power) / 2.0 && timeDiff == Hours(prev.time, cur.time)
    ensures (avgPower * timeDiff) / 1000.0 == Trapezoid(prev, cur)
  {
  }

  /** The sum of Trapezoid over every consecutive pair, accumulated from the front. */
  function TrapezoidSum(samples: seq<Sample>): real
  {
    if |samples| < 2 then 0.0
    else TrapezoidSum(samples[..|samples| - 1]) + Trapezoid(samples[|samples| - 2], samples[|samples| - 1])
  }

  /** The energy a state sequence integrates to. */
  function EnergyOf(parse: string -> Option<real>, states: seq<State>): real
  {
    TrapezoidSum(ValidSamples(parse, states))
  }

  /**
   * `calculate_energy_usage`: a recorder that is not initialised is an error; no history
   * for the entity is 0; otherwise the loop sums the trapezoids between each valid sample
   * and the last valid one before it.
   */
  method CalculateEnergyUsage(history: History, entityId: string, parse: string -> Option<real>)
    returns (r: Result<real, EnergyError>)
    ensures history.RecorderNotInitialized? <==> r.Failure?
    ensures r.Failure? ==> r.error == RecorderNotReady
    ensures history.Recorded? && entityId !in history.states ==> r == Success(0.0)
    ensures history.Recorded? && entityId in history.states ==>
      r == Success(EnergyOf(parse, history.states[entityId]))
  {
    if history.RecorderNotInitialized? {
      return Failure(RecorderNotReady);
    }
    if history.states == map[] || entityId !in history.states {
      return Success(0.0);
    }
    var states := history.states[entityId];
    var energyKwh := 0.0;
    var lastState: Option<State> := None;
    var lastTime: Option<int> := None;
    for i := 0 to |states|
      invariant energyKwh == EnergyOf(parse, states[..i])
      invariant lastTime.Some? <==> lastState.Some?
      invariant lastState.Some? <==> ValidSamples(parse, states[..i]) != []
      invariant lastState.Some? ==>
        && parse(lastState.value.state).Some?
        && Last(ValidSamples(parse, states[..i])) == Sample(parse(lastState.value.state).value, lastTime.value)
    {
      var state := states[i];
      EnergyStep(parse, states, i);
      if NoReading(state.state) {
        continue;
      }
      var parsed := parse(state.state);
      if parsed.None? {
        continue;
      }
      var currentPower := parsed.value;
      var currentTime := state.lastUpdated;
      if lastState.Some? && lastTime.Some? {
        var timeDiff := Hours(lastTime.value, currentTime);
        var avgPower := (currentPower + parse(lastState.value.state).value) / 2.0;
        TrapezoidFormula(Sample(parse(lastState.value.state).value, lastTime.value), Sample(currentPower, currentTime),
                         avgPower, timeDiff);
        energyKwh := energyKwh + (avgPower * timeDiff) / 1000.0;
      }
      lastState := Some(state);
      lastTime := Some(currentTime);
    }
    assert states[..|states|] == states;
    return Success(energyKwh);
  }

  /**
   * One step of the loop, from the first i states to the first i + 1: a skipped state changes
   * neither the samples nor the energy; a valid one is appended and adds the trapezoid from the
   * previous valid sample, or nothing when it is the first.
   */
  lemma EnergyStep(parse: string -> Option<real>, states: seq<State>, i: nat)
    requires i < |states|
    ensures AsSample(parse, states[i]).None? ==>
      && ValidSamples(parse, states[..i + 1]) == ValidSamples(parse, states[..i])
      && EnergyOf(parse, states[..i + 1]) == EnergyOf(parse, states[..i])
    ensures AsSample(parse, states[i]).Some? ==>
      ValidSamples(parse, states[..i + 1]) == ValidSamples(parse, states[..i]) + [AsSample(parse, states[i]).value]
    ensures AsSample(parse, states[i]).Some? && ValidSamples(parse, states[..i]) == [] ==>
      EnergyOf(parse, states[..i + 1]) == 0.0
    ensures AsSample(parse, states[i]).Some? && ValidSamples(parse, states[..i]) != [] ==>
      EnergyOf(parse, states[..i + 1]) == EnergyOf(parse, states[..i])
        + Trapezoid(Last(ValidSamples(parse, states[..i])), AsSample(parse, states[i]).value)
  {
    var prefix, s := states[..i], states[i];
    assert states[..i + 1] == prefix + [s];
    ValidSamplesSnoc(parse, prefix, s);
    if AsSample(parse, s).Some? && ValidSamples(parse, prefix) != [] {
      TrapezoidSumSnoc(ValidSamples(parse, prefix), AsSample(parse, s).value);
    }
  }

  /** Appending a state appends its sample, if it has one. */
  lemma ValidSamplesSnoc(parse: string -> Option<real>, states: seq<State>, s: State)
    ensures ValidSamples(parse, states + [s])
         == ValidSamples(parse, states) + match AsSample(parse, s) case None => [] case Some(x) => [x]
  {
    assert (states + [s])[..|states|] == states;
  }

  /** Appending a sample adds the trapezoid between the previous last sample and it. */
  lemma TrapezoidSumSnoc(samples: seq<Sample>, x: Sample)
    requires samples != []
    ensures TrapezoidSum(samples + [x]) == TrapezoidSum(samples) + Trapezoid(Last(samples), x)
  {
    assert (samples + [x])[..|samples|] == samples;
  }

  /** The valid samples of a concatenation are those of each part, in order. */
  lemma {:induction false} ValidSamplesAppend(parse: string -> Option<real>, a: seq<State>, b: seq<State>)
    ensures ValidSamples(parse, a + b) == ValidSamples(parse, a) + ValidSamples(parse, b)
    decreases |b|
  {
    if b == [] {
      assert a + b == a;
    } else {
      var init, s := b[..|b| - 1], b[|b| - 1];
      assert b == init + [s];
      assert a + b == (a + init) + [s];
      ValidSamplesAppend(parse, a, init);
      ValidSamplesSnoc(parse, a + init, s);
      ValidSamplesSnoc(parse, init, s);
    }
  }

  /** With fewer than two valid samples (none at all, or just one) the energy is 0. */
  lemma FewerThanTwoValid(parse: string -> Option<real>, states: seq<State>)
    requires |ValidSamples(parse, states)| < 2
    ensures EnergyOf(parse, states) == 0.0
  {
  }

  /**
   * A skipped state ("unknown", "unavailable" or not a number) changes nothing wherever it
   * is inserted: the neighbouring valid samples are bridged as if it were not there.
   */
  lemma InvalidStateIgnored(parse: string -> Option<real>, a: seq<State>, s: State, b: seq<State>)
    requires AsSample(parse, s) == None
    ensures ValidSamples(parse, a + [s] + b) == ValidSamples(parse, a + b)
    ensures EnergyOf(parse, a + [s] + b) == EnergyOf(parse, a + b)
  {
    ValidSamplesAppend(parse, a + [s], b);
    ValidSamplesAppend(parse, a, [s]);
    ValidSamplesAppend(parse, a, b);
    assert ValidSamples(parse, [s]) == [] by {
      ValidSamplesSnoc(parse, [], s);
      assert [] + [s] == [s];
    }
  }

  /** Splitting the samples at a shared sample x splits the sum. */
  lemma {:induction false} TrapezoidSumSplit(a: seq<Sample>, x: Sample, b: seq<Sample>)
    ensures TrapezoidSum(a + [x] + b) == TrapezoidSum(a + [x]) + TrapezoidSum([x] + b)
    decreases |b|
  {
    if b == [] {
      assert a + [x] + b == a + [x];
      assert [x] + b == [x];
    } else {
      var init, y := b[..|b| - 1], b[|b| - 1];
      assert b == init + [y];
      assert a + [x] + b == (a + [x] + init) + [y];
      assert [x] + b == ([x] + init) + [y];
      TrapezoidSumSplit(a, x, init);
      TrapezoidSumSnoc(a + [x] + init, y);
      TrapezoidSumSnoc([x] + init, y);
      assert Last(a + [x] + init) == Last([x] + init);
    }
  }

  /**
   * Additivity: the energy of a history split at a valid state is the energy of the part
   * up to it plus the energy of the part from it.
   */
  lemma EnergySplit(parse: string -> Option<real>, a: seq<State>, s: State, b: seq<State>)
    requires AsSample(parse, s).Some?
    ensures EnergyOf(parse, a + [s] + b) == EnergyOf(parse, a + [s]) + EnergyOf(parse, [s] + b)
  {
    var x := AsSample(parse, s).value;
    ValidSamplesAppend(parse, a + [s], b);
    ValidSamplesAppend(parse, a, [s]);
    ValidSamplesAppend(parse, [s], b);
    assert ValidSamples(parse, [s]) == [x] by {
      ValidSamplesSnoc(parse, [], s);
      assert [] + [s] == [s];
    }
    TrapezoidSumSplit(ValidSamples(parse, a), x, ValidSamples(parse, b));
  }

  /** The pairwise sum written the other way round: first pair, then the rest. */
  function PairSum(samples: seq<Sample>): real
  {
    if |samples| < 2 then 0.0 else Trapezoid(samples[0], samples[1]) + PairSum(samples[1..])
  }

  /** The accumulated sum is the sum of Trapezoid over every consecutive pair. */
  lemma {:induction false} TrapezoidSumIsPairSum(samples: seq<Sample>)
    ensures TrapezoidSum(samples) == PairSum(samples)
    decreases |samples|
  {
    if |samples| >= 2 {
      var rest := samples[1..];
      TrapezoidSumIsPairSum(rest);
      assert samples == [samples[0]] + [rest[0]] + rest[1..];
      assert [rest[0]] + rest[1..] == rest;
      TrapezoidSumSplit([samples[0]], rest[0], rest[1..]);
      assert TrapezoidSum([samples[0]] + [rest[0]]) == Trapezoid(samples[0], samples[1]) by {
        assert ([samples[0]] + [rest[0]])[..1] == [samples[0]];
      }
    }
  }

  /** Two samples at the same instant contribute nothing, whatever their powers. */
  lemma SameInstantContributesNothing(prev: Sample, cur: Sample)
    requires prev.time == cur.time
    ensures Trapezoid(prev, cur) == 0.0
  {
  }

  /** A valid state recorded twice in a row counts once. */
  lemma RepeatedStateIgnored(parse: string -> Option<real>, a: seq<State>, s: State, b: seq<State>)
    requires AsSample(parse, s).Some?
    ensures EnergyOf(parse, a + [s, s] + b) == EnergyOf(parse, a + [s] + b)
  {
    var x := AsSample(parse, s).value;
    var va, vb := ValidSamples(parse, a), ValidSamples(parse, b);
    ValidSamplesSnoc(parse, a, s);
    ValidSamplesSnoc(parse, a + [s], s);
    assert a + [s, s] == (a + [s]) + [s];
    ValidSamplesAppend(parse, a + [s, s], b);
    ValidSamplesAppend(parse, a + [s], b);
    assert ValidSamples(parse, a + [s, s] + b) == (va + [x]) + [x] + vb;
    assert ValidSamples(parse, a + [s] + b) == va + [x] + vb;
    TrapezoidSumSplit(va + [x], x, vb);
    TrapezoidSumSnoc(va + [x], x);
    SameInstantContributesNothing(x, x);
    TrapezoidSumSplit(va, x, vb);
  }

  /**
   * Under a constant power P the sum telescopes: P watts times the hours from the first to
   * the last sample, in kWh.
   */
  lemma {:induction false} ConstantPower(samples: seq<Sample>, p: real)
    requires samples != []
    requires forall i :: 0 <= i < |samples| ==> samples[i].power == p
    ensures TrapezoidSum(samples) == p * Hours(samples[0].time, Last(samples).time) / 1000.0
    decreases |samples|
  {
    if |samples| == 1 {
    } else {
      var init := samples[..|samples| - 1];
      var y := Last(samples);
      assert samples == init + [y];
      ConstantPower(init, p);
      TrapezoidSumSnoc(init, y);
      var h1 := Hours(samples[0].time, Last(init).time);
      var h2 := Hours(Last(init).time, y.time);
      assert Trapezoid(Last(init), y) == p * h2 / 1000.0;
      assert Hours(samples[0].time, y.time) == h1 + h2;
      assert p * h1 / 1000.0 + p * h2 / 1000.0 == p * (h1 + h2) / 1000.0;
    }
  }

  /** Timestamps of a state sequence never go backwards. */
  ghost predicate TimeOrdered(states: seq<State>)
  {
    forall i, j :: 0 <= i < j < |states| ==> states[i].lastUpdated <= states[j].lastUpdated
  }

  ghost predicate SamplesOrdered(samples: seq<Sample>)
  {
    forall i, j :: 0 <= i < j < |samples| ==> samples[i].time <= samples[j].time
  }

  /** No valid sample is later than the latest state. */
  lemma {:induction false} ValidSamplesNotLater(parse: string -> Option<real>, states: seq<State>, t: int)
    requires forall i :: 0 <= i < |states| ==> states[i].lastUpdated <= t
    ensures forall x :: x in ValidSamples(parse, states) ==> x.time <= t
    decreases |states|
  {
    if states != [] {
      var init := states[..|states| - 1];
      assert states == init + [states[|states| - 1]];
      ValidSamplesNotLater(parse, init, t);
      ValidSamplesSnoc(parse, init, states[|states| - 1]);
    }
  }

  /** Skipping states keeps the remaining samples in time order. */
  lemma {:induction false} ValidSamplesOrdered(parse: string -> Option<real>, states: seq<State>)
    requires TimeOrdered(states)
    ensures SamplesOrdered(ValidSamples(parse, states))
    decreases |states|
  {
    if states != [] {
      var init, s := states[..|states| - 1], states[|states| - 1];
      assert states == init + [s];
      ValidSamplesOrdered(parse, init);
      ValidSamplesSnoc(parse, init, s);
      ValidSamplesNotLater(parse, init, s.lastUpdated);
      var v := ValidSamples(parse, init);
      if AsSample(parse, s).Some? {
        var w := v + [AsSample(parse, s).value];
        forall i, j | 0 <= i < j < |w| ensures w[i].time <= w[j].time {
          if j == |v| {
            assert w[i] in v;
          }
        }
      }
    }
  }

  /** Time-ordered samples with non-negative powers sum to a non-negative energy. */
  lemma {:induction false} TrapezoidSumNonNegative(samples: seq<Sample>)
    requires SamplesOrdered(samples)
    requires forall i :: 0 <= i < |samples| ==> samples[i].power >= 0.0
    ensures TrapezoidSum(samples) >= 0.0
    decreases |samples|
  {
    if |samples| >= 2 {
      var init := samples[..|samples| - 1];
      TrapezoidSumNonNegative(init);
      var a, b := samples[|samples| - 2], samples[|samples| - 1];
      var mean := (b.power + a.power) / 2.0;
      var hours := Hours(a.time, b.time);
      assert mean >= 0.0 && hours >= 0.0;
      assert mean * hours >= 0.0;
      assert Trapezoid(a, b) == mean * hours / 1000.0;
    }
  }

  /**
   * A time-ordered history whose valid powers are all non-negative integrates to a
   * non-negative energy.
   */
  lemma EnergyNonNegative(parse: string -> Option<real>, states: seq<State>)
    requires TimeOrdered(states)
    requires forall x :: x in ValidSamples(parse, states) ==> x.power >= 0.0
    ensures EnergyOf(parse, states) >= 0.0
  {
    ValidSamplesOrdered(parse, states);
    var v := ValidSamples(parse, states);
    assert forall i :: 0 <= i < |v| ==> v[i] in v;
    TrapezoidSumNonNegative(v);
  }

  /** 1000 W, then an unavailable state, then 2000 W one hour after the first: 1.5 kWh. */
  lemma OneAndAHalfKilowattHours(parse: string -> Option<real>, t0: int)
    requires parse("1000") == Some(1000.0) && parse("2000") == Some(2000.0)
    ensures EnergyOf(parse, [State("1000", t0), State("unavailable", t0 + 1_800_000_000),
                             State("2000", t0 + 3_600_000_000)]) == 1.5
  {
    var s0, s1, s2 := State("1000", t0), State("unavailable", t0 + 1_800_000_000), State("2000", t0 + 3_600_000_000);
    assert !NoReading("1000") && NoReading("unavailable") && !NoReading("2000");
    assert AsSample(parse, s0) == Some(Sample(1000.0, t0)) && AsSample(parse, s1) == None;
    assert AsSample(parse, s2) == Some(Sample(2000.0, t0 + 3_600_000_000));
    ValidSamplesSnoc(parse, [], s0);
    assert [] + [s0] == [s0];
    ValidSamplesSnoc(parse, [s0], s1);
    ValidSamplesSnoc(parse, [s0, s1], s2);
    assert [s0] + [s1] == [s0, s1];
    assert [s0, s1] + [s2] == [s0, s1, s2];
    var v := ValidSamples(parse, [s0, s1, s2]);
    assert v == [Sample(1000.0, t0), Sample(2000.0, t0 + 3_600_000_000)];
    assert v[..1] == [Sample(1000.0, t0)];
    assert TrapezoidSum(v) == Trapezoid(v[0], v[1]);
    assert Hours(t0, t0 + 3_600_000_000) == 1.0;
    assert Trapezoid(v[0], v[1]) == 1500.0 * 1.0 / 1000.0;
  }

  function Last<T>(s: seq<T>): T
    requires s != []
  {
    s[|s| - 1]
  }
}
