/**
 * Concrete runs of the scheduler that pin down its boundary arithmetic
 * and its completion rule.
 */
module Scenarios {
  import opened Wrappers
  import opened Scheduler

  /** Two idle workers and nothing else: a new object after two workers reported in. */
  function TwoIdle(): State {
    State(None, None, [1, 2], map[], 0, [], 0, 0, [])
  }

  /**
   * Window 128 with no overlap: 256 samples give ONE window, because the
   * cut test is strict (128 + 128 < 256 fails for the second).
   */
  lemma ExactlyTwoWindowsOfDataGiveOne(xs: seq<real>)
    requires |xs| == 256
    ensures var t := Write(TwoIdle(), Array(xs), 16, 128, 128, 5).0;
      && t.events == [Job(2, 0, xs[0 .. 128])]
      && t.idle == [1] && t.next == 1 && t.shift == 128
  {
    var s1 := TwoIdle().(startTime := Some(5), samples := xs);
    assert [] + xs == xs;
    var a := Dispatch(s1, 128, 128);
    assert !CanCut(a, 128);
    assert Drain(s1, 128, 128) == Drain(a, 128, 128) == a;
    assert Write(TwoIdle(), Array(xs), 16, 128, 128, 5).0 == Process(s1, 128, 128, 5) == a;
  }

  /** One more sample and both windows are cut. */
  lemma OneMoreSampleGivesTwo(xs: seq<real>)
    requires |xs| == 257
    ensures var t := Write(TwoIdle(), Array(xs), 16, 128, 128, 5).0;
      && t.events == [Job(2, 0, xs[0 .. 128]), Job(1, 1, xs[128 .. 256])]
      && t.idle == [] && t.next == 2 && t.shift == 256
  {
    var s1 := TwoIdle().(startTime := Some(5), samples := xs);
    assert [] + xs == xs;
    var a := Dispatch(s1, 128, 128);
    var b := Dispatch(a, 128, 128);
    assert b.events == [Job(2, 0, xs[0 .. 128])] + [Job(1, 1, xs[128 .. 256])];
    assert Drain(s1, 128, 128) == Drain(a, 128, 128) == Drain(b, 128, 128) == b;
    assert Write(TwoIdle(), Array(xs), 16, 128, 128, 5).0 == Process(s1, 128, 128, 5) == b;
  }

  /** Half overlap (step 64) over 256 samples: windows at 0 and 64, not at 128. */
  lemma HalfOverlapGivesTwoWindows(xs: seq<real>)
    requires |xs| == 256
    ensures var s := State(None, None, [1, 2, 3], map[], 0, [], 0, 0, []);
      var t := Write(s, Array(xs), 16, 128, 64, 5).0;
      && t.events == [Job(3, 0, xs[0 .. 128]), Job(2, 1, xs[64 .. 192])]
      && t.idle == [1] && t.next == 2 && t.shift == 128
  {
    var s := State(None, None, [1, 2, 3], map[], 0, [], 0, 0, []);
    var s1 := s.(startTime := Some(5), samples := xs);
    assert [] + xs == xs;
    var a := Dispatch(s1, 128, 64);
    var b := Dispatch(a, 128, 64);
    assert b.events == [Job(3, 0, xs[0 .. 128])] + [Job(2, 1, xs[64 .. 192])];
    assert !CanCut(b, 128);
    assert Drain(s1, 128, 64) == Drain(a, 128, 64) == Drain(b, 128, 64) == b;
    assert Write(s, Array(xs), 16, 128, 64, 5).0 == Process(s1, 128, 64, 5) == b;
  }

  /**
   * With a step of 0 the shift never moves: every idle worker gets the same
   * first window, and only running out of idle workers ends the dispatching.
   */
  lemma ZeroStepRepeatsTheWindow(xs: seq<real>)
    requires |xs| == 129
    ensures var s := State(None, None, [1, 2, 3], map[], 0, [], 0, 0, []);
      var t := Write(s, Array(xs), 16, 128, 0, 5).0;
      && t.idle == [] && t.next == 3 && t.shift == 0
      && t.events == [Job(3, 0, xs[0 .. 128]), Job(2, 1, xs[0 .. 128]), Job(1, 2, xs[0 .. 128])]
  {
    var s := State(None, None, [1, 2, 3], map[], 0, [], 0, 0, []);
    var s1 := s.(startTime := Some(5), samples := xs);
    assert [] + xs == xs;
    var a := Dispatch(s1, 128, 0);
    var b := Dispatch(a, 128, 0);
    var c := Dispatch(b, 128, 0);
    assert Drain(s1, 128, 0) == Drain(a, 128, 0) == Drain(b, 128, 0) == Drain(c, 128, 0) == c;
    assert Write(s, Array(xs), 16, 128, 0, 5).0 == Process(s1, 128, 0, 5) == c;
  }

  /** Three workers report in, then 385 samples arrive: enough for three windows of 128. */
  function ThreeInFlightInputs(xs: seq<real>): seq<Input> {
    [MessageIn(1, ReadyForData(None), 0), MessageIn(2, ReadyForData(None), 0),
     MessageIn(3, ReadyForData(None), 0), WriteIn(Array(xs), 0)]
  }

  function ThreeInFlight(xs: seq<real>): State {
    Run(Initial(), ThreeInFlightInputs(xs), 16, 128, 128)
  }

  /** After the three reports the workers are idle, the last one on top. */
  lemma ThreeIdleIs(xs: seq<real>)
    ensures Run(Initial(), ThreeInFlightInputs(xs), 16, 128, 128)
         == Run(Initial().(idle := [1, 2, 3]), [WriteIn(Array(xs), 0)], 16, 128, 128)
  {
    var in3 := ThreeInFlightInputs(xs);
    var s0 := Initial();
    var s1 := Receive(s0, 1, ReadyForData(None), 128, 128, 0);
    assert s1 == s0.(idle := [1]);
    var s2 := Receive(s1, 2, ReadyForData(None), 128, 128, 0);
    assert s2 == s0.(idle := [1, 2]);
    var s3 := Receive(s2, 3, ReadyForData(None), 128, 128, 0);
    assert s3 == s0.(idle := [1, 2, 3]);
    assert in3[1..][1..][1..] == [WriteIn(Array(xs), 0)];
    assert Run(s0, in3, 16, 128, 128) == Run(s1, in3[1..], 16, 128, 128);
    assert Run(s1, in3[1..], 16, 128, 128) == Run(s2, in3[1..][1..], 16, 128, 128);
    assert Run(s2, in3[1..][1..], 16, 128, 128) == Run(s3, in3[1..][1..][1..], 16, 128, 128);
  }

  /** The three workers got the windows at 0, 128 and 256, last-registered first. */
  lemma ThreeInFlightIs(xs: seq<real>)
    requires |xs| == 385
    ensures ThreeInFlight(xs) == State(Some(0), None, [], map[], 0, xs, 384, 3,
      [Job(3, 0, xs[0 .. 128]), Job(2, 1, xs[128 .. 256]), Job(1, 2, xs[256 .. 384])])
  {
    ThreeIdleIs(xs);
    var s3 := Initial().(idle := [1, 2, 3]);
    var w1 := s3.(startTime := Some(0), samples := xs);
    assert [] + xs == xs;
    var a := Dispatch(w1, 128, 128);
    var b := Dispatch(a, 128, 128);
    var c := Dispatch(b, 128, 128);
    assert c.events == [Job(3, 0, xs[0 .. 128])] + [Job(2, 1, xs[128 .. 256])] + [Job(1, 2, xs[256 .. 384])];
    assert Drain(w1, 128, 128) == Drain(a, 128, 128) == Drain(b, 128, 128) == Drain(c, 128, 128) == c;
    assert Write(s3, Array(xs), 16, 128, 128, 0).0 == Process(w1, 128, 128, 0) == c;
    assert Run(s3, [WriteIn(Array(xs), 0)], 16, 128, 128) == Run(c, [], 16, 128, 128);
  }

  /**
   * Completion is judged by the table's length, not by the windows sent:
   * when the answer for window 0 arrives first, `end` is emitted with one
   * spectrum although windows 1 and 2 are still out; when the answer for
   * window 1 follows, `end` is emitted a second time.
   */
  lemma EndBeforeAllWindowsAnswered(xs: seq<real>, a: Spectrum, b: Spectrum)
    requires |xs| == 385
    ensures var s := ThreeInFlight(xs);
      var t := Receive(s, 3, ReadyForData(Some((0, a))), 128, 128, 10);
      && s.next == 3 && t.next == 3
      && t.events == s.events + [Data(0, a), End(map[0 := a], 1)]
      && t.execTime == Some(10)
    ensures var s := ThreeInFlight(xs);
      var t := Receive(s, 3, ReadyForData(Some((0, a))), 128, 128, 10);
      var u := Receive(t, 2, ReadyForData(Some((1, b))), 128, 128, 20);
      u.events == t.events + [Data(1, b), End(map[0 := a, 1 := b], 2)]
  {
    ThreeInFlightIs(xs);
  }

  /** Answers that arrive out of order still fill the table by index. */
  lemma OutOfOrderAnswers(xs: seq<real>, a: Spectrum, b: Spectrum)
    requires |xs| == 385
    ensures var s := ThreeInFlight(xs);
      var t := Receive(s, 2, ReadyForData(Some((1, b))), 128, 128, 10);
      var u := Receive(t, 3, ReadyForData(Some((0, a))), 128, 128, 20);
      && t.events == s.events + [Data(1, b)]
      && u.events == t.events + [Data(0, a), End(map[0 := a, 1 := b], 2)]
  {
    ThreeInFlightIs(xs);
    var s := ThreeInFlight(xs);
    var s1 := Store(s, 1, b).(idle := [2]);
    assert !CanCut(s1, 128) && Drain(s1, 128, 128) == s1;
    assert !AllPresent(s1.data, s1.length) by {
      assert 0 !in s1.data;
    }
    var t := Receive(s, 2, ReadyForData(Some((1, b))), 128, 128, 10);
    assert t == s1;
    var t1 := Store(t, 0, a).(idle := [2, 3]);
    assert !CanCut(t1, 128) && Drain(t1, 128, 128) == t1;
    assert t1.data == map[0 := a, 1 := b] && t1.length == 2;
    assert AllPresent(t1.data, t1.length);
  }

  /** The state with three windows in flight is reachable, so it keeps the invariant. */
  lemma ThreeInFlightInv(xs: seq<real>)
    ensures Inv(ThreeInFlight(xs), 128)
  {
    ReachableInv(ThreeInFlightInputs(xs), 16, 128, 128);
  }
}
