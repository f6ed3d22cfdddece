/**
 * The control logic of a Spectrogram object as a state machine over its
 * fields: the sample buffer, the shift cursor, the next window index, the
 * idle-worker stack and the sparse result table.  Each event the object
 * reacts to (a write, a worker's message, stop, clear) is a function from
 * the old state to the new one; what the object sends to its workers and
 * emits to its listeners is appended to an event log.
 */
module Scheduler {
  import opened Wrappers
  import Pcm

  /** Workers are opaque; the model only needs to tell them apart. */
  type WorkerId = nat

  /** A worker's result is opaque to the control logic. */
  type Spectrum = seq<real>

  datatype Event =
    | Job(worker: WorkerId, index: nat, window: seq<real>)   // a `processData` message to a worker
    | Data(index: nat, spectrum: Spectrum)                   // the `data` event
    | End(spectrogram: map<nat, Spectrum>, length: nat)      // the `end` event with the result table

  /**
   * The fields of a Spectrogram object.  `data` and `length` together are
   * the JS array of results: `length` is one more than the highest index
   * stored, or 0.
   */
  datatype State = State(
    startTime: Option<int>,
    execTime: Option<int>,
    idle: seq<WorkerId>,
    data: map<nat, Spectrum>,
    length: nat,
    samples: seq<real>,
    shift: nat,
    next: nat,
    events: seq<Event>)

  /** The state right after construction. */
  function Initial(): State {
    State(None, None, [], map[], 0, [], 0, 0, [])
  }

  // ---------------------------------------------------------------------
  // Cutting and dispatching windows
  // ---------------------------------------------------------------------

  /** The (strict) test for enough data to cut the next window of w samples. */
  predicate CanCut(s: State, w: nat) {
    s.shift + w < |s.samples|
  }

  /** One dispatch: pop the last idle worker and send it the next window. */
  function Dispatch(s: State, w: nat, step: nat): State
    requires CanCut(s, w) && s.idle != []
  {
    var worker := s.idle[|s.idle| - 1];
    s.(idle := s.idle[..|s.idle| - 1],
       events := s.events + [Job(worker, s.next, s.samples[s.shift .. s.shift + w])],
       next := s.next + 1,
       shift := s.shift + step)
  }

  /** Dispatches until the data run short or no worker is idle. */
  function Drain(s: State, w: nat, step: nat): State
    decreases |s.idle|
  {
    if CanCut(s, w) && s.idle != [] then Drain(Dispatch(s, w, step), w, step) else s
  }

  predicate AllPresent(data: map<nat, Spectrum>, length: nat) {
    forall i :: 0 <= i < length ==> i in data
  }

  /**
   * The completion check, made when no window can be cut: with a
   * non-empty table whose every index below its length is filled, record
   * the execution time and emit `end`.  A missing start time counts as 0.
   */
  function Finish(s: State, now: int): State {
    if s.length == 0 then s
    else if AllPresent(s.data, s.length) then
      s.(execTime := Some(now - s.startTime.GetOr(0)), events := s.events + [End(s.data, s.length)])
    else s
  }

  /** `__process`: drain, then check completion unless a window is still cuttable. */
  function Process(s: State, w: nat, step: nat, now: int): State {
    var d := Drain(s, w, step);
    if CanCut(d, w) then d else Finish(d, now)
  }

  // ---------------------------------------------------------------------
  // Writes
  // ---------------------------------------------------------------------

  /**
   * The shapes a chunk can have: a binary buffer, an array, any other object
   * (its entries in for-in order; `null` is one with no entries), or a value
   * of some other type, named by its `typeof`.
   */
  datatype Chunk =
    | Binary(bytes: seq<Pcm.Byte>)
    | Array(items: seq<real>)
    | Keyed(entries: seq<(string, real)>)
    | Primitive(typeName: string)

  /** How a write ends: callback(null), callback(error), or an exception from the reader. */
  datatype Outcome = Accepted | Rejected(typeName: string) | Thrown

  function Values(entries: seq<(string, real)>): (r: seq<real>)
    ensures |r| == |entries|
    ensures forall i :: 0 <= i < |entries| ==> r[i] == entries[i].1
  {
    seq(|entries|, i requires 0 <= i < |entries| => entries[i].1)
  }

  /** Marks the start of the run unless it is already marked. */
  function Started(s: State, now: int): State {
    if s.startTime.None? then s.(startTime := Some(now)) else s
  }

  /**
   * `_write`.  A binary chunk whose length is not a whole number of samples
   * has its whole samples appended before the read past its end throws.
   */
  function Write(s: State, chunk: Chunk, bps: nat, w: nat, step: nat, now: int): (State, Outcome) {
    var s1 := Started(s, now);
    match chunk
    case Binary(bytes) =>
      var width := Pcm.BytesPerSample(bps);
      var s2 := s1.(samples := s1.samples + Pcm.DecodeSamples(bytes, width));
      if Pcm.Remainder(bytes, width) != 0 then (s2, Thrown) else (Process(s2, w, step, now), Accepted)
    case Array(items) => (Process(s1.(samples := s1.samples + items), w, step, now), Accepted)
    case Keyed(entries) => (Process(s1.(samples := s1.samples + Values(entries)), w, step, now), Accepted)
    case Primitive(t) => (s1, Rejected(t))
  }

  // ---------------------------------------------------------------------
  // Worker messages, stop and clear
  // ---------------------------------------------------------------------

  datatype Message =
    | ReadyForData(result: Option<(nat, Spectrum)>)
    | ErrorReport
    | OtherStatus(status: string)

  /** Stores a result at its index (raising the length as a JS array does) and emits `data`. */
  function Store(s: State, index: nat, spectrum: Spectrum): State {
    s.(data := s.data[index := spectrum],
       length := if s.length < index + 1 then index + 1 else s.length,
       events := s.events + [Data(index, spectrum)])
  }

  /** The message handler bound to each worker by `start`. */
  function Receive(s: State, worker: WorkerId, msg: Message, w: nat, step: nat, now: int): State {
    match msg
    case ReadyForData(result) =>
      var s1 := if result.Some? then Store(s, result.value.0, result.value.1) else s;
      Process(s1.(idle := s1.idle + [worker]), w, step, now)
    case ErrorReport => s
    case OtherStatus(_) => s
  }

  /** `stop`: the workers are gone, so none is idle. */
  function Stop(s: State): State {
    s.(idle := [])
  }

  /** `clear`: stop, then forget the start time, the results and the samples. */
  function Clear(s: State): State {
    Stop(s).(startTime := None, data := map[], length := 0, samples := [])
  }

  /** Anything that can happen to the object. */
  datatype Input =
    | WriteIn(chunk: Chunk, now: int)
    | MessageIn(worker: WorkerId, msg: Message, now: int)
    | StopIn
    | ClearIn

  function Apply(s: State, input: Input, bps: nat, w: nat, step: nat): State {
    match input
    case WriteIn(chunk, now) => Write(s, chunk, bps, w, step, now).0
    case MessageIn(worker, msg, now) => Receive(s, worker, msg, w, step, now)
    case StopIn => Stop(s)
    case ClearIn => Clear(s)
  }

  function Run(s: State, inputs: seq<Input>, bps: nat, w: nat, step: nat): State
    decreases |inputs|
  {
    if inputs == [] then s else Run(Apply(s, inputs[0], bps, w, step), inputs[1..], bps, w, step)
  }

  // ---------------------------------------------------------------------
  // What one __process call sends
  // ---------------------------------------------------------------------

  /** The window of w samples starting at `start`. */
  function WindowAt(samples: seq<real>, start: nat, w: nat): seq<real>
    requires start + w <= |samples|
  {
    samples[start .. start + w]
  }

  /** The k-th of the jobs sent from s: the worker k below the top, index s.next + k, k steps on. */
  ghost predicate SentKth(s: State, d: State, w: nat, step: nat, k: nat)
    requires |s.events| + k < |d.events| && k < |s.idle|
  {
    && s.shift + k * step + w < |s.samples|
    && d.events[|s.events| + k] == Job(s.idle[|s.idle| - 1 - k], s.next + k, WindowAt(s.samples, s.shift + k * step, w))
  }

  /** Nothing but the dispatching fields differ between s and d. */
  ghost predicate OthersKept(s: State, d: State) {
    && d.samples == s.samples && d.data == s.data && d.length == s.length
    && d.startTime == s.startTime && d.execTime == s.execTime
  }

  /**
   * d is s after n dispatches, n being the number of workers taken from
   * the idle stack: the workers are taken from the top, the windows carry
   * the consecutive indices from s.next and start every step samples from
   * s.shift, each was cuttable when it was cut, and nothing else changed.
   */
  ghost predicate DispatchedFrom(s: State, d: State, w: nat, step: nat) {
    var n := |s.idle| - |d.idle|;
    && |d.idle| <= |s.idle|
    && d.idle == s.idle[..|d.idle|]
    && d.next == s.next + n
    && d.shift == s.shift + n * step
    && OthersKept(s, d)
    && |d.events| == |s.events| + n && d.events[..|s.events|] == s.events
    && forall k: nat :: k < n ==> SentKth(s, d, w, step, k)
  }

  /** One dispatch in front of a run of dispatches is a run of dispatches. */
  lemma DispatchedFromStep(s: State, w: nat, step: nat, d: State)
    requires CanCut(s, w) && s.idle != []
    requires DispatchedFrom(Dispatch(s, w, step), d, w, step)
    ensures DispatchedFrom(s, d, w, step)
  {
    var s' := Dispatch(s, w, step);
    var n := |s.idle| - |d.idle|;
    assert |s'.idle| - |d.idle| == n - 1;
    assert d.shift == s.shift + n * step by {
      assert d.shift == s.shift + step + (n - 1) * step;
    }
    assert d.events[..|s.events|] == s.events by {
      assert d.events[..|s'.events|] == s'.events;
      assert s'.events[..|s.events|] == s.events;
    }
    assert d.idle == s.idle[..|d.idle|] by {
      assert s'.idle == s.idle[..|s.idle| - 1];
    }
    forall k: nat | k < n
      ensures SentKth(s, d, w, step, k)
    {
      if k == 0 {
        assert d.events[|s.events|] == s'.events[|s.events|];
      } else {
        SentShifted(s, w, step, d, k);
      }
    }
  }

  lemma SentShifted(s: State, w: nat, step: nat, d: State, k: nat)
    requires CanCut(s, w) && s.idle != []
    requires 0 < k && |s.events| + k < |d.events| && k < |s.idle|
    requires SentKth(Dispatch(s, w, step), d, w, step, k - 1)
    ensures SentKth(s, d, w, step, k)
  {
    var s' := Dispatch(s, w, step);
    assert s'.shift + (k - 1) * step == s.shift + k * step;
    assert s'.idle[|s'.idle| - 1 - (k - 1)] == s.idle[|s.idle| - 1 - k];
  }

  lemma {:induction false} DrainDispatches(s: State, w: nat, step: nat)
    ensures DispatchedFrom(s, Drain(s, w, step), w, step)
    ensures Drain(s, w, step).idle == [] || !CanCut(Drain(s, w, step), w)
    decreases |s.idle|
  {
    if CanCut(s, w) && s.idle != [] {
      var s' := Dispatch(s, w, step);
      DrainDispatches(s', w, step);
      DispatchedFromStep(s, w, step, Drain(s', w, step));
    } else {
      assert s.idle[..|s.idle|] == s.idle;
      assert s.events[..|s.events|] == s.events;
    }
  }

  /** With no idle worker a cuttable window is left for later and nothing changes. */
  lemma NoIdleWorkerNoChange(s: State, w: nat, step: nat, now: int)
    requires CanCut(s, w) && s.idle == []
    ensures Process(s, w, step, now) == s
  {
  }

  /**
   * `__process` appends the jobs of its dispatches and then at most one
   * `end`; `end` comes exactly when no window can be cut any more and the
   * result table is non-empty with all of its indices filled.
   */
  lemma {:induction false} ProcessEmits(s: State, w: nat, step: nat, now: int)
    ensures var d := Drain(s, w, step);
      var p := Process(s, w, step, now);
      && DispatchedFrom(s, d, w, step)
      && p.events[..|d.events|] == d.events
      && |d.events| <= |p.events| <= |d.events| + 1
      && (|p.events| == |d.events| + 1 <==> !CanCut(d, w) && s.length > 0 && AllPresent(s.data, s.length))
      && (|p.events| == |d.events| + 1 ==>
            p.events[|d.events|] == End(s.data, s.length) && p.execTime == Some(now - s.startTime.GetOr(0)))
      && p.(events := d.events, execTime := d.execTime) == d
      && (|p.events| == |d.events| ==> p == d)
  {
    DrainDispatches(s, w, step);
  }

  // ---------------------------------------------------------------------
  // The invariant every reachable state keeps
  // ---------------------------------------------------------------------

  /** The indices of the jobs in a log, in order. */
  function JobIndices(events: seq<Event>): seq<nat>
    decreases |events|
  {
    if events == [] then []
    else
      var last := events[|events| - 1];
      JobIndices(events[..|events| - 1]) + (if last.Job? then [last.index] else [])
  }

  lemma {:induction false} JobIndicesAppend(a: seq<Event>, b: seq<Event>)
    ensures JobIndices(a + b) == JobIndices(a) + JobIndices(b)
    decreases |b|
  {
    if b == [] {
      assert a + b == a;
    } else {
      var b' := b[..|b| - 1];
      assert (a + b)[..|a + b| - 1] == a + b';
      assert (a + b)[|a + b| - 1] == b[|b| - 1];
      JobIndicesAppend(a, b');
    }
  }

  /** `length` is one more than the highest stored index, or 0 when nothing is stored. */
  predicate LengthMatches(data: map<nat, Spectrum>, length: nat) {
    && (forall k :: k in data ==> k < length)
    && (length > 0 ==> length - 1 in data)
  }

  /** Every `end` in the log carries a non-empty table with no hole. */
  predicate EndsComplete(events: seq<Event>) {
    forall j :: 0 <= j < |events| && events[j].End? ==>
      events[j].length > 0 && AllPresent(events[j].spectrogram, events[j].length)
  }

  /**
   * The jobs ever sent carry the indices 0, 1, ..., next - 1 in that order
   * (no gap, no repeat); the shift cursor is next steps from the start.
   */
  predicate Inv(s: State, step: nat) {
    && s.shift == s.next * step
    && LengthMatches(s.data, s.length)
    && |JobIndices(s.events)| == s.next
    && (forall k :: 0 <= k < |JobIndices(s.events)| ==> JobIndices(s.events)[k] == k)
    && EndsComplete(s.events)
  }

  lemma InitialInv(step: nat)
    ensures Inv(Initial(), step)
  {
  }

  lemma DispatchInv(s: State, w: nat, step: nat)
    requires Inv(s, step) && CanCut(s, w) && s.idle != []
    ensures Inv(Dispatch(s, w, step), step)
  {
    var t := Dispatch(s, w, step);
    var job := Job(s.idle[|s.idle| - 1], s.next, s.samples[s.shift .. s.shift + w]);
    assert t.events == s.events + [job];
    Distributes(s.next, 1, step);
    assert t.shift == t.next * step;
    JobIndicesAppend(s.events, [job]);
    assert JobIndices([job]) == [s.next] by {
      assert [job][..0] == [];
    }
    var js := JobIndices(t.events);
    assert js == JobIndices(s.events) + [s.next];
    forall k | 0 <= k < |js|
      ensures js[k] == k
    {
      if k < s.next {
        assert js[k] == JobIndices(s.events)[k];
      }
    }
    forall j | 0 <= j < |t.events| && t.events[j].End?
      ensures t.events[j].length > 0 && AllPresent(t.events[j].spectrogram, t.events[j].length)
    {
      assert j < |s.events| && t.events[j] == s.events[j];
    }
  }

  lemma {:induction false} DrainInv(s: State, w: nat, step: nat)
    requires Inv(s, step)
    ensures Inv(Drain(s, w, step), step)
    decreases |s.idle|
  {
    if CanCut(s, w) && s.idle != [] {
      DispatchInv(s, w, step);
      DrainInv(Dispatch(s, w, step), w, step);
    }
  }

  lemma JobIndicesOfOther(e: Event)
    requires !e.Job?
    ensures JobIndices([e]) == []
  {
    assert [e][..0] == [];
  }

  lemma ProcessInv(s: State, w: nat, step: nat, now: int)
    requires Inv(s, step)
    ensures Inv(Process(s, w, step, now), step)
  {
    DrainInv(s, w, step);
    var d := Drain(s, w, step);
    if !CanCut(d, w) && d.length > 0 && AllPresent(d.data, d.length) {
      var e := End(d.data, d.length);
      JobIndicesAppend(d.events, [e]);
      JobIndicesOfOther(e);
    }
  }

  lemma WriteInv(s: State, chunk: Chunk, bps: nat, w: nat, step: nat, now: int)
    requires Inv(s, step)
    ensures Inv(Write(s, chunk, bps, w, step, now).0, step)
  {
    var s1 := Started(s, now);
    match chunk
    case Binary(bytes) =>
      ProcessInv(s1.(samples := s1.samples + Pcm.DecodeSamples(bytes, Pcm.BytesPerSample(bps))), w, step, now);
    case Array(items) =>
      ProcessInv(s1.(samples := s1.samples + items), w, step, now);
    case Keyed(entries) =>
      ProcessInv(s1.(samples := s1.samples + Values(entries)), w, step, now);
    case Primitive(_) =>
  }

  lemma StoreInv(s: State, index: nat, spectrum: Spectrum, step: nat)
    requires Inv(s, step)
    ensures Inv(Store(s, index, spectrum), step)
  {
    var e := Data(index, spectrum);
    JobIndicesAppend(s.events, [e]);
    JobIndicesOfOther(e);
  }

  lemma ReceiveInv(s: State, worker: WorkerId, msg: Message, w: nat, step: nat, now: int)
    requires Inv(s, step)
    ensures Inv(Receive(s, worker, msg, w, step, now), step)
  {
    if msg.ReadyForData? {
      var s1 := if msg.result.Some? then Store(s, msg.result.value.0, msg.result.value.1) else s;
      if msg.result.Some? {
        StoreInv(s, msg.result.value.0, msg.result.value.1, step);
      }
      ProcessInv(s1.(idle := s1.idle + [worker]), w, step, now);
    }
  }

  lemma {:induction false} RunInv(s: State, inputs: seq<Input>, bps: nat, w: nat, step: nat)
    requires Inv(s, step)
    ensures Inv(Run(s, inputs, bps, w, step), step)
    decreases |inputs|
  {
    if inputs != [] {
      var t := Apply(s, inputs[0], bps, w, step);
      match inputs[0] {
        case WriteIn(chunk, now) => WriteInv(s, chunk, bps, w, step, now);
        case MessageIn(worker, msg, now) => ReceiveInv(s, worker, msg, w, step, now);
        case StopIn =>
        case ClearIn =>
      }
      RunInv(t, inputs[1..], bps, w, step);
    }
  }

  /**
   * Whatever happens to a new object, the jobs it has sent carry the
   * indices 0 .. next-1 in order, and every `end` it emitted carried a
   * table with no hole.
   */
  lemma ReachableInv(inputs: seq<Input>, bps: nat, w: nat, step: nat)
    ensures Inv(Run(Initial(), inputs, bps, w, step), step)
  {
    InitialInv(step);
    RunInv(Initial(), inputs, bps, w, step);
  }

  lemma Distributes(a: nat, b: nat, c: nat)
    ensures a * c + b * c == (a + b) * c
  {
  }

  /** e is a job whose window is the w samples that start `index` steps into the buffer. */
  predicate CarriesItsWindow(e: Event, samples: seq<real>, w: nat, step: nat) {
    && e.Job?
    && var start := e.index * step;
      && start + w < |samples|
      && e.window == samples[start .. start + w]
  }

  /** The job sent k-th from s, in terms of its own index. */
  lemma KthByIndex(s: State, d: State, w: nat, step: nat, k: nat)
    requires s.shift == s.next * step
    requires |s.events| + k < |d.events| && k < |s.idle|
    requires SentKth(s, d, w, step, k)
    ensures CarriesItsWindow(d.events[|s.events| + k], s.samples, w, step)
  {
    Distributes(s.next, k, step);
  }

  /**
   * Given the invariant, the window sent with index i is the slice of the
   * sample buffer starting i steps in.
   */
  lemma WindowsByIndex(s: State, w: nat, step: nat)
    requires Inv(s, step)
    ensures var d := Drain(s, w, step);
      forall j :: |s.events| <= j < |d.events| ==> CarriesItsWindow(d.events[j], s.samples, w, step)
  {
    DrainDispatches(s, w, step);
    var d := Drain(s, w, step);
    forall j | |s.events| <= j < |d.events|
      ensures CarriesItsWindow(d.events[j], s.samples, w, step)
    {
      KthByIndex(s, d, w, step, j - |s.events|);
    }
  }

  // ---------------------------------------------------------------------
  // What each event changes
  // ---------------------------------------------------------------------

  /**
   * A write marks the start time if it was unmarked, appends the chunk's
   * samples behind the old ones and only then dispatches; a chunk of an
   * unknown type is reported and appends nothing; a binary chunk with a
   * partial last sample appends its whole samples and dispatches nothing.
   * Every accepted write ends with one `__process` run on the appended state.
   */
  lemma WriteEffect(s: State, chunk: Chunk, bps: nat, w: nat, step: nat, now: int)
    ensures var t := Write(s, chunk, bps, w, step, now).0;
      t.startTime == if s.startTime.None? then Some(now) else s.startTime
    ensures chunk.Primitive? ==>
      Write(s, chunk, bps, w, step, now) == (s.(startTime := Started(s, now).startTime), Rejected(chunk.typeName))
    ensures chunk.Array? ==>
      var (t, o) := Write(s, chunk, bps, w, step, now);
      o == Accepted && t.samples == s.samples + chunk.items
    ensures chunk.Keyed? ==>
      var (t, o) := Write(s, chunk, bps, w, step, now);
      o == Accepted && t.samples == s.samples + Values(chunk.entries)
    ensures chunk.Binary? ==>
      var (t, o) := Write(s, chunk, bps, w, step, now);
      var width := Pcm.BytesPerSample(bps);
      && t.samples == s.samples + Pcm.DecodeSamples(chunk.bytes, width)
      && (o == Thrown <==> Pcm.Remainder(chunk.bytes, width) != 0)
      && (o == Thrown || o == Accepted)
      && (o == Thrown ==> t == s.(startTime := Started(s, now).startTime, samples := t.samples))
    ensures var t := Write(s, chunk, bps, w, step, now).0;
      t.data == s.data && t.length == s.length && |t.events| >= |s.events| && t.events[..|s.events|] == s.events
    ensures var (t, o) := Write(s, chunk, bps, w, step, now);
      o == Accepted ==>
        var a := Started(s, now).(samples := t.samples);
        var d := Drain(a, w, step);
        && DispatchedFrom(a, d, w, step)
        && t.events[..|d.events|] == d.events && |t.events| <= |d.events| + 1
        && t.(events := d.events, execTime := d.execTime) == d
  {
    var s1 := Started(s, now);
    match chunk
    case Binary(bytes) =>
      ProcessEmits(s1.(samples := s1.samples + Pcm.DecodeSamples(bytes, Pcm.BytesPerSample(bps))), w, step, now);
    case Array(items) =>
      ProcessEmits(s1.(samples := s1.samples + items), w, step, now);
    case Keyed(entries) =>
      ProcessEmits(s1.(samples := s1.samples + Values(entries)), w, step, now);
    case Primitive(_) =>
  }

  /**
   * A `readyForData` message stores its result (if it has one) and emits
   * `data` before anything else, and puts the worker on top of the idle
   * stack, so that it is the first to get the next window, and then runs
   * `__process` on the pushed state; any other message changes nothing.
   */
  lemma ReceiveEffect(s: State, worker: WorkerId, msg: Message, w: nat, step: nat, now: int)
    ensures !msg.ReadyForData? ==> Receive(s, worker, msg, w, step, now) == s
    ensures msg.ReadyForData? ==>
      var t := Receive(s, worker, msg, w, step, now);
      && |t.idle| <= |s.idle| + 1 && t.idle == (s.idle + [worker])[..|t.idle|]
      && t.samples == s.samples
      && (msg.result.None? ==> t.data == s.data && t.length == s.length)
    ensures msg.ReadyForData? && msg.result.Some? ==>
      var t := Receive(s, worker, msg, w, step, now);
      var (i, sp) := msg.result.value;
      && t.data == s.data[i := sp]
      && t.length == (if s.length < i + 1 then i + 1 else s.length)
      && |t.events| > |s.events| && t.events[..|s.events|] == s.events && t.events[|s.events|] == Data(i, sp)
    ensures msg.ReadyForData? ==>
      var t := Receive(s, worker, msg, w, step, now);
      var s1 := if msg.result.Some? then Store(s, msg.result.value.0, msg.result.value.1) else s;
      var a := s1.(idle := s1.idle + [worker]);
      var d := Drain(a, w, step);
      && DispatchedFrom(a, d, w, step)
      && t.events[..|d.events|] == d.events && |t.events| <= |d.events| + 1
      && t.(events := d.events, execTime := d.execTime) == d
  {
    if msg.ReadyForData? {
      var s1 := if msg.result.Some? then Store(s, msg.result.value.0, msg.result.value.1) else s;
      var pushed := s1.(idle := s1.idle + [worker]);
      ProcessEmits(pushed, w, step, now);
      var t := Receive(s, worker, msg, w, step, now);
      assert t.events[..|s1.events|] == s1.events by {
        assert t.events[..|Drain(pushed, w, step).events|] == Drain(pushed, w, step).events;
      }
    }
  }

  /** Results stored in either order give the same table. */
  lemma StoreCommutes(s: State, i: nat, a: Spectrum, j: nat, b: Spectrum)
    requires i != j
    ensures Store(Store(s, i, a), j, b).data == Store(Store(s, j, b), i, a).data
    ensures Store(Store(s, i, a), j, b).length == Store(Store(s, j, b), i, a).length
  {
  }

  /**
   * Clear keeps the shift cursor and the window index: after a clear, a
   * fresh buffer and a freed worker, the first window sent has the old
   * index and starts at the old shift, not at 0.
   */
  lemma ClearKeepsCursor(s: State, items: seq<real>, worker: WorkerId, bps: nat, w: nat, step: nat, now: int)
    requires s.shift + w < |items|
    ensures var t := Write(Clear(s), Array(items), bps, w, step, now).0;
      var u := Receive(t, worker, ReadyForData(None), w, step, now);
      && t.events == s.events
      && |u.events| > |s.events|
      && u.events[|s.events|] == Job(worker, s.next, items[s.shift .. s.shift + w])
      && u.next == s.next + 1
      && u.shift == s.shift + step
  {
    var c := Clear(s);
    var c1 := Started(c, now).(samples := items);
    ProcessEmits(c1, w, step, now);
    var t := Write(c, Array(items), bps, w, step, now).0;
    assert t == c1;
    var pushed := t.(idle := [worker]);
    DrainDispatches(pushed, w, step);
    var d := Drain(pushed, w, step);
    assert |pushed.idle| - |d.idle| == 1;
    assert SentKth(pushed, d, w, step, 0);
  }
}
