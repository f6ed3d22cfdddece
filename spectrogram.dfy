/**
 * The Spectrogram object itself: its fields change in place as writes,
 * worker messages, stop and clear arrive.  Every method is proved to move
 * the fields exactly as the matching function of the Scheduler module
 * moves a State, and to keep the scheduler's invariant.
 */
module Spectro {
  import opened Wrappers
  import Options
  import Pcm
  import opened Scheduler

  class Spectrogram {
    const cfg: Options.Config
    /** wSize - ceil(overlap * wSize) */
    const step: nat

    var startTime: Option<int>
    var execTime: Option<int>
    var idleWorkers: seq<WorkerId>
    var data: map<nat, Spectrum>
    var dataLength: nat
    var wData: seq<real>
    var wShift: nat
    var wIdx: nat
    /** What was sent to workers and emitted to listeners, oldest first. */
    var events: seq<Event>

    function Fields(): State
      reads this
    {
      State(startTime, execTime, idleWorkers, data, dataLength, wData, wShift, wIdx, events)
    }

    ghost predicate Valid()
      reads this
    {
      Options.ValidConfig(cfg) && step == Options.Step(cfg) && Inv(Fields(), step)
    }

    /** The fields after a successful validation. */
    constructor (c: Options.Config)
      requires Options.ValidConfig(c)
      ensures Valid() && cfg == c && Fields() == Initial()
    {
      cfg := c;
      step := Options.Step(c);
      startTime := None;
      execTime := None;
      idleWorkers := [];
      data := map[];
      dataLength := 0;
      wData := [];
      wShift := 0;
      wIdx := 0;
      events := [];
      new;
      InitialInv(step);
    }

    /** The loop over [0, data.length) that looks for a missing result. */
    method AllPackagesProcessed() returns (all: bool)
      ensures all <==> AllPresent(data, dataLength)
    {
      all := true;
      var i := 0;
      while i < dataLength
        invariant 0 <= i <= dataLength
        invariant all
        invariant forall k :: 0 <= k < i ==> k in data
      {
        if i !in data {
          all := false;
          break;
        }
        i := i + 1;
      }
    }

    /** `__process`, with its tail recursion written as a loop. */
    method Process(now: int)
      requires Valid()
      modifies this
      ensures Valid()
      ensures Fields() == Scheduler.Process(old(Fields()), cfg.wSize, step, now)
    {
      ghost var s0 := Fields();
      while wShift + cfg.wSize < |wData| && idleWorkers != []
        invariant Drain(Fields(), cfg.wSize, step) == Drain(s0, cfg.wSize, step)
        decreases |idleWorkers|
      {
        ghost var before := Fields();
        var worker := idleWorkers[|idleWorkers| - 1];
        idleWorkers := idleWorkers[..|idleWorkers| - 1];
        var workData := wData[wShift .. wShift + cfg.wSize];
        events := events + [Job(worker, wIdx, workData)];
        wIdx := wIdx + 1;
        wShift := wShift + step;
        assert Fields() == Dispatch(before, cfg.wSize, step);
      }
      ghost var d := Fields();
      assert d == Drain(s0, cfg.wSize, step);
      if !(wShift + cfg.wSize < |wData|) && dataLength > 0 {
        var all := AllPackagesProcessed();
        if all {
          execTime := Some(now - startTime.GetOr(0));
          events := events + [End(data, dataLength)];
        }
        assert Fields() == Finish(d, now);
      }
      assert Fields() == Scheduler.Process(s0, cfg.wSize, step, now);
      ProcessInv(s0, cfg.wSize, step, now);
    }

    /**
     * The push loop of the binary branch: whole samples are appended in
     * order; `thrown` is the read past the end of a chunk that ends inside
     * a sample, which comes after the whole samples were appended.
     */
    method PushDecoded(bytes: seq<Pcm.Byte>) returns (thrown: bool)
      modifies this
      ensures Fields() == old(Fields()).(samples := old(wData) + Pcm.DecodeSamples(bytes, Pcm.BytesPerSample(cfg.bps)))
      ensures thrown <==> Pcm.Remainder(bytes, Pcm.BytesPerSample(cfg.bps)) != 0
    {
      var divisor := Pcm.BytesPerSample(cfg.bps);
      ghost var s0 := Fields();
      // The source counts reads up to chunk.length / divisor; `off` is the
      // byte offset of the next read.
      var off := 0;
      while off < |bytes|
        invariant 0 <= off <= |bytes|
        invariant wData + Pcm.DecodeSamples(bytes[off..], divisor) == s0.samples + Pcm.DecodeSamples(bytes, divisor)
        invariant Pcm.Remainder(bytes[off..], divisor) == Pcm.Remainder(bytes, divisor)
        invariant Fields() == s0.(samples := wData)
        decreases |bytes| - off
      {
        if off + divisor > |bytes| {
          assert Pcm.DecodeSamples(bytes[off..], divisor) == [];
          assert wData + [] == wData;
          assert Pcm.Remainder(bytes[off..], divisor) != 0;
          return true;
        }
        ghost var rest := bytes[off..];
        var sample := Pcm.SignedLE(bytes[off .. off + divisor]) as real;
        assert rest[..divisor] == bytes[off .. off + divisor];
        assert rest[divisor..] == bytes[off + divisor..];
        ghost var tail := Pcm.DecodeSamples(bytes[off + divisor..], divisor);
        assert Pcm.DecodeSamples(rest, divisor) == [sample] + tail;
        assert Pcm.Remainder(rest, divisor) == Pcm.Remainder(bytes[off + divisor..], divisor);
        assert (wData + [sample]) + tail == wData + ([sample] + tail);
        wData := wData + [sample];
        off := off + divisor;
      }
      assert bytes[off..] == [];
      assert wData + [] == wData;
      return false;
    }

    /** The push loops of the array and object branches. */
    method PushAll(items: seq<real>)
      modifies this
      ensures Fields() == old(Fields()).(samples := old(wData) + items)
    {
      ghost var s0 := Fields();
      var i := 0;
      while i < |items|
        invariant 0 <= i <= |items|
        invariant Fields() == s0.(samples := s0.samples + items[..i])
      {
        assert items[..i + 1] == items[..i] + [items[i]];
        wData := wData + [items[i]];
        i := i + 1;
      }
      assert items[..i] == items;
    }

    /**
     * `_write`.  The outcome stands for the callback: Accepted is
     * callback(null), Rejected is callback(error); Thrown is the reader's
     * exception when a binary chunk ends inside a sample.
     */
    method Write(chunk: Chunk, now: int) returns (outcome: Outcome)
      requires Valid()
      modifies this
      ensures Valid()
      ensures (Fields(), outcome) == Scheduler.Write(old(Fields()), chunk, cfg.bps, cfg.wSize, step, now)
    {
      if startTime.None? {
        startTime := Some(now);
      }
      match chunk {
        case Binary(bytes) =>
          var thrown := PushDecoded(bytes);
          if thrown {
            return Thrown;
          }
          Process(now);
          outcome := Accepted;
        case Array(items) =>
          PushAll(items);
          Process(now);
          outcome := Accepted;
        case Keyed(entries) =>
          PushAll(Values(entries));
          Process(now);
          outcome := Accepted;
        case Primitive(t) =>
          outcome := Rejected(t);
      }
    }

    /** The `message` handler that `start` binds to a worker. */
    method OnMessage(worker: WorkerId, msg: Message, now: int)
      requires Valid()
      modifies this
      ensures Valid()
      ensures Fields() == Receive(old(Fields()), worker, msg, cfg.wSize, step, now)
    {
      ghost var s0 := Fields();
      match msg {
        case ReadyForData(result) =>
          if result.Some? {
            var (index, spectrum) := result.value;
            data := data[index := spectrum];
            if dataLength < index + 1 {
              dataLength := index + 1;
            }
            events := events + [Data(index, spectrum)];
            assert Fields() == Store(s0, index, spectrum);
            StoreInv(s0, index, spectrum, step);
          }
          idleWorkers := idleWorkers + [worker];
          Process(now);
        case ErrorReport =>
        case OtherStatus(_) =>
      }
    }

    /** `stop`: no worker is left to be idle; nothing else changes. */
    method Stop()
      requires Valid()
      modifies this
      ensures Valid()
      ensures idleWorkers == []
      ensures wData == old(wData) && data == old(data) && dataLength == old(dataLength)
      ensures wShift == old(wShift) && wIdx == old(wIdx)
      ensures startTime == old(startTime) && execTime == old(execTime) && events == old(events)
      ensures Fields() == Scheduler.Stop(old(Fields()))
    {
      idleWorkers := [];
    }

    /**
     * `clear`: stop, then reset the start time, the results and the
     * samples.  The shift cursor and the window index are kept.
     */
    method Clear()
      requires Valid()
      modifies this
      ensures Valid()
      ensures idleWorkers == [] && startTime == None
      ensures data == map[] && dataLength == 0 && wData == []
      ensures wShift == old(wShift) && wIdx == old(wIdx)
      ensures execTime == old(execTime) && events == old(events)
      ensures Fields() == Scheduler.Clear(old(Fields()))
    {
      Stop();
      startTime := None;
      data := map[];
      dataLength := 0;
      wData := [];
    }
  }

  /**
   * `new Spectrogram(options)`: merge with the defaults, validate, and
   * either fail with the first failed check or give a fresh object.
   */
  method New(options: Option<Options.Opts>, cpus: nat) returns (r: Result<Spectrogram, Options.ConfigError>)
    ensures var v := Options.Validate(Options.Merged(Options.ConstructorDefaults(cpus), options));
      && (r.Failure? <==> v.Failure?)
      && (r.Failure? ==> r.error == v.error)
      && (r.Success? ==> fresh(r.value) && r.value.Valid() && r.value.cfg == v.value && r.value.Fields() == Initial())
  {
    Options.DefaultKeysListed(cpus);
    var opts := Options.MergeDefaults(Options.DefaultKeys, Options.ConstructorDefaults(cpus), options);
    var v := Options.Validate(opts);
    if v.Failure? {
      return Failure(v.error);
    }
    var sp := new Spectrogram(v.value);
    return Success(sp);
  }
}
