/**
 * The constructor's option handling in spectro.js: merging the caller's
 * options with the defaults, and the validation that rejects a bad
 * configuration before anything else is set up.
 */
module Options {
  import opened Wrappers

  /** An option value: JS numbers are modelled as exact reals. */
  datatype OptVal = Num(n: real) | Str(s: string)

  type Opts = map<string, OptVal>

  /** The window functions a worker knows, in the order of the name list. */
  datatype WindowFunction =
    Square | Hamming | VonHann | Blackman | BlackmanHarris | BlackmanNuttall | Bartlett

  const WindowFunctionNames: seq<string> :=
    ["Square", "Hamming", "VonHann", "Blackman", "BlackmanHarris", "BlackmanNuttall", "Bartlett"]

  function NameOf(f: WindowFunction): string {
    match f
    case Square => "Square"
    case Hamming => "Hamming"
    case VonHann => "VonHann"
    case Blackman => "Blackman"
    case BlackmanHarris => "BlackmanHarris"
    case BlackmanNuttall => "BlackmanNuttall"
    case Bartlett => "Bartlett"
  }

  /** Looks a name up in the list of window functions (the `indexOf` test). */
  function WindowFunctionOf(name: string): (r: Option<WindowFunction>)
    ensures r.Some? <==> name in WindowFunctionNames
    ensures r.Some? ==> NameOf(r.value) == name
  {
    if name == "Square" then Some(Square)
    else if name == "Hamming" then Some(Hamming)
    else if name == "VonHann" then Some(VonHann)
    else if name == "Blackman" then Some(Blackman)
    else if name == "BlackmanHarris" then Some(BlackmanHarris)
    else if name == "BlackmanNuttall" then Some(BlackmanNuttall)
    else if name == "Bartlett" then Some(Bartlett)
    else None
  }

  lemma WindowFunctionNameRoundTrip(f: WindowFunction)
    ensures NameOf(f) in WindowFunctionNames
    ensures WindowFunctionOf(NameOf(f)) == Some(f)
  {
  }

  // ---------------------------------------------------------------------
  // Merging with the defaults
  // ---------------------------------------------------------------------

  /**
   * What the merge produces: every key the caller gave keeps the caller's
   * value, every other key of the defaults gets the default value.  A
   * missing options object (null or undefined) is an empty one.
   */
  function Merged(defaults: Opts, options: Option<Opts>): (r: Opts)
    ensures options.Some? ==> forall k :: k in options.value ==> k in r && r[k] == options.value[k]
    ensures forall k :: k in defaults && (options.None? || k !in options.value) ==> k in r && r[k] == defaults[k]
    ensures forall k :: k in r ==> k in defaults || (options.Some? && k in options.value)
  {
    var o := options.GetOr(map[]);
    map k | k in defaults.Keys + o.Keys :: if k in o then o[k] else defaults[k]
  }

  /**
   * The for-in loop over the defaults' keys: a key not yet in the options
   * is copied from the defaults.  `defaultKeys` is the iteration order.
   */
  method MergeDefaults(defaultKeys: seq<string>, defaults: Opts, options: Option<Opts>) returns (r: Opts)
    requires forall k :: k in defaults <==> k in defaultKeys
    ensures r == Merged(defaults, options)
  {
    var o := options.GetOr(map[]);
    r := o;
    var i := 0;
    while i < |defaultKeys|
      invariant 0 <= i <= |defaultKeys|
      invariant forall k :: k in r <==> k in o || k in defaultKeys[..i]
      invariant forall k :: k in r ==> r[k] == if k in o then o[k] else defaults[k]
    {
      var key := defaultKeys[i];
      if key !in r {
        r := r[key := defaults[key]];
      }
      i := i + 1;
    }
    assert defaultKeys[..i] == defaultKeys;
  }

  /** The order in which the constructor defaults are listed. */
  const DefaultKeys: seq<string> := ["bps", "channels", "wSize", "wFunc", "overlap", "workers"]

  /** The constructor defaults; `cpus` is the machine's processor count. */
  function ConstructorDefaults(cpus: nat): Opts {
    map["bps" := Num(16.0), "channels" := Num(1.0), "wSize" := Num(1024.0),
        "wFunc" := Str("Hamming"), "overlap" := Num(0.0), "workers" := Num(cpus as real)]
  }

  lemma DefaultKeysListed(cpus: nat)
    ensures forall k :: k in ConstructorDefaults(cpus) <==> k in DefaultKeys
  {
  }

  // ---------------------------------------------------------------------
  // The power-of-two test `(w & (w - 1)) == 0`
  // ---------------------------------------------------------------------

  /** Bitwise and on non-negative integers, bit by bit from the lowest. */
  function BitAnd(a: nat, b: nat): nat
    decreases a
  {
    if a == 0 || b == 0 then 0
    else 2 * BitAnd(a / 2, b / 2) + (if a % 2 == 1 && b % 2 == 1 then 1 else 0)
  }

  predicate IsPowerOfTwo(n: nat)
    decreases n
  {
    n == 1 || (n > 1 && n % 2 == 0 && IsPowerOfTwo(n / 2))
  }

  lemma {:induction false} BitAndSelf(m: nat)
    ensures BitAnd(m, m) == m
    decreases m
  {
    if m > 0 {
      BitAndSelf(m / 2);
    }
  }

  /** For a positive n, `n & (n - 1)` is zero exactly when n is a power of two. */
  lemma {:induction false} PowerOfTwoTest(n: nat)
    requires n >= 1
    ensures BitAnd(n, n - 1) == 0 <==> IsPowerOfTwo(n)
    decreases n
  {
    if n == 1 {
    } else if n % 2 == 1 {
      var m := n / 2;
      BitAndSelf(m);
      assert (n - 1) / 2 == m;
      assert BitAnd(n, n - 1) == 2 * m;
    } else {
      var m := n / 2;
      assert (n - 1) / 2 == m - 1 && (n - 1) % 2 == 1;
      assert BitAnd(n, n - 1) == 2 * BitAnd(m, m - 1);
      PowerOfTwoTest(m);
    }
  }

  /**
   * The window-size test as written: the range check on the number, and
   * the `&` test on its 32-bit truncations (for 128 <= w <= 4096 the
   * truncation of w is its floor and that of w - 1 is floor(w) - 1).
   */
  predicate WindowSizeAcceptedAsWritten(w: real) {
    !(w < 128.0 || w > 4096.0 || !(BitAnd(w.Floor as nat, (w - 1.0).Floor as nat) == 0))
  }

  /** The window-size test as intended: a whole number that passes the test above. */
  predicate WindowSizeValid(w: real) {
    w == w.Floor as real && WindowSizeAcceptedAsWritten(w)
  }

  lemma WindowSizeValidMeans(w: real)
    ensures WindowSizeValid(w) <==>
      (w == w.Floor as real && 128 <= w.Floor <= 4096 && IsPowerOfTwo(w.Floor as nat))
  {
    if 128.0 <= w <= 4096.0 {
      assert (w - 1.0).Floor == w.Floor - 1;
      PowerOfTwoTest(w.Floor as nat);
    }
  }

  /** 128.5 is not a power of two, yet the test as written lets it through. */
  lemma NonIntegralWindowSizeAccepted()
    ensures WindowSizeAcceptedAsWritten(128.5)
    ensures !WindowSizeValid(128.5)
  {
    var w := 128.5;
    assert w.Floor == 128;
    assert (w - 1.0).Floor == 127;
    assert IsPowerOfTwo(128) by {
      assert IsPowerOfTwo(1);
      assert IsPowerOfTwo(2);
      assert IsPowerOfTwo(4);
      assert IsPowerOfTwo(8);
      assert IsPowerOfTwo(16);
      assert IsPowerOfTwo(32);
      assert IsPowerOfTwo(64);
    }
    PowerOfTwoTest(128);
  }

  // ---------------------------------------------------------------------
  // Validation
  // ---------------------------------------------------------------------

  datatype ConfigError =
    | BadBitsPerSample
    | NotMono
    | BadWindowSize
    | UnknownWindowFunction
    | BadOverlap
    | TooFewWorkers

  /** A validated configuration. */
  datatype Config = Config(bps: nat, channels: nat, wSize: nat, wFunc: WindowFunction, overlap: real, workers: real)

  predicate ValidConfig(c: Config) {
    && (c.bps == 8 || c.bps == 16 || c.bps == 32)
    && c.channels == 1
    && 128 <= c.wSize <= 4096 && IsPowerOfTwo(c.wSize)
    && 0.0 <= c.overlap < 1.0
    && c.workers >= 1.0
  }

  predicate BpsOk(v: Option<OptVal>) {
    v == Some(Num(8.0)) || v == Some(Num(16.0)) || v == Some(Num(32.0))
  }

  predicate WSizeOk(v: Option<OptVal>) {
    v.Some? && v.value.Num? && WindowSizeValid(v.value.n)
  }

  predicate WFuncOk(v: Option<OptVal>) {
    v.Some? && v.value.Str? && v.value.s in WindowFunctionNames
  }

  predicate OverlapOk(v: Option<OptVal>) {
    v.Some? && v.value.Num? && !(v.value.n < 0.0 || v.value.n >= 1.0)
  }

  predicate WorkersOk(v: Option<OptVal>) {
    v.Some? && v.value.Num? && !(v.value.n < 1.0)
  }

  function Get(opts: Opts, key: string): Option<OptVal> {
    if key in opts then Some(opts[key]) else None
  }

  /**
   * The checks of the constructor, in their order: the first that fails
   * decides the error.
   */
  function Validate(opts: Opts): (r: Result<Config, ConfigError>)
    ensures r.Success? <==>
      && BpsOk(Get(opts, "bps"))
      && Get(opts, "channels") == Some(Num(1.0))
      && WSizeOk(Get(opts, "wSize"))
      && WFuncOk(Get(opts, "wFunc"))
      && OverlapOk(Get(opts, "overlap"))
      && WorkersOk(Get(opts, "workers"))
    ensures r.Success? ==> ValidConfig(r.value)
    ensures r.Success? ==>
      && Get(opts, "bps") == Some(Num(r.value.bps as real))
      && Get(opts, "wSize") == Some(Num(r.value.wSize as real))
      && Get(opts, "wFunc") == Some(Str(NameOf(r.value.wFunc)))
      && Get(opts, "overlap") == Some(Num(r.value.overlap))
      && Get(opts, "workers") == Some(Num(r.value.workers))
    ensures r == Failure(BadBitsPerSample) <==> !BpsOk(Get(opts, "bps"))
    ensures r == Failure(NotMono) <==>
      BpsOk(Get(opts, "bps")) && Get(opts, "channels") != Some(Num(1.0))
    ensures r == Failure(BadWindowSize) <==>
      && BpsOk(Get(opts, "bps")) && Get(opts, "channels") == Some(Num(1.0))
      && !WSizeOk(Get(opts, "wSize"))
    ensures r == Failure(UnknownWindowFunction) <==>
      && BpsOk(Get(opts, "bps")) && Get(opts, "channels") == Some(Num(1.0))
      && WSizeOk(Get(opts, "wSize")) && !WFuncOk(Get(opts, "wFunc"))
    ensures r == Failure(BadOverlap) <==>
      && BpsOk(Get(opts, "bps")) && Get(opts, "channels") == Some(Num(1.0))
      && WSizeOk(Get(opts, "wSize")) && WFuncOk(Get(opts, "wFunc"))
      && !OverlapOk(Get(opts, "overlap"))
    ensures r == Failure(TooFewWorkers) <==>
      && BpsOk(Get(opts, "bps")) && Get(opts, "channels") == Some(Num(1.0))
      && WSizeOk(Get(opts, "wSize")) && WFuncOk(Get(opts, "wFunc"))
      && OverlapOk(Get(opts, "overlap")) && !WorkersOk(Get(opts, "workers"))
  {
    var bps := Get(opts, "bps");
    var channels := Get(opts, "channels");
    var wSize := Get(opts, "wSize");
    var wFunc := Get(opts, "wFunc");
    var overlap := Get(opts, "overlap");
    var workers := Get(opts, "workers");
    if !BpsOk(bps) then Failure(BadBitsPerSample)
    else if channels != Some(Num(1.0)) then Failure(NotMono)
    else if !WSizeOk(wSize) then Failure(BadWindowSize)
    else if !WFuncOk(wFunc) then Failure(UnknownWindowFunction)
    else if !OverlapOk(overlap) then Failure(BadOverlap)
    else if !WorkersOk(workers) then Failure(TooFewWorkers)
    else
      var w := wSize.value.n;
      WindowSizeValidMeans(w);
      Success(Config(bps.value.n.Floor as nat, 1, w.Floor as nat, WindowFunctionOf(wFunc.value.s).value,
                     overlap.value.n, workers.value.n))
  }

  /** The options that describe a configuration. */
  function OptionsOf(c: Config): Opts {
    map["bps" := Num(c.bps as real), "channels" := Num(c.channels as real), "wSize" := Num(c.wSize as real),
        "wFunc" := Str(NameOf(c.wFunc)), "overlap" := Num(c.overlap), "workers" := Num(c.workers)]
  }

  lemma GetOptionsOf(c: Config)
    ensures Get(OptionsOf(c), "bps") == Some(Num(c.bps as real))
    ensures Get(OptionsOf(c), "channels") == Some(Num(c.channels as real))
    ensures Get(OptionsOf(c), "wSize") == Some(Num(c.wSize as real))
    ensures Get(OptionsOf(c), "wFunc") == Some(Str(NameOf(c.wFunc)))
    ensures Get(OptionsOf(c), "overlap") == Some(Num(c.overlap))
    ensures Get(OptionsOf(c), "workers") == Some(Num(c.workers))
  {
  }

  /** Every valid configuration is accepted, and is what validation gives back. */
  lemma ValidateOptionsOf(c: Config)
    requires ValidConfig(c)
    ensures Validate(OptionsOf(c)) == Success(c)
  {
    GetOptionsOf(c);
    var w := c.wSize as real;
    assert w.Floor == c.wSize;
    WindowSizeValidMeans(w);
    WindowFunctionNameRoundTrip(c.wFunc);
    assert (c.bps as real).Floor == c.bps;
  }

  /** With no options object the merge is the defaults themselves. */
  lemma MergedWithoutOptions(defaults: Opts)
    ensures Merged(defaults, None) == defaults
  {
  }

  lemma PowerOfTwo1024()
    ensures IsPowerOfTwo(1024)
  {
    assert IsPowerOfTwo(1) && IsPowerOfTwo(2) && IsPowerOfTwo(4) && IsPowerOfTwo(8);
    assert IsPowerOfTwo(16) && IsPowerOfTwo(32) && IsPowerOfTwo(64) && IsPowerOfTwo(128);
    assert IsPowerOfTwo(256) && IsPowerOfTwo(512);
  }

  /** The defaults are the options of the 16-bit, 1024-sample Hamming configuration. */
  lemma DefaultsDescribe(cpus: nat)
    ensures Merged(ConstructorDefaults(cpus), None) == OptionsOf(Config(16, 1, 1024, Hamming, 0.0, cpus as real))
  {
    MergedWithoutOptions(ConstructorDefaults(cpus));
  }

  /** With zero workers every check but the last passes. */
  lemma NoWorkersFailsLast(c: Config)
    requires c.bps == 16 && c.channels == 1 && c.wSize == 1024 && c.wFunc == Hamming && c.overlap == 0.0
    requires c.workers < 1.0
    ensures Validate(OptionsOf(c)) == Failure(TooFewWorkers)
  {
    GetOptionsOf(c);
    PowerOfTwo1024();
    var w := c.wSize as real;
    assert w.Floor == c.wSize;
    WindowSizeValidMeans(w);
    assert NameOf(Hamming) in WindowFunctionNames;
  }

  /**
   * The defaults alone give a 16-bit, 1024-sample Hamming configuration
   * with no overlap, unless the processor count is zero, which fails the
   * worker check.
   */
  lemma DefaultsValidate(cpus: nat)
    ensures cpus >= 1 ==>
              Validate(Merged(ConstructorDefaults(cpus), None)) == Success(Config(16, 1, 1024, Hamming, 0.0, cpus as real))
    ensures cpus == 0 ==> Validate(Merged(ConstructorDefaults(cpus), None)) == Failure(TooFewWorkers)
  {
    var c := Config(16, 1, 1024, Hamming, 0.0, cpus as real);
    DefaultsDescribe(cpus);
    if cpus >= 1 {
      PowerOfTwo1024();
      ValidateOptionsOf(c);
    } else {
      NoWorkersFailsLast(c);
    }
  }

  // ---------------------------------------------------------------------
  // The shift step
  // ---------------------------------------------------------------------

  lemma PositiveProduct(a: real, b: real)
    requires a > 0.0 && b > 0.0
    ensures a * b > 0.0
  {
  }

  /** `Math.ceil(overlap * wSize)`, computed on exact reals. */
  function OverlapSamples(overlap: real, wSize: nat): (o: nat)
    requires 0.0 <= overlap < 1.0
    ensures (o as real) - 1.0 < overlap * (wSize as real) <= o as real
    ensures o <= wSize
  {
    var x := overlap * (wSize as real);
    assert 0.0 <= x;
    assert x <= wSize as real && (0 < wSize ==> x < wSize as real) by {
      var w := wSize as real;
      assert w - x == (1.0 - overlap) * w;
      if 0 < wSize {
        PositiveProduct(1.0 - overlap, w);
      }
    }
    var f := x.Floor;
    if f as real == x then f else f + 1
  }

  /** How far the shift cursor moves per dispatched window. */
  function Step(c: Config): (s: nat)
    requires 0.0 <= c.overlap < 1.0
    ensures s <= c.wSize
    ensures c.overlap == 0.0 ==> s == c.wSize
  {
    c.wSize - OverlapSamples(c.overlap, c.wSize)
  }

  /** An overlap below one can still leave no step at all. */
  lemma StepCanBeZero()
    ensures OverlapSamples(0.999, 128) == 128
    ensures Step(Config(16, 1, 128, Hamming, 0.999, 1.0)) == 0
  {
    assert 0.999 * 128.0 == 127.872;
  }

  lemma HalfOverlapStep()
    ensures Step(Config(16, 1, 128, Hamming, 0.5, 1.0)) == 64
  {
    assert 0.5 * 128.0 == 64.0;
  }
}
