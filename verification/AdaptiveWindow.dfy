/** The upload scheduler's limits and its additive-increase, multiplicative-decrease window. */
module AdaptiveWindow {
  import opened Prelude

  const MIN_CHUNK_SIZE_BYTES: nat := 256 * 1024
  const MAX_CHUNK_SIZE_BYTES: nat := 2 * 1024 * 1024
  const DEFAULT_CHUNK_SIZE_BYTES: nat := MAX_CHUNK_SIZE_BYTES
  const MAX_IN_FLIGHT_BYTES: nat := 8 * 1024 * 1024
  const ADAPTIVE_WINDOW_MIN: nat := 1
  const ADAPTIVE_WINDOW_START: nat := 1
  const ADAPTIVE_WINDOW_DEFAULT_MAX: nat := 4
  const CLEAN_WAVE_DURATION_THRESHOLD_MS: nat := 12_000
  const SLOW_WAVE_DURATION_THRESHOLD_MS: nat := 25_000

  function ClampChunkSizeBytes(chunkSize: JsNumber): (r: nat)
    ensures MIN_CHUNK_SIZE_BYTES <= r <= MAX_CHUNK_SIZE_BYTES
  {
    var requested := if chunkSize.Finite? then chunkSize.value.Floor else DEFAULT_CHUNK_SIZE_BYTES;
    if requested < MIN_CHUNK_SIZE_BYTES then MIN_CHUNK_SIZE_BYTES
    else if requested > MAX_CHUNK_SIZE_BYTES then MAX_CHUNK_SIZE_BYTES
    else requested
  }

  function SanitizeWindowLimit(windowLimit: JsNumber): (r: nat)
    ensures ADAPTIVE_WINDOW_MIN <= r <= ADAPTIVE_WINDOW_DEFAULT_MAX
  {
    if !windowLimit.Finite? then ADAPTIVE_WINDOW_DEFAULT_MAX
    else
      var rounded := Max(ADAPTIVE_WINDOW_MIN, windowLimit.value.Floor);
      Min(ADAPTIVE_WINDOW_DEFAULT_MAX, rounded)
  }

  function Distance(a: int, b: int): int { if a <= b then b - a else a - b }

  /** The chosen chunk size is the allowed one nearest to the request, and clamping twice changes nothing. */
  lemma ClampIsNearestAllowed(x: real, allowed: nat)
    requires MIN_CHUNK_SIZE_BYTES <= allowed <= MAX_CHUNK_SIZE_BYTES
    ensures Distance(ClampChunkSizeBytes(Finite(x)), x.Floor) <= Distance(allowed, x.Floor)
    ensures ClampChunkSizeBytes(Finite(allowed as real)) == allowed
  {
    assert (allowed as real).Floor == allowed;
  }

  /** Same for the window limit: the nearest value in 1..4. */
  lemma SanitizeIsNearestAllowed(x: real, allowed: nat)
    requires ADAPTIVE_WINDOW_MIN <= allowed <= ADAPTIVE_WINDOW_DEFAULT_MAX
    ensures Distance(SanitizeWindowLimit(Finite(x)), x.Floor) <= Distance(allowed, x.Floor)
    ensures SanitizeWindowLimit(Finite(allowed as real)) == allowed
  {
    assert (allowed as real).Floor == allowed;
  }

  /** What the scheduler learns from one wave that ran to its end. */
  datatype WaveReport = WaveReport(durationMs: int, hadRetryableFailures: bool, hadRetries: bool) {
    predicate Bad() { hadRetryableFailures || hadRetries || durationMs > SLOW_WAVE_DURATION_THRESHOLD_MS }

    predicate Clean() { !Bad() && durationMs < CLEAN_WAVE_DURATION_THRESHOLD_MS }
  }

  datatype WindowState = WindowState(window: int, streak: int)

  function ComputeNextAdaptiveWindow(s: WindowState, limit: int, report: WaveReport): WindowState
  {
    var maxWindow := Max(ADAPTIVE_WINDOW_MIN, limit);
    if report.hadRetryableFailures || report.hadRetries || report.durationMs > SLOW_WAVE_DURATION_THRESHOLD_MS then
      WindowState(Max(ADAPTIVE_WINDOW_MIN, s.window / 2), 0)
    else if !(report.durationMs < CLEAN_WAVE_DURATION_THRESHOLD_MS) then
      WindowState(s.window, 0)
    else
      var nextStreak := s.streak + 1;
      if nextStreak >= 2 then WindowState(Min(maxWindow, s.window + 1), 0)
      else WindowState(s.window, nextStreak)
  }

  /** The window after a whole series of waves. */
  function AfterWaves(s: WindowState, limit: int, reports: seq<WaveReport>): WindowState
    decreases |reports|
  {
    if reports == [] then s
    else AfterWaves(ComputeNextAdaptiveWindow(s, limit, reports[0]), limit, reports[1..])
  }

  predicate InBounds(s: WindowState, limit: int)
  {
    1 <= s.window <= limit && 0 <= s.streak <= 1
  }

  /** Whatever the waves do, the window stays between 1 and the limit. */
  lemma {:induction false} WindowStaysInBounds(s: WindowState, limit: int, reports: seq<WaveReport>)
    requires InBounds(s, limit)
    ensures InBounds(AfterWaves(s, limit, reports), limit)
    decreases |reports|
  {
    if reports != [] {
      WindowStaysInBounds(ComputeNextAdaptiveWindow(s, limit, reports[0]), limit, reports[1..]);
    }
  }

  /** `k` clean waves widen the window by one for every second of them. */
  lemma {:induction false} CleanWavesClosedForm(s: WindowState, limit: int, reports: seq<WaveReport>)
    requires InBounds(s, limit)
    requires forall i :: 0 <= i < |reports| ==> reports[i].Clean()
    ensures var k := |reports|;
            AfterWaves(s, limit, reports) == WindowState(Min(limit, s.window + (s.streak + k) / 2), (s.streak + k) % 2)
    decreases |reports|
  {
    if reports != [] {
      assert reports[0].Clean();
      var next := ComputeNextAdaptiveWindow(s, limit, reports[0]);
      CleanWavesClosedForm(next, limit, reports[1..]);
    }
  }

  function Pow2(k: nat): nat
    ensures Pow2(k) >= 1
  {
    if k == 0 then 1 else 2 * Pow2(k - 1)
  }

  lemma HalveThenDivide(w: nat, p: nat)
    requires p > 0
    ensures (w / 2) / p == w / (2 * p)
  {
    var q := (w / 2) / p;
    var r := (w / 2) % p;
    assert w == 2 * p * q + (2 * r + w % 2);
    var d := 2 * p;
    var t := 2 * r + w % 2;
    assert 0 <= t < d;
    DivUnique(w, d, q, t);
  }

  lemma DivUnique(w: int, d: int, q: int, t: int)
    requires d > 0 && 0 <= t < d && w == d * q + t
    ensures w / d == q
  {
    var q' := w / d;
    if q < q' {
      MulLe(q + 1, q', d);
    } else if q' < q {
      MulLe(q' + 1, q, d);
    }
  }

  /** `k` bad waves halve it `k` times, never below 1. */
  lemma {:induction false} BadWavesClosedForm(s: WindowState, limit: int, reports: seq<WaveReport>)
    requires InBounds(s, limit)
    requires forall i :: 0 <= i < |reports| ==> reports[i].Bad()
    ensures AfterWaves(s, limit, reports).window == Max(1, s.window / Pow2(|reports|))
    decreases |reports|
  {
    if reports != [] {
      assert reports[0].Bad();
      var next := ComputeNextAdaptiveWindow(s, limit, reports[0]);
      var p := Pow2(|reports| - 1);
      BadWavesClosedForm(next, limit, reports[1..]);
      HalveThenDivide(s.window, p);
      if s.window == 1 {
        DivSmall(1, p);
        assert 0 / p == 0;
      }
    }
  }

  lemma DivSmall(n: nat, d: nat)
    requires d > 0 && n <= 1
    ensures n / d <= n
  {
    if d > n { DivUnique(n, d, 0, n); }
  }
}
