/** The playback cache (`spotify_cache`), its refresh with bounded retries
    (`fetch_spotify_playback`) and the rendering of the playback line
    (`get_spotify_message_with_progress_update`). The remote query is an
    input: the answer each attempt would get. The clock is an integer. */
module Playback {
  import opened Wrappers
  import opened Text

  /** Seconds after which the cached answer is refreshed before rendering. */
  const FetchInterval: int := 15
  /** Default bound on the attempts of one refresh. */
  const MaxRetries: int := 3
  /** Default base of the linear back-off, in seconds. */
  const RetryDelay: int := 2
  /** Seconds during which a stop is still reported. */
  const StopGrace: int := 10

  const NothingPlaying: string := "⏸️ Nothing playing"

  /** What one attempt of the refresh sees. */
  datatype Outcome =
    | NoClient   // no authenticated client could be obtained
    | Failed     // the query raised: API error, network error or anything else
    | Idle       // a valid answer, with nothing playing or no current item
    | Playing(name: string, artists: seq<string>, durationMs: int, progressMs: int)

  /** The cache record. `duration` and `lastProgress` hold seconds (the
      source keys them `duration_ms` and `last_progress_ms`). A stop stamp
      of 0 means "no stop recorded". */
  datatype Snapshot = Snapshot(
    song: Option<string>,
    artist: Option<string>,
    duration: int,
    lastProgress: int,
    lastFetchTime: int,
    isPlaying: bool,
    lastStoppedTime: int)
  {
    /** A playing cache always knows its track. */
    predicate Valid() {
      isPlaying ==> song.Some? && artist.Some?
    }
  }

  /** The cache at start-up. */
  const Initial: Snapshot := Snapshot(None, None, 0, 0, 0, false, 0)

  // ---------------------------------------------------------------------
  // Refresh with retries

  /** The number of attempts `range(1, maxRetries + 1)` makes. */
  function Attempts(maxRetries: int): (n: nat)
    ensures maxRetries >= 0 ==> n == maxRetries
    ensures maxRetries < 0 ==> n == 0
  {
    if maxRetries > 0 then maxRetries else 0
  }

  /** The index of the first of the first `n` answers that is not an error,
      or `n` when all of them are errors. */
  function FirstDecisive(outcomes: seq<Outcome>, n: nat): (k: nat)
    requires n <= |outcomes|
    ensures k <= n
    ensures forall j :: 0 <= j < k ==> outcomes[j].Failed?
    ensures k < n ==> !outcomes[k].Failed?
  {
    if n == 0 then 0
    else
      var k := FirstDecisive(outcomes, n - 1);
      if k < n - 1 then k
      else if outcomes[n - 1].Failed? then n
      else n - 1
  }

  /** The first `m` sleeps of the linear back-off: `delay * 1, ..., delay * m`. */
  function Backoff(delay: int, m: nat): (r: seq<int>)
    ensures |r| == m
    ensures forall i :: 0 <= i < m ==> r[i] == delay * (i + 1)
  {
    seq(m, i => delay * (i + 1))
  }

  function Sum(s: seq<int>): int {
    if s == [] then 0 else Sum(s[..|s| - 1]) + s[|s| - 1]
  }

  /** The result of one refresh: whether it reports success, the cache
      afterwards, the sleeps it took and the attempts it made. */
  datatype FetchRun = FetchRun(ok: bool, snap: Snapshot, sleeps: seq<int>, attempts: nat)

  /** The effect of a decisive answer on the cache, stamped with clock `t`. */
  function Settle(s: Snapshot, o: Outcome, t: int): (r: (bool, Snapshot))
    requires !o.Failed?
    ensures r.0 <==> o.Playing?
    ensures o.NoClient? ==> r.1 == s
    ensures !o.NoClient? ==> r.1.lastFetchTime == t && r.1.isPlaying == o.Playing?
    ensures s.Valid() ==> r.1.Valid()
  {
    match o
    case NoClient => (false, s)
    case Idle =>
      (false, s.(isPlaying := false, lastFetchTime := t,
                 lastStoppedTime := if s.isPlaying then t else s.lastStoppedTime))
    case Playing(name, artists, durationMs, progressMs) =>
      (true, Snapshot(Some(name), Some(Join(artists, ", ")), durationMs / 1000, progressMs / 1000, t, true, 0))
  }

  /** The reference definition of a refresh: every error before the first
      decisive answer costs one attempt and, unless it was the last attempt,
      one sleep; the clock has advanced by the sleeps when the answer is
      applied. */
  function Refresh(s: Snapshot, outcomes: seq<Outcome>, maxRetries: int, delay: int, now: int): (r: FetchRun)
    requires Attempts(maxRetries) <= |outcomes|
    ensures r.attempts <= Attempts(maxRetries)
    ensures r.ok ==> r.snap.isPlaying && r.snap.lastFetchTime == now + Sum(r.sleeps)
    ensures !r.ok && r.snap != s ==> 1 <= r.attempts && outcomes[r.attempts - 1].Idle?
  {
    var n := Attempts(maxRetries);
    var k := FirstDecisive(outcomes, n);
    if k == n then
      FetchRun(false, s, Backoff(delay, if n == 0 then 0 else n - 1), n)
    else
      var sleeps := Backoff(delay, k);
      var settled := Settle(s, outcomes[k], now + Sum(sleeps));
      FetchRun(settled.0, settled.1, sleeps, k + 1)
  }

  /** A decisive answer after `k` errors decides the refresh. */
  lemma RefreshDecisive(s: Snapshot, outcomes: seq<Outcome>, maxRetries: int, delay: int, now: int, k: nat)
    requires k < maxRetries <= |outcomes|
    requires forall j :: 0 <= j < k ==> outcomes[j].Failed?
    requires !outcomes[k].Failed?
    ensures var settled := Settle(s, outcomes[k], now + Sum(Backoff(delay, k)));
      Refresh(s, outcomes, maxRetries, delay, now) == FetchRun(settled.0, settled.1, Backoff(delay, k), k + 1)
  {
    assert FirstDecisive(outcomes, Attempts(maxRetries)) == k;
  }

  /** A playing answer after `k` errors: the cache holds the track (both
      times converted to whole seconds), is playing, has no stop stamp and
      was fetched at the clock after the `k` sleeps; the refresh succeeds. */
  lemma RefreshPlaying(s: Snapshot, outcomes: seq<Outcome>, maxRetries: int, delay: int, now: int, k: nat)
    requires k < maxRetries <= |outcomes|
    requires forall j :: 0 <= j < k ==> outcomes[j].Failed?
    requires outcomes[k].Playing?
    ensures var r := Refresh(s, outcomes, maxRetries, delay, now);
      && r.ok && r.attempts == k + 1 && r.sleeps == Backoff(delay, k)
      && r.snap.isPlaying && r.snap.lastStoppedTime == 0
      && r.snap.lastFetchTime == now + Sum(r.sleeps)
      && r.snap.song == Some(outcomes[k].name)
      && r.snap.artist == Some(Join(outcomes[k].artists, ", "))
      && r.snap.duration * 1000 <= outcomes[k].durationMs < r.snap.duration * 1000 + 1000
      && r.snap.lastProgress * 1000 <= outcomes[k].progressMs < r.snap.lastProgress * 1000 + 1000
  {
    var n := Attempts(maxRetries);
    var f := FirstDecisive(outcomes, n);
    assert f == k;
  }

  /** An idle answer after `k` errors: the cache stops playing, is marked
      fetched at that clock, is stamped stopped at that clock exactly when it
      was playing before, and keeps its track; the refresh fails without a
      further attempt. */
  lemma RefreshIdle(s: Snapshot, outcomes: seq<Outcome>, maxRetries: int, delay: int, now: int, k: nat)
    requires k < maxRetries <= |outcomes|
    requires forall j :: 0 <= j < k ==> outcomes[j].Failed?
    requires outcomes[k].Idle?
    ensures var r := Refresh(s, outcomes, maxRetries, delay, now);
      var t := now + Sum(Backoff(delay, k));
      && !r.ok && r.attempts == k + 1 && r.sleeps == Backoff(delay, k)
      && !r.snap.isPlaying && r.snap.lastFetchTime == t
      && r.snap.lastStoppedTime == (if s.isPlaying then t else s.lastStoppedTime)
      && r.snap.song == s.song && r.snap.artist == s.artist
      && r.snap.duration == s.duration && r.snap.lastProgress == s.lastProgress
  {
    var n := Attempts(maxRetries);
    var f := FirstDecisive(outcomes, n);
    assert f == k;
  }

  /** No client after `k` errors: the refresh fails at once and the cache is
      untouched. */
  lemma RefreshNoClient(s: Snapshot, outcomes: seq<Outcome>, maxRetries: int, delay: int, now: int, k: nat)
    requires k < maxRetries <= |outcomes|
    requires forall j :: 0 <= j < k ==> outcomes[j].Failed?
    requires outcomes[k].NoClient?
    ensures var r := Refresh(s, outcomes, maxRetries, delay, now);
      !r.ok && r.snap == s && r.attempts == k + 1 && r.sleeps == Backoff(delay, k)
  {
    var n := Attempts(maxRetries);
    var f := FirstDecisive(outcomes, n);
    assert f == k;
  }

  /** Only errors: exactly `maxRetries` attempts, a sleep after every one but
      the last, the cache untouched, and failure. */
  lemma RefreshAllFailed(s: Snapshot, outcomes: seq<Outcome>, maxRetries: int, delay: int, now: int)
    requires 1 <= maxRetries <= |outcomes|
    requires forall j :: 0 <= j < maxRetries ==> outcomes[j].Failed?
    ensures var r := Refresh(s, outcomes, maxRetries, delay, now);
      && !r.ok && r.snap == s && r.attempts == maxRetries
      && r.sleeps == Backoff(delay, maxRetries - 1)
  {
    var f := FirstDecisive(outcomes, maxRetries);
  }

  /** A refresh succeeds exactly when its first decisive answer is a
      playing one. */
  lemma RefreshOk(s: Snapshot, outcomes: seq<Outcome>, maxRetries: int, delay: int, now: int)
    requires Attempts(maxRetries) <= |outcomes|
    ensures var n := Attempts(maxRetries);
      Refresh(s, outcomes, maxRetries, delay, now).ok <==>
        exists k :: 0 <= k < n && outcomes[k].Playing? && forall j :: 0 <= j < k ==> outcomes[j].Failed?
  {
    var n := Attempts(maxRetries);
    var f := FirstDecisive(outcomes, n);
    forall k | 0 <= k < n && outcomes[k].Playing? && (forall j :: 0 <= j < k ==> outcomes[j].Failed?)
      ensures f == k
    {
    }
  }

  /** A refresh keeps the cache's invariant and makes at most `maxRetries`
      attempts, with fewer sleeps than attempts. */
  lemma RefreshBounds(s: Snapshot, outcomes: seq<Outcome>, maxRetries: int, delay: int, now: int)
    requires Attempts(maxRetries) <= |outcomes|
    requires s.Valid()
    ensures var r := Refresh(s, outcomes, maxRetries, delay, now);
      && r.snap.Valid()
      && r.attempts <= Attempts(maxRetries)
      && (|r.sleeps| < r.attempts || (r.attempts == 0 && r.sleeps == []))
  {
  }

  /** With a positive base the sleeps strictly increase. */
  lemma BackoffIncreasing(delay: int, m: nat, i: nat, j: nat)
    requires delay > 0 && i < j < m
    ensures Backoff(delay, m)[i] < Backoff(delay, m)[j]
  {
    var b := Backoff(delay, m);
    assert b[j] - b[i] == delay * (j - i);
  }

  /** One more failed attempt appends its sleep to the back-off. */
  lemma BackoffSnoc(delay: int, m: nat)
    ensures Backoff(delay, m + 1) == Backoff(delay, m) + [delay * (m + 1)]
  {
  }

  lemma {:induction false} SumAppend(s: seq<int>, x: int)
    ensures Sum(s + [x]) == Sum(s) + x
  {
    assert (s + [x])[..|s|] == s;
  }

  /** The time a run of `m` back-off sleeps takes: `delay * m * (m + 1) / 2`
      (6 seconds for the default three failed attempts, which sleep twice,
      2 s and 4 s). */
  lemma {:induction false} BackoffTotal(delay: int, m: nat)
    ensures 2 * Sum(Backoff(delay, m)) == delay * m * (m + 1)
  {
    if m > 0 {
      BackoffTotal(delay, m - 1);
      assert Backoff(delay, m) == Backoff(delay, m - 1) + [delay * m];
      SumAppend(Backoff(delay, m - 1), delay * m);
      assert delay * m * (m + 1) == delay * (m - 1) * m + 2 * (delay * m);
    }
  }

  lemma {:induction false} SumNonNegative(s: seq<int>)
    requires forall i :: 0 <= i < |s| ==> s[i] >= 0
    ensures Sum(s) >= 0
  {
    if s != [] {
      SumNonNegative(s[..|s| - 1]);
    }
  }

  // ---------------------------------------------------------------------
  // Rendering

  /** The progress shown: the cached progress extrapolated by the seconds
      since the fetch, clamped to the duration. */
  function Progress(s: Snapshot, now: int): (p: int)
    ensures p <= s.duration
    ensures p <= s.lastProgress + (now - s.lastFetchTime)
    ensures p == s.duration || p == s.lastProgress + (now - s.lastFetchTime)
  {
    var extrapolated := s.lastProgress + (now - s.lastFetchTime);
    if extrapolated < s.duration then extrapolated else s.duration
  }

  /** Between refreshes the shown progress never goes backwards. */
  lemma ProgressMonotone(s: Snapshot, now: int, later: int)
    requires now <= later
    ensures Progress(s, now) <= Progress(s, later)
  {
  }

  /** The last line of a playing message. */
  function PlaybackProgressLine(progress: int, duration: int): string {
    "⌛ " + FormatTime(progress) + " / " + FormatTime(duration)
  }

  /** The first two lines of a playing message. */
  function TrackLines(song: string, artist: string): string {
    "🎵 " + ShortenTitle(song, TitleLimit) + "\n👤 " + ShortenTitle(artist, TitleLimit) + "\n"
  }

  /** The playback text for the cache `s` at clock `now`. */
  function RenderPlayback(s: Snapshot, now: int): (r: string)
    requires s.Valid()
    ensures s.isPlaying ==> r != ""
    ensures !s.isPlaying ==> r == "" || r == NothingPlaying
  {
    if s.isPlaying then
      TrackLines(s.song.value, s.artist.value) + PlaybackProgressLine(Progress(s, now), s.duration)
    else if s.lastStoppedTime != 0 && now - s.lastStoppedTime < StopGrace then
      NothingPlaying
    else
      ""
  }

  /** While playing, the text is the shortened track and artist followed by
      the clamped progress and the duration. */
  lemma RenderPlaying(s: Snapshot, now: int)
    requires s.Valid() && s.isPlaying
    ensures var r := RenderPlayback(s, now);
      var head := TrackLines(s.song.value, s.artist.value);
      && |head| <= |r| && r[..|head|] == head
      && r[|head|..] == PlaybackProgressLine(Progress(s, now), s.duration)
      && Progress(s, now) <= s.duration
  {
    var head := TrackLines(s.song.value, s.artist.value);
    var r := RenderPlayback(s, now);
    assert r == head + PlaybackProgressLine(Progress(s, now), s.duration);
  }

  /** The stop notice appears exactly within the grace window after a
      recorded stop. */
  lemma RenderNothingPlaying(s: Snapshot, now: int)
    requires s.Valid()
    ensures RenderPlayback(s, now) == NothingPlaying <==>
      !s.isPlaying && s.lastStoppedTime != 0 && now - s.lastStoppedTime < StopGrace
  {
    if s.isPlaying {
      var r := RenderPlayback(s, now);
      assert r[0] == '🎵';
      assert NothingPlaying[0] == '⏸';
    }
  }

  /** The text is empty exactly when nothing plays and no stop was recorded
      within the grace window. */
  lemma RenderEmpty(s: Snapshot, now: int)
    requires s.Valid()
    ensures RenderPlayback(s, now) == "" <==>
      !s.isPlaying && !(s.lastStoppedTime != 0 && now - s.lastStoppedTime < StopGrace)
  {
    if s.isPlaying {
      assert RenderPlayback(s, now)[0] == '🎵';
    }
  }

  /** A track of 3:20 fetched at 50 s: ten seconds later the text shows
      1:00 of 3:20. */
  lemma PlayingExample(t: int)
    ensures RenderPlayback(Snapshot(Some("A"), Some("B"), 200, 50, t, true, 0), t + 10) ==
      "🎵 A\n👤 B\n⌛ 1:00 / 3:20"
  {
    var s := Snapshot(Some("A"), Some("B"), 200, 50, t, true, 0);
    assert Progress(s, t + 10) == 60;
    ExampleProgressLine();
    ExampleTrackLines();
    assert RenderPlayback(s, t + 10) == TrackLines("A", "B") + PlaybackProgressLine(60, 200);
  }

  lemma ExampleProgressLine()
    ensures PlaybackProgressLine(60, 200) == "⌛ 1:00 / 3:20"
  {
    FormatTimeExamples();
  }

  lemma ExampleTrackLines()
    ensures TrackLines("A", "B") == "🎵 A\n👤 B\n"
  {
    assert ShortenTitle("A", TitleLimit) == "A";
    assert ShortenTitle("B", TitleLimit) == "B";
  }

  /** A stop stamped at `t`: the notice shows five seconds later and is gone
      fifteen seconds later. */
  lemma StoppedExample(s: Snapshot, t: int)
    requires !s.isPlaying && t != 0 && s.lastStoppedTime == t
    ensures RenderPlayback(s, t + 5) == NothingPlaying
    ensures RenderPlayback(s, t + 15) == ""
  {
  }

  // ---------------------------------------------------------------------
  // Refresh-then-render

  /** The refresh a render triggers: one only when the cache is older than
      the fetch interval; none (no attempt, no sleep) otherwise. */
  function RefreshIfStale(s: Snapshot, now: int, outcomes: seq<Outcome>): (r: FetchRun)
    requires MaxRetries <= |outcomes|
    ensures now - s.lastFetchTime <= FetchInterval ==> r == FetchRun(false, s, [], 0)
    ensures now - s.lastFetchTime > FetchInterval ==> r == Refresh(s, outcomes, MaxRetries, RetryDelay, now)
  {
    if now - s.lastFetchTime > FetchInterval then Refresh(s, outcomes, MaxRetries, RetryDelay, now)
    else FetchRun(false, s, [], 0)
  }

  /** The message as the source computes it: rendered with the clock read
      before the refresh. */
  function PlaybackMessageAsWritten(s: Snapshot, now: int, outcomes: seq<Outcome>): (r: string)
    requires MaxRetries <= |outcomes|
    requires s.Valid()
    ensures now - s.lastFetchTime <= FetchInterval ==> r == RenderPlayback(s, now)
  {
    var r := RefreshIfStale(s, now, outcomes);
    RefreshBounds(s, outcomes, MaxRetries, RetryDelay, now);
    RenderPlayback(r.snap, now)
  }

  /** The defect of the source: the first attempt fails, the second finds a
      track just started; the last fetch is then stamped after the 2-second
      sleep, later than the clock the source renders with, and the progress
      it shows is negative (`format_time` renders it with a minus sign). */
  lemma MessageAsWrittenNegativeProgress()
    ensures var outcomes := [Failed, Playing("A", ["B"], 200000, 500), Failed];
      var r := RefreshIfStale(Initial, 100, outcomes);
      && r.snap.isPlaying && r.snap.lastFetchTime == 102
      && Progress(r.snap, 100) == -2
      && FormatTime(Progress(r.snap, 100)) == "-1:23:59:58"
      && PlaybackMessageAsWritten(Initial, 100, outcomes) ==
         TrackLines("A", "B") + PlaybackProgressLine(-2, 200)
  {
    var outcomes := [Failed, Playing("A", ["B"], 200000, 500), Failed];
    NegativeExampleRefresh();
    var s := Snapshot(Some("A"), Some("B"), 200, 0, 102, true, 0);
    assert Progress(s, 100) == -2;
    FormatTimeExamples();
    assert PlaybackMessageAsWritten(Initial, 100, outcomes) == RenderPlayback(s, 100);
  }

  /** The refresh of the defect's scenario: the track is stamped at 102. */
  lemma NegativeExampleRefresh()
    ensures RefreshIfStale(Initial, 100, [Failed, Playing("A", ["B"], 200000, 500), Failed]).snap ==
      Snapshot(Some("A"), Some("B"), 200, 0, 102, true, 0)
  {
    var outcomes := [Failed, Playing("A", ["B"], 200000, 500), Failed];
    RefreshPlaying(Initial, outcomes, MaxRetries, RetryDelay, 100, 1);
    assert Backoff(RetryDelay, 1) == [2];
    assert Sum([2]) == 2 by { assert [2][..0] == []; }
    assert Join(["B"], ", ") == "B";
  }

  /** The corrected message never shows a negative progress: with a clock
      that does not run backwards and non-negative cached and remote times,
      the progress shown lies between 0 and the duration. */
  lemma MessageProgressInRange(s: Snapshot, now: int, outcomes: seq<Outcome>)
    requires MaxRetries <= |outcomes|
    requires s.Valid()
    requires s.lastFetchTime <= now
    requires 0 <= s.lastProgress && 0 <= s.duration
    requires forall j :: 0 <= j < |outcomes| && outcomes[j].Playing? ==>
      outcomes[j].durationMs >= 0 && outcomes[j].progressMs >= 0
    ensures var r := RefreshIfStale(s, now, outcomes);
      r.snap.Valid() &&
      (r.snap.isPlaying ==> 0 <= Progress(r.snap, now + Sum(r.sleeps)) <= r.snap.duration)
  {
    var r := RefreshIfStale(s, now, outcomes);
    RefreshBounds(s, outcomes, MaxRetries, RetryDelay, now);
    if now - s.lastFetchTime > FetchInterval {
      var n := Attempts(MaxRetries);
      var k := FirstDecisive(outcomes, n);
      SumNonNegative(r.sleeps);
      if k < n && outcomes[k].Playing? {
        RefreshPlaying(s, outcomes, MaxRetries, RetryDelay, now, k);
      }
    }
  }

  // ---------------------------------------------------------------------
  // The cache object

  /** `spotify_cache`, updated in place by its refresh. */
  class PlaybackCache {
    var song: Option<string>
    var artist: Option<string>
    var duration: int
    var lastProgress: int
    var lastFetchTime: int
    var isPlaying: bool
    var lastStoppedTime: int

    function View(): Snapshot
      reads this
    {
      Snapshot(song, artist, duration, lastProgress, lastFetchTime, isPlaying, lastStoppedTime)
    }

    predicate Valid()
      reads this
    {
      View().Valid()
    }

    constructor ()
      ensures Valid() && View() == Initial
    {
      song, artist := None, None;
      duration, lastProgress, lastFetchTime := 0, 0, 0;
      isPlaying, lastStoppedTime := false, 0;
    }

    /** The body of one attempt that got a decisive answer: a playing answer
        overwrites the whole record; an idle one stamps the stop (only on a
        playing-to-stopped transition) and the fetch time; no client changes
        nothing. */
    method Apply(outcome: Outcome, clock: int) returns (ok: bool)
      requires Valid()
      requires !outcome.Failed?
      modifies this
      ensures Valid()
      ensures (ok, View()) == Settle(old(View()), outcome, clock)
    {
      match outcome {
        case NoClient =>
          ok := false;
        case Playing(name, artists, durationMs, progressMs) =>
          song, artist := Some(name), Some(Join(artists, ", "));
          duration, lastProgress := durationMs / 1000, progressMs / 1000;
          lastFetchTime, isPlaying, lastStoppedTime := clock, true, 0;
          ok := true;
        case Idle =>
          if isPlaying {
            lastStoppedTime := clock;
          }
          isPlaying := false;
          lastFetchTime := clock;
          ok := false;
      }
    }

    /** `fetch_spotify_playback`: attempt `outcomes[attempt - 1]` for
        `attempt` in `1..maxRetries`, sleeping `delay * attempt` after every
        error but the last. A negative delay would make the sleep raise, so
        callers pass a non-negative one. */
    method Fetch(outcomes: seq<Outcome>, maxRetries: int, delay: int, now: int)
      returns (ok: bool, attempts: nat, sleeps: seq<int>)
      requires Valid()
      requires Attempts(maxRetries) <= |outcomes|
      requires delay >= 0
      modifies this
      ensures Valid()
      ensures FetchRun(ok, View(), sleeps, attempts) == Refresh(old(View()), outcomes, maxRetries, delay, now)
    {
      ghost var n := Attempts(maxRetries);
      sleeps, attempts := [], 0;
      var clock := now;
      var attempt := 1;
      while attempt <= maxRetries
        invariant 1 <= attempt <= n + 1
        invariant attempts == attempt - 1
        invariant forall j :: 0 <= j < attempt - 1 ==> outcomes[j].Failed?
        invariant sleeps == Backoff(delay, if attempt <= maxRetries then attempt - 1 else if n == 0 then 0 else n - 1)
        invariant clock == now + Sum(sleeps)
        invariant View() == old(View())
      {
        attempts := attempts + 1;
        var outcome := outcomes[attempt - 1];
        if !outcome.Failed? {
          RefreshDecisive(old(View()), outcomes, maxRetries, delay, now, attempt - 1);
          ok := Apply(outcome, clock);
          return;
        }
        if attempt < maxRetries {
          SumAppend(sleeps, delay * attempt);
          BackoffSnoc(delay, attempt - 1);
          sleeps := sleeps + [delay * attempt];
          clock := clock + delay * attempt;
        }
        attempt := attempt + 1;
      }
      if n > 0 {
        RefreshAllFailed(old(View()), outcomes, maxRetries, delay, now);
      }
      ok := false;
    }

    /** `get_spotify_message_with_progress_update`, rendering with the clock
        after the refresh (see `PlaybackMessageAsWritten` for the source's clock). */
    method Message(now: int, outcomes: seq<Outcome>) returns (text: string, sleeps: seq<int>)
      requires Valid()
      requires MaxRetries <= |outcomes|
      modifies this
      ensures Valid()
      ensures var r := RefreshIfStale(old(View()), now, outcomes); View() == r.snap && sleeps == r.sleeps
      ensures text == RenderPlayback(View(), now + Sum(sleeps))
    {
      ghost var r := RefreshIfStale(old(View()), now, outcomes);
      sleeps := [];
      if now - lastFetchTime > FetchInterval {
        var ok, attempts;
        ok, attempts, sleeps := Fetch(outcomes, MaxRetries, RetryDelay, now);
        assert FetchRun(ok, View(), sleeps, attempts) == r;
      } else {
        assert r == FetchRun(false, View(), [], 0);
      }
      text := RenderPlayback(View(), now + Sum(sleeps));
    }
  }
}
