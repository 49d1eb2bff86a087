/** The aggregation tick (`update_loop`): per-mode composition of the
    system, playback and video texts, the de-duplicated send to the chat
    sink, and the mode switch (`on_mode_change`) that drives the listener.
    The system text is an input; the sink is the log of sent texts. */
module Status {
  import opened Text
  import opened Playback
  import opened Extension
  import opened Listener

  const Separator: string := "\n\n"
  const NoVideo: string := "⏸️ No video detected"
  const UnknownMode: string := "Unknown mode"

  /** The mode the application starts in. */
  const StartMode: string := "full"

  /** The text one tick composes in `mode`. */
  function Compose(mode: string, system: string, song: string, ext: string): (r: string)
    ensures mode == "full" || mode == "system" ==> |system| <= |r| && r[..|system|] == system
    ensures mode !in {"full", "system"} ==> r != ""
  {
    if mode == "full" then
      Join([system] + (if ext != "" then [ext] else if song != "" then [song] else []), Separator)
    else if mode == "system" then system
    else if mode == "spotify" then (if song != "" then song else NothingPlaying)
    else if mode == "media" then (if ext != "" then ext else NoVideo)
    else UnknownMode
  }

  /** The composition rules: `full` is the system text followed, after a
      blank line, by the video text when there is one, else by the playback
      text when there is one; `system` is the system text whatever the
      sources hold; `spotify` and `media` fall back to fixed notices; any
      other mode is reported as unknown. */
  lemma ComposeRules(mode: string, system: string, song: string, ext: string)
    ensures mode == "full" ==>
      Compose(mode, system, song, ext) ==
        (if ext != "" then system + "\n\n" + ext
         else if song != "" then system + "\n\n" + song
         else system)
    ensures mode == "system" ==> Compose(mode, system, song, ext) == system
    ensures mode == "spotify" ==> Compose(mode, system, song, ext) == (if song == "" then NothingPlaying else song)
    ensures mode == "media" ==> Compose(mode, system, song, ext) == (if ext == "" then NoVideo else ext)
    ensures mode !in {"full", "system", "spotify", "media"} ==> Compose(mode, system, song, ext) == UnknownMode
  {
    if mode == "full" && (ext != "" || song != "") {
      var tail := if ext != "" then ext else song;
      assert ([system] + [tail])[1..] == [tail];
    }
  }

  // ---------------------------------------------------------------------
  // De-duplication

  /** The texts the sink receives when consecutive ticks compose `texts`,
      starting from the last sent text `last`. */
  function Debounce(last: string, texts: seq<string>): (r: seq<string>)
    ensures |r| <= |texts|
    ensures texts != [] && texts[0] != last ==> r != [] && r[0] == texts[0]
    decreases |texts|
  {
    if texts == [] then []
    else (if texts[0] != last then [texts[0]] else []) + Debounce(texts[0], texts[1..])
  }

  /** Successive ticks: the sends for `xs` followed by `ys` are the sends for
      `xs`, then those for `ys` starting from the last text of `xs`. */
  lemma {:induction false} DebounceConcat(last: string, xs: seq<string>, ys: seq<string>)
    ensures Debounce(last, xs + ys) ==
      Debounce(last, xs) + Debounce(if xs == [] then last else xs[|xs| - 1], ys)
    decreases |xs|
  {
    if xs != [] {
      var rest := xs[1..];
      var tail := if rest == [] then xs[0] else rest[|rest| - 1];
      assert tail == xs[|xs| - 1];
      DebounceConcat(xs[0], rest, ys);
      assert (xs + ys)[0] == xs[0];
      assert (xs + ys)[1..] == rest + ys;
      var head := if xs[0] != last then [xs[0]] else [];
      assert Debounce(last, xs + ys) == head + (Debounce(xs[0], rest) + Debounce(tail, ys));
      assert Debounce(last, xs) == head + Debounce(xs[0], rest);
      assert head + (Debounce(xs[0], rest) + Debounce(tail, ys)) == (head + Debounce(xs[0], rest)) + Debounce(tail, ys);
    } else {
      assert xs + ys == ys;
    }
  }

  /** No text is sent twice in a row, the first one differs from the last
      text sent before, and nothing is sent that was not composed. */
  lemma {:induction false} DebounceNoRepeat(last: string, texts: seq<string>)
    ensures var r := Debounce(last, texts);
      && |r| <= |texts|
      && (|r| > 0 ==> r[0] != last)
      && (forall i :: 0 < i < |r| ==> r[i] != r[i - 1])
      && (forall i :: 0 <= i < |r| ==> r[i] in texts)
    decreases |texts|
  {
    if texts != [] {
      var rest := Debounce(texts[0], texts[1..]);
      DebounceNoRepeat(texts[0], texts[1..]);
      DebounceLast(texts[0], texts[1..]);
      var r := Debounce(last, texts);
      if texts[0] != last {
        assert r == [texts[0]] + rest;
        assert forall i :: 1 <= i < |r| ==> r[i] == rest[i - 1];
      } else {
        assert r == rest;
      }
      assert forall x :: x in texts[1..] ==> x in texts;
    }
  }

  /** Whether the `i`-th composed text differs from the one before it (for
      the first, from the last text sent before the ticks). */
  predicate ChangedAt(last: string, texts: seq<string>, i: int)
    requires 0 <= i < |texts|
  {
    texts[i] != (if i == 0 then last else texts[i - 1])
  }

  /** After the ticks the last sent text is the last composed text, and
      something was sent exactly when some composed text differed from the
      one before it. */
  lemma {:induction false} DebounceLast(last: string, texts: seq<string>)
    ensures var r := Debounce(last, texts);
      && (r != [] <==> exists i :: 0 <= i < |texts| && ChangedAt(last, texts, i))
      && (r != [] ==> r[|r| - 1] == texts[|texts| - 1])
    decreases |texts|
  {
    if texts != [] {
      DebounceLast(texts[0], texts[1..]);
      if texts[0] == last {
        RepeatStep(last, texts);
      } else {
        ChangeStep(last, texts);
      }
    }
  }

  /** The step of `DebounceLast` when the first text repeats the last one. */
  lemma RepeatStep(last: string, texts: seq<string>)
    requires texts != [] && texts[0] == last
    requires var r := Debounce(texts[0], texts[1..]);
      && (r != [] <==> exists i :: 0 <= i < |texts[1..]| && ChangedAt(texts[0], texts[1..], i))
      && (r != [] ==> r[|r| - 1] == texts[|texts| - 1])
    ensures var r := Debounce(last, texts);
      && (r != [] <==> exists i :: 0 <= i < |texts| && ChangedAt(last, texts, i))
      && (r != [] ==> r[|r| - 1] == texts[|texts| - 1])
  {
    var rest := texts[1..];
    var r := Debounce(last, texts);
    assert r == Debounce(texts[0], rest);
    if r != [] {
      var i :| 0 <= i < |rest| && ChangedAt(texts[0], rest, i);
      assert ChangedAt(last, texts, i + 1);
    }
    if i :| 0 <= i < |texts| && ChangedAt(last, texts, i) {
      assert i != 0;
      assert ChangedAt(texts[0], rest, i - 1);
    }
  }

  /** The step of `DebounceLast` when the first text differs from the last one. */
  lemma ChangeStep(last: string, texts: seq<string>)
    requires texts != [] && texts[0] != last
    requires var r := Debounce(texts[0], texts[1..]);
      r != [] ==> r[|r| - 1] == texts[|texts| - 1]
    ensures var r := Debounce(last, texts);
      && r != [] && ChangedAt(last, texts, 0)
      && r[|r| - 1] == texts[|texts| - 1]
  {
    var rest := texts[1..];
    var r := Debounce(last, texts);
    var tail := Debounce(texts[0], rest);
    assert r == [texts[0]] + tail;
    if tail == [] && rest != [] {
      forall i | 0 <= i < |rest| ensures rest[i] == texts[0] {
        if rest[i] != texts[0] {
          IdleRun(texts[0], rest, i);
        }
      }
      assert texts[|texts| - 1] == rest[|rest| - 1];
    }
  }

  /** A composed text that differs from the last one sent causes a send. */
  lemma {:induction false} IdleRun(last: string, texts: seq<string>, k: nat)
    requires k < |texts| && texts[k] != last
    ensures Debounce(last, texts) != []
    decreases |texts|
  {
    if texts[0] == last {
      IdleRun(last, texts[1..], k - 1);
    }
  }

  // ---------------------------------------------------------------------
  // The application state

  /** The state shared by the tick, the tray menu and the listener. */
  class StatusApp {
    var mode: string
    var lastMessage: string
    var sent: seq<string>
    const cache: PlaybackCache
    const store: ExtensionStore
    const listener: ListenerControl

    predicate Valid()
      reads this, cache
    {
      cache.Valid()
    }

    /** Start-up: the start mode, empty caches, and the listener started
        since the start mode shows pushed data. */
    constructor (bindOk: bool)
      ensures Valid() && fresh(cache) && fresh(store) && fresh(listener)
      ensures mode == StartMode && lastMessage == "" && sent == []
      ensures cache.View() == Initial && store.View() == Empty
      ensures listener.View() == Start(Stopped, bindOk)
    {
      mode, lastMessage, sent := StartMode, "", [];
      cache := new PlaybackCache();
      store := new ExtensionStore();
      listener := new ListenerControl();
      new;
      if WantsListener(mode) {
        listener.MaybeStart(bindOk);
      }
    }

    /** One pass of `update_loop`: read the mode, compute the three texts
        (the video text with the clock after any refresh sleeps), compose,
        and send only a text that differs from the last one sent. */
    method Tick(system: string, now: int, outcomes: seq<Outcome>) returns (sleeps: seq<int>)
      requires Valid()
      requires MaxRetries <= |outcomes|
      modifies this, cache
      ensures Valid()
      ensures mode == old(mode) && unchanged(store, listener)
      ensures var r := RefreshIfStale(old(cache.View()), now, outcomes); cache.View() == r.snap && sleeps == r.sleeps
      ensures lastMessage == Compose(mode, system, RenderPlayback(cache.View(), now + Sum(sleeps)),
                                     ExtensionMessage(store.View(), now + Sum(sleeps)))
      ensures sent == old(sent) + Debounce(old(lastMessage), [lastMessage])
    {
      var current := mode;
      var song;
      song, sleeps := cache.Message(now, outcomes);
      var ext := store.Message(now + Sum(sleeps));
      var full := Compose(current, system, song, ext);
      if full != lastMessage {
        sent := sent + [full];
        lastMessage := full;
      }
    }

    /** `on_mode_change`: switch the mode, then start the listener for a mode
        that shows pushed data and stop it for any other. */
    method SetMode(newMode: string, bindOk: bool)
      modifies this, listener
      ensures mode == newMode
      ensures listener.View() == OnModeChange(old(listener.View()), newMode, bindOk)
      ensures lastMessage == old(lastMessage) && sent == old(sent)
    {
      mode := newMode;
      if WantsListener(mode) {
        listener.MaybeStart(bindOk);
      } else {
        listener.MaybeStop();
      }
    }

    /** `on_quit`: stop the listener. */
    method Quit()
      modifies listener
      ensures listener.View() == Stop(old(listener.View()))
    {
      listener.MaybeStop();
    }
  }
}
