/** The push-ingest record (`extension_data`): the per-connection read loop
    of the listener that overwrites it (`ws_handler`) and the formatting of
    the video line (`get_extension_message`). JSON decoding is left to the
    caller: each inbound frame arrives already classified. */
module Extension {
  import opened Wrappers
  import opened Text

  /** Seconds for which a push stays fresh. */
  const Freshness: int := 10

  /** The recognised keys of a decoded inbound object, each present or not.
      Numbers are whole seconds. */
  datatype PushMessage = PushMessage(
    title: Option<string>,
    streamer: Option<string>,
    uploader: Option<string>,
    duration: Option<int>,
    currentTime: Option<int>,
    live: Option<bool>)

  /** One inbound frame after decoding: a frame `json.loads` rejects with a
      decode error (logged and skipped), a frame whose handling raises any
      other error (JSON that is not an object, a frame that is not text),
      which ends the connection, or an object. */
  datatype Frame = Malformed | NotAnObject | Object(msg: PushMessage)

  /** A frame and the clock at which the handler reads it. */
  datatype Arrival = Arrival(at: int, frame: Frame)

  /** The record. `title` is `None` until a push carries one. */
  datatype PushRecord = PushRecord(
    title: Option<string>,
    uploader: string,
    duration: int,
    currentTime: int,
    lastUpdate: int,
    live: bool)

  /** The record at start-up. */
  const Empty: PushRecord := PushRecord(None, "", 0, 0, 0, false)

  /** Python truthiness of an optional string. */
  predicate Truthy(s: Option<string>) {
    s.Some? && s.value != ""
  }

  /** `data.get("streamer") or data.get("uploader") or ""`. */
  function Uploader(m: PushMessage): (u: string)
    ensures u == "" <==> !Truthy(m.streamer) && !Truthy(m.uploader)
    ensures u != "" ==> Some(u) == m.streamer || Some(u) == m.uploader
  {
    if Truthy(m.streamer) then m.streamer.value
    else if Truthy(m.uploader) then m.uploader.value
    else ""
  }

  /** The wholesale write of one decoded object received at `now`. */
  function Ingest(m: PushMessage, now: int): (r: PushRecord)
    ensures r.lastUpdate == now && r.title == m.title && r.uploader == Uploader(m)
    ensures m.duration.None? ==> r.duration == 0
    ensures m.duration.Some? ==> r.duration == m.duration.value
    ensures m.currentTime.None? ==> r.currentTime == 0
    ensures m.currentTime.Some? ==> r.currentTime == m.currentTime.value
    ensures m.live.None? ==> !r.live
    ensures m.live.Some? ==> r.live == m.live.value
  {
    PushRecord(m.title, Uploader(m), m.duration.GetOr(0), m.currentTime.GetOr(0), now, m.live.GetOr(false))
  }

  /** The alias resolution: a non-empty streamer wins, then a non-empty
      uploader, else the empty string; the result is empty only when both
      are. The write never depends on the previous record. */
  lemma IngestResolvesUploader(m: PushMessage, now: int)
    ensures var r := Ingest(m, now);
      && (Truthy(m.streamer) ==> r.uploader == m.streamer.value)
      && (!Truthy(m.streamer) && Truthy(m.uploader) ==> r.uploader == m.uploader.value)
      && (r.uploader == "" <==> !Truthy(m.streamer) && !Truthy(m.uploader))
      && r.lastUpdate == now && r.title == m.title
      && (m.duration.None? ==> r.duration == 0)
      && (m.duration.Some? ==> r.duration == m.duration.value)
      && (m.currentTime.None? ==> r.currentTime == 0)
      && (m.currentTime.Some? ==> r.currentTime == m.currentTime.value)
      && (m.live.None? ==> !r.live)
      && (m.live.Some? ==> r.live == m.live.value)
  {
  }

  // ---------------------------------------------------------------------
  // One connection

  /** The index of the first frame that is not an object-or-garbage, that is
      the frame whose handling raises and ends the connection, or the number
      of frames when there is none. */
  function Cut(frames: seq<Arrival>): (c: nat)
    ensures c <= |frames|
    ensures forall j :: 0 <= j < c ==> !frames[j].frame.NotAnObject?
    ensures c < |frames| ==> frames[c].frame.NotAnObject?
  {
    if frames == [] then 0
    else if frames[0].frame.NotAnObject? then 0
    else 1 + Cut(frames[1..])
  }

  /** The record after a connection delivers `frames`: malformed frames are
      skipped, objects overwrite the record, and a frame that decodes to
      something other than an object ends the loop. */
  function AfterFrames(r: PushRecord, frames: seq<Arrival>): (after: PushRecord)
    ensures after == r || exists j :: WrittenBy(frames, j, after)
    decreases |frames|
  {
    if frames == [] then r
    else match frames[0].frame
      case Malformed =>
        var after := AfterFrames(r, frames[1..]);
        WrittenLater(frames, after);
        after
      case NotAnObject => r
      case Object(m) =>
        var after := AfterFrames(Ingest(m, frames[0].at), frames[1..]);
        WrittenLater(frames, after);
        assert after == Ingest(m, frames[0].at) ==> WrittenBy(frames, 0, after);
        after
  }

  /** A write by a later frame of the rest of a connection is a write by the
      connection, one index further on. */
  lemma WrittenLater(frames: seq<Arrival>, w: PushRecord)
    requires frames != [] && !frames[0].frame.NotAnObject?
    ensures (exists j :: WrittenBy(frames[1..], j, w)) ==> exists j :: WrittenBy(frames, j, w)
  {
    if j :| WrittenBy(frames[1..], j, w) {
      assert frames[1..][j] == frames[j + 1];
      assert WrittenBy(frames, j + 1, w);
    }
  }

  /** Whether frame `j`, delivered before the connection ended, is an object
      whose write is `w`. */
  predicate WrittenBy(frames: seq<Arrival>, j: int, w: PushRecord) {
    0 <= j < Cut(frames) && frames[j].frame.Object? && w == Ingest(frames[j].frame.msg, frames[j].at)
  }

  /** A connection that delivers no object before it ends leaves the record
      unchanged. */
  lemma {:induction false} NoObjectKeepsRecord(r: PushRecord, frames: seq<Arrival>)
    requires forall j :: 0 <= j < Cut(frames) ==> !frames[j].frame.Object?
    ensures AfterFrames(r, frames) == r
    decreases |frames|
  {
    if frames != [] && !frames[0].frame.NotAnObject? {
      var rest := frames[1..];
      assert forall i :: 0 <= i < Cut(rest) ==> rest[i] == frames[i + 1];
      NoObjectKeepsRecord(r, rest);
    }
  }

  /** Last write wins: after a connection the record is the write of the
      last object delivered before the connection ended, whatever came
      before it. */
  lemma {:induction false} LastWriteWins(r: PushRecord, frames: seq<Arrival>, j: nat)
    requires j < Cut(frames) && frames[j].frame.Object?
    requires forall i :: j < i < Cut(frames) ==> !frames[i].frame.Object?
    ensures AfterFrames(r, frames) == Ingest(frames[j].frame.msg, frames[j].at)
    decreases |frames|
  {
    var rest := frames[1..];
    assert forall i :: 0 <= i < Cut(rest) ==> rest[i] == frames[i + 1];
    if j == 0 {
      NoObjectKeepsRecord(Ingest(frames[0].frame.msg, frames[0].at), rest);
    } else {
      var next := if frames[0].frame.Object? then Ingest(frames[0].frame.msg, frames[0].at) else r;
      LastWriteWins(next, rest, j - 1);
    }
  }

  // ---------------------------------------------------------------------
  // Formatting

  /** The duration slot: `LIVE` for a live stream, else the duration. */
  function DurationSlot(r: PushRecord): string {
    if r.live then "LIVE" else FormatTime(r.duration)
  }

  /** The slot reads `LIVE` exactly for a live stream. */
  lemma DurationSlotLive(r: PushRecord)
    ensures DurationSlot(r) == "LIVE" <==> r.live
  {
    if !r.live {
      FormatTimeEndsWithDigit(r.duration);
    }
  }

  function TitleLine(r: PushRecord): string
    requires r.title.Some?
  {
    "📺 " + ShortenTitle(r.title.value, TitleLimit)
  }

  function VideoProgressLine(r: PushRecord): string {
    "⌛ " + FormatTime(r.currentTime) + " / " + DurationSlot(r)
  }

  /** Whether the record is shown at `now`. */
  predicate Fresh(r: PushRecord, now: int) {
    Truthy(r.title) && now - r.lastUpdate < Freshness
  }

  /** The video text for record `r` at clock `now`. */
  function ExtensionMessage(r: PushRecord, now: int): (t: string)
    ensures !Fresh(r, now) ==> t == ""
    ensures Fresh(r, now) ==> |t| >= |TitleLine(r)| && t[..|TitleLine(r)|] == TitleLine(r)
  {
    if Fresh(r, now) then
      var parts := [TitleLine(r)] + (if r.uploader != "" then ["👤 " + r.uploader] else []) + [VideoProgressLine(r)];
      Join(parts, "\n")
    else ""
  }

  /** The text is non-empty exactly when the record has a title and was
      written less than ten seconds ago. */
  lemma ExtensionMessageNonEmpty(r: PushRecord, now: int)
    ensures ExtensionMessage(r, now) != "" <==> Truthy(r.title) && now - r.lastUpdate < Freshness
  {
    if Fresh(r, now) {
      var t := ExtensionMessage(r, now);
      var parts := [TitleLine(r)] + (if r.uploader != "" then ["👤 " + r.uploader] else []) + [VideoProgressLine(r)];
      JoinLast(parts, "\n");
      assert |VideoProgressLine(r)| > 0;
    }
  }

  /** A fresh text is the title line, then the uploader line exactly when
      there is an uploader, then the progress line. */
  lemma ExtensionMessageLines(r: PushRecord, now: int)
    requires Fresh(r, now)
    ensures var t := ExtensionMessage(r, now);
      var head := TitleLine(r) + "\n";
      && |head| < |t| && t[..|head|] == head
      && (r.uploader != "" ==> t[|head|..] == "👤 " + r.uploader + "\n" + VideoProgressLine(r))
      && (r.uploader == "" ==> t[|head|..] == VideoProgressLine(r))
      && (t[|head|] == '👤' <==> r.uploader != "")
  {
    var t := ExtensionMessage(r, now);
    var head := TitleLine(r) + "\n";
    if r.uploader != "" {
      var parts := [TitleLine(r), "👤 " + r.uploader, VideoProgressLine(r)];
      assert [TitleLine(r)] + ["👤 " + r.uploader] + [VideoProgressLine(r)] == parts;
      assert parts[1..] == ["👤 " + r.uploader, VideoProgressLine(r)];
      assert parts[1..][1..] == [VideoProgressLine(r)];
      assert Join(parts[1..], "\n") == "👤 " + r.uploader + "\n" + VideoProgressLine(r);
      assert t == TitleLine(r) + "\n" + ("👤 " + r.uploader + "\n" + VideoProgressLine(r));
    } else {
      assert t == TitleLine(r) + "\n" + VideoProgressLine(r);
    }
    assert t[..|head|] == head;
  }

  /** A fresh text ends with its progress line. */
  lemma ExtensionMessageEndsWithProgress(r: PushRecord, now: int)
    requires Fresh(r, now)
    ensures var t := ExtensionMessage(r, now); var line := VideoProgressLine(r);
      |line| <= |t| && t[|t| - |line|..] == line
  {
    var parts := [TitleLine(r)] + (if r.uploader != "" then ["👤 " + r.uploader] else []) + [VideoProgressLine(r)];
    JoinLast(parts, "\n");
  }

  /** The progress line ends with ` / LIVE` exactly for a live stream. */
  lemma VideoProgressLineLive(r: PushRecord)
    ensures var line := VideoProgressLine(r); |line| >= 7 && (line[|line| - 7..] == " / LIVE" <==> r.live)
  {
    var line := VideoProgressLine(r);
    if r.live {
      assert line == "⌛ " + FormatTime(r.currentTime) + " / LIVE";
    } else {
      FormatTimeEndsWithDigit(r.duration);
      var d := FormatTime(r.duration);
      assert line[|line| - 1] == d[|d| - 1];
      assert line[|line| - 7..][6] == line[|line| - 1];
    }
  }

  /** A fresh text ends with ` / LIVE` exactly for a live stream. */
  lemma ExtensionMessageLive(r: PushRecord, now: int)
    requires Fresh(r, now)
    ensures var t := ExtensionMessage(r, now);
      |t| >= 7 && (t[|t| - 7..] == " / LIVE" <==> r.live)
  {
    var t := ExtensionMessage(r, now);
    var line := VideoProgressLine(r);
    ExtensionMessageEndsWithProgress(r, now);
    VideoProgressLineLive(r);
    assert t[|t| - 7..] == line[|line| - 7..] by {
      assert t[|t| - |line|..][|line| - 7..] == line[|line| - 7..];
    }
  }

  // ---------------------------------------------------------------------
  // The store object

  /** `extension_data`, overwritten by the listener and read by the tick. */
  class ExtensionStore {
    var title: Option<string>
    var uploader: string
    var duration: int
    var currentTime: int
    var lastUpdate: int
    var live: bool

    function View(): PushRecord
      reads this
    {
      PushRecord(title, uploader, duration, currentTime, lastUpdate, live)
    }

    constructor ()
      ensures View() == Empty
    {
      title, uploader := None, "";
      duration, currentTime, lastUpdate, live := 0, 0, 0, false;
    }

    /** `extension_data.update(...)`: every field is replaced. */
    method Write(m: PushMessage, now: int)
      modifies this
      ensures View() == Ingest(m, now)
    {
      title := m.title;
      uploader := Uploader(m);
      duration := m.duration.GetOr(0);
      currentTime := m.currentTime.GetOr(0);
      lastUpdate := now;
      live := m.live.GetOr(false);
    }

    /** `ws_handler`: read frames until the connection ends; a malformed
        frame is logged and skipped, an object is written, and anything else
        raises out of the loop and closes the connection. */
    method HandleConnection(frames: seq<Arrival>)
      modifies this
      ensures View() == AfterFrames(old(View()), frames)
    {
      var i := 0;
      while i < |frames|
        invariant 0 <= i <= |frames|
        invariant AfterFrames(old(View()), frames) == AfterFrames(View(), frames[i..])
      {
        assert frames[i..][1..] == frames[i + 1..];
        match frames[i].frame {
          case Malformed =>
          case NotAnObject =>
            return;
          case Object(m) =>
            Write(m, frames[i].at);
        }
        i := i + 1;
      }
    }

    /** `get_extension_message`. */
    method Message(now: int) returns (text: string)
      ensures text == ExtensionMessage(View(), now)
      ensures text != "" <==> Fresh(View(), now)
    {
      ExtensionMessageNonEmpty(View(), now);
      text := ExtensionMessage(View(), now);
    }
  }
}
