/**
 * The streamer's page: the elapsed-time display, the tag input, and the page
 * state around a running stream (the one-second duration counter, the viewer
 * count the media room reports, the reset on disconnect, and recovery of a
 * stream saved in local storage). Clock readings are parameters in
 * milliseconds; the media room and the HTTP requests are not modelled.
 */
module StreamPage {
  import opened Wrappers
  import opened JsText
  import opened ClockText

  /** A saved stream is recovered only within 24 hours. */
  const RecoveryWindowSeconds: int := 24 * 60 * 60

  datatype DurationParts = DurationParts(hours: int, minutes: int, secs: int)

  /** The three fields `formatDuration` computes with `Math.floor` and `%`. */
  function DurationSplit(seconds: int): (d: DurationParts)
    ensures seconds >= 0 ==> d.hours >= 0 && 0 <= d.minutes < 60 && 0 <= d.secs < 60
    ensures seconds >= 0 ==> d.hours * 3600 + d.minutes * 60 + d.secs == seconds
    ensures seconds >= 0 ==> (d.hours > 0 <==> seconds >= 3600)
  {
    var d := DurationParts(FloorDiv(seconds, 3600), FloorDiv(JsRem(seconds, 3600), 60), JsRem(seconds, 60));
    if seconds >= 0 then HoursSplit(seconds); d else d
  }

  /** `formatDuration`: `HH:MM:SS` from one hour on, `MM:SS` below. */
  function FormatDuration(seconds: int): string {
    var d := DurationSplit(seconds);
    if d.hours > 0 then Clock3(d.hours, d.minutes, d.secs) else Clock2(d.minutes, d.secs)
  }

  /**
   * The display of a non-negative duration reads back as that duration; it has
   * three fields exactly from one hour on, and every field has at least two digits.
   */
  lemma DurationRoundTrip(seconds: nat)
    ensures ParseClock(FormatDuration(seconds)) == seconds
    ensures |Split(FormatDuration(seconds), ':')| == (if seconds >= 3600 then 3 else 2)
    ensures forall p :: p in Split(FormatDuration(seconds), ':') ==> |p| >= 2 && AllDigits(p)
  {
    var d := DurationSplit(seconds);
    if d.hours > 0 {
      ClockRoundTrip3(d.hours, d.minutes, d.secs);
    } else {
      ClockRoundTrip2(d.minutes, d.secs);
    }
  }

  /** What one piece contributes: its trimmed text, unless that is empty. */
  function TagOf(piece: string): (r: seq<string>)
    ensures |r| <= 1
    ensures forall i :: 0 <= i < |r| ==> r[i] != [] && Trimmed(r[i]) && r[i] == Trim(piece)
    ensures |r| == 1 <==> Trim(piece) != []
  {
    var t := Trim(piece);
    if t == [] then [] else [t]
  }

  /** The trimmed pieces that are not empty, in order. */
  function KeepTags(pieces: seq<string>): (tags: seq<string>)
    ensures |tags| <= |pieces|
    ensures forall i :: 0 <= i < |tags| ==> tags[i] != [] && Trimmed(tags[i])
  {
    if pieces == [] then [] else TagOf(pieces[0]) + KeepTags(pieces[1..])
  }

  /** Every tag is the trimmed text of one of the pieces. */
  lemma {:induction false} KeepTagsFrom(pieces: seq<string>)
    ensures forall i :: 0 <= i < |KeepTags(pieces)| ==>
              exists j :: 0 <= j < |pieces| && KeepTags(pieces)[i] == Trim(pieces[j])
  {
    if pieces != [] {
      var h, rest := TagOf(pieces[0]), KeepTags(pieces[1..]);
      KeepTagsFrom(pieces[1..]);
      var tags := KeepTags(pieces);
      assert tags == h + rest;
      forall i | 0 <= i < |tags|
        ensures exists j :: 0 <= j < |pieces| && tags[i] == Trim(pieces[j])
      {
        if i < |h| {
          assert tags[i] == h[i] == Trim(pieces[0]);
        } else {
          assert tags[i] == rest[i - |h|];
          var j :| 0 <= j < |pieces[1..]| && rest[i - |h|] == Trim(pieces[1..][j]);
          assert pieces[1..][j] == pieces[j + 1];
          assert tags[i] == Trim(pieces[j + 1]);
        }
      }
    } else {
      assert KeepTags(pieces) == [];
    }
  }

  /** Keeping tags piece by piece: the tags of a concatenation are the tags of each part, in order. */
  lemma {:induction false} KeepTagsAppend(a: seq<string>, b: seq<string>)
    ensures KeepTags(a + b) == KeepTags(a) + KeepTags(b)
  {
    if a == [] {
      assert a + b == b;
    } else {
      var ab := a + b;
      assert ab[0] == a[0];
      assert ab[1..] == a[1..] + b;
      KeepTagsAppend(a[1..], b);
      var h, x, y := TagOf(a[0]), KeepTags(a[1..]), KeepTags(b);
      assert KeepTags(ab) == h + KeepTags(ab[1..]);
      assert KeepTags(a) == h + x;
      Associative(h, x, y);
    }
  }

  /** The tag input: split on commas, trim each piece, drop the empty ones. */
  function ParseTags(value: string): (tags: seq<string>)
    ensures forall i :: 0 <= i < |tags| ==> tags[i] != [] && Trimmed(tags[i]) && ',' !in tags[i]
  {
    var pieces := Split(value, ',');
    var tags := KeepTags(pieces);
    KeepTagsFrom(pieces);
    assert forall i :: 0 <= i < |tags| ==> ',' !in tags[i] by {
      forall i | 0 <= i < |tags|
        ensures ',' !in tags[i]
      {
        var j :| 0 <= j < |pieces| && tags[i] == Trim(pieces[j]);
        assert forall c :: c in tags[i] ==> c in pieces[j];
      }
    }
    tags
  }

  lemma {:induction false} KeepTagsFixed(tags: seq<string>)
    requires forall i :: 0 <= i < |tags| ==> tags[i] != [] && Trimmed(tags[i])
    ensures KeepTags(tags) == tags
  {
    if tags != [] {
      KeepTagsFixed(tags[1..]);
      assert TagOf(tags[0]) == [tags[0]];
    }
  }

  /** Tags that are non-empty, trimmed and comma-free survive being typed in joined by commas. */
  lemma TagsRoundTrip(tags: seq<string>)
    requires forall i :: 0 <= i < |tags| ==> tags[i] != [] && Trimmed(tags[i]) && ',' !in tags[i]
    ensures ParseTags(Join(tags, ',')) == tags
  {
    if tags == [] {
      SplitPiece("", ',');
      assert KeepTags([""]) == [] by {
        assert [""][1..] == [] && TagOf("") == [];
      }
    } else {
      SplitJoin(tags, ',');
      KeepTagsFixed(tags);
    }
  }

  /**
   * What `localStorage` holds under `currentStream`: a record with a start
   * time (`None` when `new Date` cannot read it), or a text that is not JSON.
   */
  datatype StoredStream =
    | Record(streamId: string, roomId: string, token: string, startedAt: Option<int>)
    | Unreadable(text: string)

  /** What the recovery effect restores: the ids, the token and the elapsed whole seconds. */
  datatype Recovery = Recovery(streamId: string, roomId: string, token: string, elapsed: int)

  /** The recovery rule: a readable record started less than 24 hours ago comes back. */
  function Recovered(saved: StoredStream, now: int): (r: Option<Recovery>)
    ensures r.Some? <==>
              saved.Record? && saved.startedAt.Some? && (now - saved.startedAt.value) / 1000 < RecoveryWindowSeconds
    ensures r.Some? ==>
              r.value == Recovery(saved.streamId, saved.roomId, saved.token, (now - saved.startedAt.value) / 1000)
  {
    if saved.Record? && saved.startedAt.Some? && FloorDiv(now - saved.startedAt.value, 1000) < RecoveryWindowSeconds then
      Some(Recovery(saved.streamId, saved.roomId, saved.token, FloorDiv(now - saved.startedAt.value, 1000)))
    else None
  }

  /** A stream saved at `startedAt` and looked at within the day is recovered with its elapsed time. */
  lemma RecoverWithinDay(streamId: string, roomId: string, token: string, startedAt: int, now: int)
    requires startedAt <= now < startedAt + RecoveryWindowSeconds * 1000
    ensures var r := Recovered(Record(streamId, roomId, token, Some(startedAt)), now);
            r.Some? && r.value.streamId == streamId && r.value.roomId == roomId && r.value.token == token &&
            0 <= r.value.elapsed < RecoveryWindowSeconds && r.value.elapsed * 1000 <= now - startedAt
  {
  }

  /** A readable record from a day ago or more is dropped. */
  lemma ForgetAfterDay(saved: StoredStream, now: int)
    requires saved.Record? && saved.startedAt.Some? && now >= saved.startedAt.value + RecoveryWindowSeconds * 1000
    ensures Recovered(saved, now) == None
  {
  }

  /** The state of the streamer's page, with the `currentStream` entry of local storage. */
  class StreamPage {
    var isStreaming: bool
    var streamId: string
    var roomId: string
    var token: string
    var viewerCount: int
    var streamDuration: int
    var tags: seq<string>
    var stored: Option<StoredStream>

    /** The viewer count is never negative. */
    predicate Valid()
      reads this
    {
      viewerCount >= 0
    }

    /** The page as first rendered, over what local storage already holds. */
    constructor (stored: Option<StoredStream>)
      ensures Valid()
      ensures !isStreaming && streamId == "" && roomId == "" && token == ""
      ensures viewerCount == 0 && streamDuration == 0 && tags == [] && this.stored == stored
    {
      isStreaming := false;
      streamId := "";
      roomId := "";
      token := "";
      viewerCount := 0;
      streamDuration := 0;
      tags := [];
      this.stored := stored;
    }

    /** Direct streaming: a room and a token given in the address start the stream view. */
    method OpenFromAddress(urlRoomId: Option<string>, urlToken: Option<string>)
      requires Valid()
      modifies this
      ensures Valid()
      ensures if urlRoomId.Some? && urlRoomId.value != "" && urlToken.Some? && urlToken.value != "" then
                && roomId == urlRoomId.value && token == urlToken.value && isStreaming
                && streamId == old(streamId) && viewerCount == old(viewerCount)
                && streamDuration == old(streamDuration) && tags == old(tags) && stored == old(stored)
              else unchanged(this)
    {
      if urlRoomId.Some? && urlRoomId.value != "" && urlToken.Some? && urlToken.value != "" {
        roomId := urlRoomId.value;
        token := urlToken.value;
        isStreaming := true;
      }
    }

    /** One firing of the one-second counter, which runs only while streaming. */
    method DurationTick()
      requires Valid()
      modifies this
      ensures Valid()
      ensures streamDuration == (if old(isStreaming) then old(streamDuration) + 1 else old(streamDuration))
      ensures isStreaming == old(isStreaming) && streamId == old(streamId) && roomId == old(roomId)
      ensures token == old(token) && viewerCount == old(viewerCount) && tags == old(tags) && stored == old(stored)
    {
      if isStreaming {
        streamDuration := streamDuration + 1;
      }
    }

    /** The created stream starts the stream view and is saved for recovery with the time it started. */
    method StreamCreated(newStreamId: string, newRoomId: string, streamerToken: string, now: int)
      requires Valid()
      modifies this
      ensures Valid()
      ensures streamId == newStreamId && roomId == newRoomId && token == streamerToken && isStreaming
      ensures stored == Some(Record(newStreamId, newRoomId, streamerToken, Some(now)))
      ensures viewerCount == old(viewerCount) && streamDuration == old(streamDuration) && tags == old(tags)
    {
      streamId := newStreamId;
      roomId := newRoomId;
      token := streamerToken;
      isStreaming := true;
      stored := Some(Record(newStreamId, newRoomId, streamerToken, Some(now)));
    }

    /** `handleDisconnect`: back to the set-up form, and the saved stream is forgotten. */
    method HandleDisconnect()
      requires Valid()
      modifies this
      ensures Valid()
      ensures !isStreaming && streamId == "" && roomId == "" && token == ""
      ensures viewerCount == 0 && streamDuration == 0 && stored == None && tags == old(tags)
    {
      isStreaming := false;
      streamId := "";
      roomId := "";
      token := "";
      viewerCount := 0;
      streamDuration := 0;
      stored := None;
    }

    /** `handleStopStream`: refused without a stream id; a successful stop disconnects. */
    method HandleStopStream(stopSucceeds: bool) returns (refused: bool)
      requires Valid()
      modifies this
      ensures Valid()
      ensures refused <==> old(streamId) == ""
      ensures refused || !stopSucceeds ==> unchanged(this)
      ensures !refused && stopSucceeds ==>
                !isStreaming && streamId == "" && roomId == "" && token == "" &&
                viewerCount == 0 && streamDuration == 0 && stored == None && tags == old(tags)
    {
      if streamId == "" {
        return true;
      }
      refused := false;
      if stopSucceeds {
        HandleDisconnect();
      }
    }

    /** `handleParticipantChange`: the reported count, but never below zero. */
    method HandleParticipantChange(count: int)
      requires Valid()
      modifies this
      ensures Valid()
      ensures viewerCount == (if count > 0 then count else 0)
      ensures isStreaming == old(isStreaming) && streamId == old(streamId) && roomId == old(roomId)
      ensures token == old(token) && streamDuration == old(streamDuration) && tags == old(tags)
      ensures stored == old(stored)
    {
      viewerCount := if count > 0 then count else 0;
    }

    /** The tag input's change handler. */
    method OnTagsInput(value: string)
      requires Valid()
      modifies this
      ensures Valid()
      ensures tags == ParseTags(value)
      ensures isStreaming == old(isStreaming) && streamId == old(streamId) && roomId == old(roomId)
      ensures token == old(token) && viewerCount == old(viewerCount) && streamDuration == old(streamDuration)
      ensures stored == old(stored)
    {
      tags := ParseTags(value);
    }

    /**
     * The recovery effect, when not streaming and a non-empty entry is saved:
     * a recent record resumes the stream with its elapsed time, anything else
     * is removed.
     */
    method Recover(now: int)
      requires Valid()
      modifies this
      ensures Valid()
      ensures var active := old(stored).Some? && old(stored) != Some(Unreadable("")) && !old(isStreaming);
              if !active then unchanged(this)
              else match Recovered(old(stored).value, now)
                case Some(r) =>
                  && streamId == r.streamId && roomId == r.roomId && token == r.token
                  && streamDuration == r.elapsed && isStreaming && stored == old(stored)
                  && viewerCount == old(viewerCount) && tags == old(tags)
                case None =>
                  && stored == None && isStreaming == old(isStreaming) && streamId == old(streamId)
                  && roomId == old(roomId) && token == old(token) && streamDuration == old(streamDuration)
                  && viewerCount == old(viewerCount) && tags == old(tags)
    {
      if stored.Some? && stored != Some(Unreadable("")) && !isStreaming {
        match stored.value
        case Unreadable(_) =>
          stored := None;
        case Record(savedId, savedRoom, savedToken, startedAt) =>
          if startedAt.Some? {
            var duration := FloorDiv(now - startedAt.value, 1000);
            if duration < RecoveryWindowSeconds {
              streamId := savedId;
              roomId := savedRoom;
              token := savedToken;
              streamDuration := duration;
              isStreaming := true;
            } else {
              stored := None;
            }
          } else {
            stored := None;
          }
      }
    }
  }
}
