/**
 * The session's client-side `RateLimiter`: a one-second cooldown since the
 * last recorded send, and at most thirty sends in a sliding sixty-second
 * window. The source reads the clock itself; here the time is the `now`
 * argument, in milliseconds.
 */
module RateLimiting {

  const MessageCooldown: int := 1000
  const WindowLength: int := 60000
  const MaxMessagesPerMinute: nat := 30

  datatype RateCheck = Allowed | CooldownActive | RateLimitExceeded

  /** `timestamps.filter(t => t > cutoff)`. */
  function Recent(ts: seq<int>, cutoff: int): (r: seq<int>)
    ensures |r| <= |ts|
    ensures forall t :: t in r <==> t in ts && t > cutoff
  {
    if ts == [] then []
    else if ts[0] > cutoff then [ts[0]] + Recent(ts[1..], cutoff)
    else Recent(ts[1..], cutoff)
  }

  /** Filtering distributes over appending, so survivors keep their order. */
  lemma {:induction false} RecentAppend(a: seq<int>, b: seq<int>, cutoff: int)
    ensures Recent(a + b, cutoff) == Recent(a, cutoff) + Recent(b, cutoff)
  {
    if a != [] {
      RecentAppend(a[1..], b, cutoff);
      assert (a + b)[1..] == a[1..] + b;
    } else {
      assert a + b == b;
    }
  }

  /** A later, higher cutoff removes what an earlier one did and more. */
  lemma {:induction false} RecentTwice(ts: seq<int>, c1: int, c2: int)
    requires c1 <= c2
    ensures Recent(Recent(ts, c1), c2) == Recent(ts, c2)
  {
    if ts != [] {
      RecentTwice(ts[1..], c1, c2);
    }
  }

  /** The limiter's two fields as a value. */
  datatype Limiter = Limiter(lastMessageTime: int, messageTimestamps: seq<int>)

  const Fresh: Limiter := Limiter(0, [])

  /**
   * What `canSendMessage` decides at time `now` and the timestamps it leaves:
   * during the cooldown it refuses at once and prunes nothing; otherwise it
   * drops timestamps sixty seconds old or older and refuses when thirty remain.
   */
  function Check(l: Limiter, now: int): (Limiter, RateCheck) {
    if now - l.lastMessageTime < MessageCooldown then
      (l, CooldownActive)
    else
      var kept := Recent(l.messageTimestamps, now - WindowLength);
      (l.(messageTimestamps := kept),
       if |kept| >= MaxMessagesPerMinute then RateLimitExceeded else Allowed)
  }

  /** What `recordMessage` leaves: the send time is the last send and joins the window. */
  function Record(l: Limiter, now: int): Limiter {
    Limiter(now, l.messageTimestamps + [now])
  }

  /** The contract of `Check`, stated on its own. */
  lemma CheckSpec(l: Limiter, now: int)
    ensures Check(l, now).1 == CooldownActive <==> now - l.lastMessageTime < MessageCooldown
    ensures Check(l, now).1 == CooldownActive ==> Check(l, now).0 == l
    ensures Check(l, now).0.lastMessageTime == l.lastMessageTime
    ensures Check(l, now).1 == Allowed ==>
              |Check(l, now).0.messageTimestamps| < MaxMessagesPerMinute &&
              forall t :: t in Check(l, now).0.messageTimestamps ==> t > now - WindowLength
  {
  }

  class RateLimiter {
    var lastMessageTime: int
    var messageTimestamps: seq<int>

    function State(): Limiter
      reads this
    {
      Limiter(lastMessageTime, messageTimestamps)
    }

    constructor ()
      ensures State() == Fresh
    {
      lastMessageTime := 0;
      messageTimestamps := [];
    }

    /** `canSendMessage`; its pruning of old timestamps is a change of state. */
    method CanSendMessage(now: int) returns (r: RateCheck)
      modifies this
      ensures (State(), r) == Check(old(State()), now)
    {
      if now - lastMessageTime < MessageCooldown {
        return CooldownActive;
      }
      var oneMinuteAgo := now - WindowLength;
      messageTimestamps := Recent(messageTimestamps, oneMinuteAgo);
      if |messageTimestamps| >= MaxMessagesPerMinute {
        return RateLimitExceeded;
      }
      return Allowed;
    }

    /** `recordMessage`. */
    method RecordMessage(now: int)
      modifies this
      ensures State() == Record(old(State()), now)
    {
      lastMessageTime := now;
      messageTimestamps := messageTimestamps + [now];
    }
  }

  /** How many of the recorded send times lie in the sixty seconds ending at `t`. */
  function InWindow(h: seq<int>, t: int): nat {
    RecentTwice(h, t - WindowLength, t);
    |Recent(h, t - WindowLength)| - |Recent(h, t)|
  }

  /** No sixty-second window holds more than thirty recorded sends. */
  ghost predicate WindowCapped(h: seq<int>) {
    forall t :: InWindow(h, t) <= MaxMessagesPerMinute
  }

  /**
   * The limiter's relation to the history `h` of every recorded send, with the
   * clock last read at `clock`: nothing in the history is later than the clock, and the kept timestamps agree with the history for
   * every cutoff a later window can still use.
   */
  ghost predicate Tracks(l: Limiter, h: seq<int>, clock: int) {
    && (forall i :: 0 <= i < |h| ==> h[i] <= clock)
    && (forall c :: c >= clock - WindowLength ==> Recent(l.messageTimestamps, c) == Recent(h, c))
  }

  lemma FreshTracks(clock: int)
    ensures Tracks(Fresh, [], clock)
  {
  }

  lemma {:induction false} RecentAfterAll(h: seq<int>, c: int)
    requires forall i :: 0 <= i < |h| ==> h[i] <= c
    ensures Recent(h, c) == []
  {
    if h != [] {
      RecentAfterAll(h[1..], c);
    }
  }

  /** A check at a time no earlier than the clock keeps the limiter tracking the history. */
  lemma CheckTracks(l: Limiter, h: seq<int>, clock: int, now: int)
    requires Tracks(l, h, clock) && clock <= now
    ensures Tracks(Check(l, now).0, h, now)
    ensures Check(l, now).1 != CooldownActive ==>
              |Check(l, now).0.messageTimestamps| == |Recent(h, now - WindowLength)|
  {
    var l' := Check(l, now).0;
    forall c | c >= now - WindowLength
      ensures Recent(l'.messageTimestamps, c) == Recent(h, c)
    {
      if now - l.lastMessageTime >= MessageCooldown {
        RecentTwice(l.messageTimestamps, now - WindowLength, c);
      }
    }
    if now - l.lastMessageTime >= MessageCooldown {
      RecentTwice(l.messageTimestamps, now - WindowLength, now - WindowLength);
    }
  }

  /**
   * Recording a send that the limiter allowed keeps every sixty-second window
   * at thirty sends or fewer, provided the clock never runs backwards.
   */
  lemma RecordKeepsCap(l: Limiter, h: seq<int>, clock: int, now: int)
    requires Tracks(l, h, clock) && clock <= now && WindowCapped(h)
    requires Check(l, now).1 == Allowed
    ensures Tracks(Record(Check(l, now).0, now), h + [now], now)
    ensures WindowCapped(h + [now])
  {
    var l' := Check(l, now).0;
    CheckTracks(l, h, clock, now);
    var h' := h + [now];
    forall c | c >= now - WindowLength
      ensures Recent(Record(l', now).messageTimestamps, c) == Recent(h', c)
    {
      RecentAppend(l'.messageTimestamps, [now], c);
      RecentAppend(h, [now], c);
    }
    forall t ensures InWindow(h', t) <= MaxMessagesPerMinute {
      RecentAppend(h, [now], t - WindowLength);
      RecentAppend(h, [now], t);
      if t >= now {
        RecentAfterAll(h, t);
        RecentTwice(h, now - WindowLength, t - WindowLength);
        assert |Recent(h, t - WindowLength)| <= |Recent(h, now - WindowLength)| by {
          if t - WindowLength >= now - WindowLength {
            assert Recent(h, t - WindowLength) == Recent(Recent(h, now - WindowLength), t - WindowLength);
          }
        }
      } else {
        assert InWindow(h, t) <= MaxMessagesPerMinute;
      }
    }
  }
}
