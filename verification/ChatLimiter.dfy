/**
 The chat's rate limit and its strikes (backend/internal/handler/chat_ws.go, readPump). Times are
 integers that never go back; the settings are those in force when a message is read.
 */
module ChatLimiter {

  datatype Limits = Limits(window: int, maxMsgs: int, strikes: int, resetAfter: int)

  /** A connection starts with no message behind it, which is longer ago than any window. */
  datatype Instant = Never | At(t: int)

  predicate Elapsed(now: int, since: Instant, d: int) {
    since.Never? || now - since.t > d
  }

  datatype Outcome = Accepted | Warned | Muted

  datatype State = State(msgCount: int, lastMsg: Instant, strikeCount: int, lastStrike: Instant)

  const START := State(0, Never, 0, Never)

  function OpenWindow(s: State, now: int, lim: Limits): State {
    if Elapsed(now, s.lastMsg, lim.window) then s.(msgCount := 0, lastMsg := At(now)) else s
  }

  function Verdict(s: State, now: int, lim: Limits): Outcome {
    var w := OpenWindow(s, now, lim);
    if w.msgCount + 1 <= lim.maxMsgs then Accepted
    else if w.strikeCount + 1 >= lim.strikes then Muted
    else Warned
  }

  function Next(s: State, now: int, lim: Limits): State {
    var w := OpenWindow(s, now, lim).(msgCount := OpenWindow(s, now, lim).msgCount + 1);
    match Verdict(s, now, lim)
    case Accepted =>
      if w.strikeCount > 0 && Elapsed(now, w.lastStrike, lim.resetAfter) then w.(strikeCount := 0) else w
    case Warned => w.(strikeCount := w.strikeCount + 1, lastStrike := At(now))
    case Muted => w.(strikeCount := 0, lastStrike := At(now))
  }

  class ChatClient {
    var msgCount: int
    var lastMsg: Instant
    var strikeCount: int
    var lastStrikeTime: Instant

    function View(): State
      reads this
    {
      State(msgCount, lastMsg, strikeCount, lastStrikeTime)
    }

    constructor ()
      ensures View() == START
    {
      msgCount, lastMsg, strikeCount, lastStrikeTime := 0, Never, 0, Never;
    }

    /** What becomes of one message read off the socket. */
    method Receive(now: int, lim: Limits) returns (outcome: Outcome)
      modifies this
      ensures outcome == Verdict(old(View()), now, lim)
      ensures View() == Next(old(View()), now, lim)
    {
      if Elapsed(now, lastMsg, lim.window) {
        msgCount := 0;
        lastMsg := At(now);
      }
      msgCount := msgCount + 1;
      if msgCount > lim.maxMsgs {
        strikeCount := strikeCount + 1;
        lastStrikeTime := At(now);
        if strikeCount >= lim.strikes {
          strikeCount := 0;
          return Muted;
        }
        return Warned;
      }
      if strikeCount > 0 && Elapsed(now, lastStrikeTime, lim.resetAfter) {
        strikeCount := 0;
      }
      return Accepted;
    }
  }

  // ---- a connection's run ----------------------------------------------------------------------

  predicate NonDecreasing(ts: seq<int>) {
    forall i, j :: 0 <= i < j < |ts| ==> ts[i] <= ts[j]
  }

  function After(ts: seq<int>, lim: Limits): State {
    if ts == [] then START else Next(After(ts[..|ts| - 1], lim), ts[|ts| - 1], lim)
  }

  /** What became of the last message. */
  function Last(ts: seq<int>, lim: Limits): Outcome
    requires ts != []
  {
    Verdict(After(ts[..|ts| - 1], lim), ts[|ts| - 1], lim)
  }

  /** Messages accepted at times from lo to hi. */
  function AcceptedIn(ts: seq<int>, lim: Limits, lo: int, hi: int): nat {
    if ts == [] then 0
    else AcceptedIn(ts[..|ts| - 1], lim, lo, hi)
         + if Last(ts, lim).Accepted? && lo <= ts[|ts| - 1] <= hi then 1 else 0
  }

  function Min(a: int, b: int): int {
    if a <= b then a else b
  }

  /** Where the count for [lo, lo + window] stands while its messages come in. Nothing of the
      current window but its first message is missing from the interval once the interval has
      begun; of the window before, the first message always is. */
  ghost predicate OnCourse(ts: seq<int>, lim: Limits, lo: int) {
    var hi, s := lo + lim.window, After(ts, lim);
    var n := AcceptedIn(ts, lim, lo, hi);
    if ts == [] then n == 0 && s == START
    else
      var now := ts[|ts| - 1];
      && s.lastMsg.At? && s.msgCount >= 1 && s.lastMsg.t <= now
      && (now < lo ==> n == 0)
      && n <= 2 * lim.maxMsgs - 1
      && (s.lastMsg.t < lo ==> n <= Min(s.msgCount, lim.maxMsgs) - 1)
      && (lo <= s.lastMsg.t <= hi ==> n <= lim.maxMsgs - 1 + Min(s.msgCount, lim.maxMsgs))
  }

  lemma {:induction false} StaysOnCourse(ts: seq<int>, lim: Limits, lo: int)
    requires NonDecreasing(ts) && lim.maxMsgs >= 1 && lim.window >= 0
    ensures OnCourse(ts, lim, lo)
  {
    if ts != [] {
      StaysOnCourse(ts[..|ts| - 1], lim, lo);
    }
  }

  lemma {:induction false} NothingAccepted(ts: seq<int>, lim: Limits, lo: int, hi: int)
    requires lim.maxMsgs <= 0
    ensures AcceptedIn(ts, lim, lo, hi) == 0 && After(ts, lim).msgCount >= 0
  {
    if ts != [] {
      NothingAccepted(ts[..|ts| - 1], lim, lo, hi);
    }
  }

  lemma {:induction false} EmptyStretch(ts: seq<int>, lim: Limits, lo: int, hi: int)
    requires hi < lo
    ensures AcceptedIn(ts, lim, lo, hi) == 0
  {
    if ts != [] {
      EmptyStretch(ts[..|ts| - 1], lim, lo, hi);
    }
  }

  /** The limit as a member meets it: any stretch as long as the window holds fewer than twice the
      allowed messages. */
  lemma AcceptedBound(ts: seq<int>, lim: Limits, lo: int)
    requires NonDecreasing(ts)
    ensures AcceptedIn(ts, lim, lo, lo + lim.window) <= if lim.maxMsgs >= 1 then 2 * lim.maxMsgs - 1 else 0
  {
    if lim.window < 0 {
      EmptyStretch(ts, lim, lo, lo + lim.window);
    } else if lim.maxMsgs >= 1 {
      StaysOnCourse(ts, lim, lo);
    } else {
      NothingAccepted(ts, lim, lo, lo + lim.window);
    }
  }

  function Repeat(t: int, k: nat): (ts: seq<int>)
    ensures |ts| == k && forall i :: 0 <= i < k ==> ts[i] == t
  {
    if k == 0 then [] else Repeat(t, k - 1) + [t]
  }

  lemma OneMore(ts: seq<int>, t: int, lim: Limits, lo: int, hi: int)
    ensures After(ts + [t], lim) == Next(After(ts, lim), t, lim)
    ensures AcceptedIn(ts + [t], lim, lo, hi) ==
      AcceptedIn(ts, lim, lo, hi) + if Verdict(After(ts, lim), t, lim).Accepted? && lo <= t <= hi then 1 else 0
  {
    assert (ts + [t])[..|ts|] == ts;
  }

  /** Messages at one moment inside an open window are accepted while there is room in it. */
  lemma {:induction false} FillWindow(ts: seq<int>, lim: Limits, t: int, k: nat, lo: int, hi: int)
    requires var s := After(ts, lim);
      !Elapsed(t, s.lastMsg, lim.window) && s.msgCount + k <= lim.maxMsgs
    requires lo <= t <= hi
    ensures var s := After(ts + Repeat(t, k), lim);
      s.msgCount == After(ts, lim).msgCount + k && s.lastMsg == After(ts, lim).lastMsg
    ensures AcceptedIn(ts + Repeat(t, k), lim, lo, hi) == AcceptedIn(ts, lim, lo, hi) + k
  {
    if k == 0 {
      assert ts + Repeat(t, 0) == ts;
    } else {
      FillWindow(ts, lim, t, k - 1, lo, hi);
      var before := ts + Repeat(t, k - 1);
      assert ts + Repeat(t, k) == before + [t];
      OneMore(before, t, lim, lo, hi);
    }
  }

  /** One message, the rest of the window's at its last moment, and a whole window right after. */
  function Burst(lim: Limits): seq<int>
    requires lim.maxMsgs >= 1
  {
    [0] + Repeat(lim.window, lim.maxMsgs - 1) + [lim.window + 1] + Repeat(lim.window + 1, lim.maxMsgs - 1)
  }

  lemma BurstInOrder(lim: Limits)
    requires lim.maxMsgs >= 1 && lim.window >= 0
    ensures NonDecreasing(Burst(lim))
  {
    var ts, k := Burst(lim), lim.maxMsgs;
    assert |ts| == 2 * k;
    forall i | 0 <= i < |ts| ensures ts[i] == if i == 0 then 0 else if i < k then lim.window else lim.window + 1 {
    }
  }

  lemma FirstOfBurst(lim: Limits, lo: int, hi: int)
    requires lim.maxMsgs >= 1 && lo > 0
    ensures After([0], lim).msgCount == 1 && After([0], lim).lastMsg == At(0) && AcceptedIn([0], lim, lo, hi) == 0
  {
    assert [0][..0] == [];
    assert After([], lim) == START;
    assert AcceptedIn([], lim, lo, hi) == 0;
  }

  /** The bound is reached, for every limit and every window. */
  lemma BoundIsReached(lim: Limits)
    requires lim.maxMsgs >= 1 && lim.window >= 1
    ensures NonDecreasing(Burst(lim))
    ensures AcceptedIn(Burst(lim), lim, lim.window, 2 * lim.window) == 2 * lim.maxMsgs - 1
  {
    var w, lo, hi := lim.window, lim.window, 2 * lim.window;
    BurstInOrder(lim);
    FirstOfBurst(lim, lo, hi);
    FillWindow([0], lim, w, lim.maxMsgs - 1, lo, hi);
    var first := [0] + Repeat(w, lim.maxMsgs - 1);
    OneMore(first, w + 1, lim, lo, hi);
    FillWindow(first + [w + 1], lim, w + 1, lim.maxMsgs - 1, lo, hi);
  }

  // ---- strikes ---------------------------------------------------------------------------------------

  function Rejected(ts: seq<int>, lim: Limits): nat {
    if ts == [] then 0 else Rejected(ts[..|ts| - 1], lim) + if Last(ts, lim).Accepted? then 0 else 1
  }

  function Mutes(ts: seq<int>, lim: Limits): nat {
    if ts == [] then 0 else Mutes(ts[..|ts| - 1], lim) + if Last(ts, lim).Muted? then 1 else 0
  }

  /** Strikes dropped by the cool-down, which only an accepted message can bring about. */
  function Forgiven(ts: seq<int>, lim: Limits): int {
    if ts == [] then 0
    else
      var before := ts[..|ts| - 1];
      Forgiven(before, lim)
      + if Last(ts, lim).Accepted? then After(before, lim).strikeCount - After(ts, lim).strikeCount else 0
  }

  /** Every rejected message is accounted for: it went into a mute, is a standing strike, or was
      forgiven. Standing strikes stay below the threshold. */
  lemma {:induction false} StrikesAreConserved(ts: seq<int>, lim: Limits)
    requires lim.strikes >= 1
    ensures Rejected(ts, lim) == Mutes(ts, lim) * lim.strikes + After(ts, lim).strikeCount + Forgiven(ts, lim)
    ensures 0 <= After(ts, lim).strikeCount < lim.strikes && Forgiven(ts, lim) >= 0
    ensures Mutes(ts, lim) * lim.strikes <= Rejected(ts, lim)
  {
    if ts != [] {
      var before := ts[..|ts| - 1];
      StrikesAreConserved(before, lim);
      assert (Mutes(before, lim) + 1) * lim.strikes == Mutes(before, lim) * lim.strikes + lim.strikes;
    }
  }

  /** With no threshold above one a rejected message mutes at once, every time. */
  lemma {:induction false} NoThresholdMutesAlways(ts: seq<int>, lim: Limits)
    requires lim.strikes <= 1
    ensures Mutes(ts, lim) == Rejected(ts, lim) && After(ts, lim).strikeCount == 0
  {
    if ts != [] {
      NoThresholdMutesAlways(ts[..|ts| - 1], lim);
    }
  }

  /** When the last message was rejected. */
  function LastRejected(ts: seq<int>, lim: Limits): Instant {
    if ts == [] then Never
    else if Last(ts, lim).Accepted? then LastRejected(ts[..|ts| - 1], lim)
    else At(ts[|ts| - 1])
  }

  lemma {:induction false} StrikesAreDated(ts: seq<int>, lim: Limits)
    ensures After(ts, lim).lastStrike == LastRejected(ts, lim)
  {
    if ts != [] {
      StrikesAreDated(ts[..|ts| - 1], lim);
    }
  }

  lemma {:induction false} StrikesArePositive(ts: seq<int>, lim: Limits)
    ensures After(ts, lim).strikeCount >= 0
    ensures After(ts, lim).strikeCount > 0 ==> LastRejected(ts, lim).At?
  {
    if ts != [] {
      StrikesArePositive(ts[..|ts| - 1], lim);
      StrikesAreDated(ts[..|ts| - 1], lim);
    }
  }

  /** An accepted message forgives every standing strike exactly if more than the cool-down has gone by
      since the last message that was rejected, and none otherwise. */
  lemma ForgivenAfterTheCoolDown(ts: seq<int>, now: int, lim: Limits)
    requires Last(ts + [now], lim).Accepted?
    ensures var standing := After(ts, lim).strikeCount;
      After(ts + [now], lim).strikeCount ==
        if standing > 0 && LastRejected(ts, lim).At? && now - LastRejected(ts, lim).t > lim.resetAfter then 0
        else standing
    ensures After(ts, lim).strikeCount > 0 ==> LastRejected(ts, lim).At?
  {
    assert (ts + [now])[..|ts|] == ts;
    StrikesAreDated(ts, lim);
    StrikesArePositive(ts, lim);
  }

  /** A rejected message is a strike; the one that reaches the threshold mutes, and the count starts
      over. */
  lemma StrikeOrMute(ts: seq<int>, now: int, lim: Limits)
    requires !Last(ts + [now], lim).Accepted?
    ensures var standing := After(ts, lim).strikeCount;
      && (Last(ts + [now], lim).Muted? <==> standing + 1 >= lim.strikes)
      && After(ts + [now], lim).strikeCount == if standing + 1 >= lim.strikes then 0 else standing + 1
  {
    assert (ts + [now])[..|ts|] == ts;
  }
}
