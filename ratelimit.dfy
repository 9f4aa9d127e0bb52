/**
 * The per-user command limiter of internal/bot/ratelimit.go: a command is dropped when the same
 * user's previous command was less than a second ago, and the timestamp is renewed either way.
 * Time is an integer count of nanoseconds supplied by the caller.
 */
module RateLimiter {
  import opened Wrappers

  /** `time.Second` in nanoseconds. */
  const Second: int := 1_000_000_000

  /** Whether the handler runs, and the timestamp map afterwards. */
  datatype Decision = Decision(run: bool, stamps: map<int, int>)

  /**
   * One call: no sender always runs and records nothing; otherwise the call is dropped iff a
   * previous timestamp exists and is less than a second old, and the sender's stamp becomes `now`.
   */
  function Admit(stamps: map<int, int>, sender: Option<int>, now: int): (d: Decision)
    ensures sender.None? ==> d.run && d.stamps == stamps
    ensures sender.Some? ==> (!d.run <==> sender.value in stamps && now - stamps[sender.value] < Second)
    ensures sender.Some? ==> sender.value in d.stamps && d.stamps[sender.value] == now
    ensures sender.Some? ==> forall x :: x != sender.value ==>
              (x in d.stamps <==> x in stamps) && (x in stamps ==> d.stamps[x] == stamps[x])
  {
    match sender
    case None => Decision(true, stamps)
    case Some(uid) =>
      if uid in stamps && now - stamps[uid] < Second then Decision(false, stamps[uid := now])
      else Decision(true, stamps[uid := now])
  }

  /** The run flags of successive calls by one user at the given times. */
  function Calls(stamps: map<int, int>, u: int, times: seq<int>): (runs: seq<bool>)
    ensures |runs| == |times|
    decreases |times|
  {
    if times == [] then []
    else
      var d := Admit(stamps, Some(u), times[0]);
      [d.run] + Calls(d.stamps, u, times[1..])
  }

  /** Consecutive calls at most `gap` apart: each gap is below or at least a second. */
  ghost predicate GapsBelowSecond(times: seq<int>) {
    forall k :: 0 < k < |times| ==> times[k] - times[k - 1] < Second
  }

  ghost predicate GapsAtLeastSecond(times: seq<int>) {
    forall k :: 0 < k < |times| ==> times[k] - times[k - 1] >= Second
  }

  /**
   * Sliding window: since every call renews the stamp, once calls come less than a second apart
   * every call after the first is dropped, however long the burst lasts.
   */
  lemma {:induction false} BurstIsDropped(stamps: map<int, int>, u: int, times: seq<int>)
    requires GapsBelowSecond(times)
    ensures forall k :: 0 < k < |times| ==> !Calls(stamps, u, times)[k]
    decreases |times|
  {
    if |times| > 1 {
      var d := Admit(stamps, Some(u), times[0]);
      BurstIsDropped(d.stamps, u, times[1..]);
      var rest := Calls(d.stamps, u, times[1..]);
      var d2 := Admit(d.stamps, Some(u), times[1]);
      assert !d2.run;
      assert rest[0] == d2.run;
      assert Calls(stamps, u, times) == [d.run] + rest;
    }
  }

  /** Calls a second or more apart all run, the first one too when the user has no stamp yet. */
  lemma {:induction false} SpacedCallsRun(stamps: map<int, int>, u: int, times: seq<int>)
    requires GapsAtLeastSecond(times)
    requires u !in stamps
    ensures forall k :: 0 <= k < |times| ==> Calls(stamps, u, times)[k]
  {
    if times != [] {
      var d := Admit(stamps, Some(u), times[0]);
      SpacedRunsAfter(d.stamps, u, times[0], times[1..]);
    }
  }

  lemma {:induction false} SpacedRunsAfter(stamps: map<int, int>, u: int, last: int, times: seq<int>)
    requires u in stamps && stamps[u] == last
    requires times != [] ==> times[0] - last >= Second
    requires GapsAtLeastSecond(times)
    ensures forall k :: 0 <= k < |times| ==> Calls(stamps, u, times)[k]
    decreases |times|
  {
    if times != [] {
      var d := Admit(stamps, Some(u), times[0]);
      SpacedRunsAfter(d.stamps, u, times[0], times[1..]);
    }
  }

  /** Two commands 500 ms apart: the second is dropped; 1500 ms apart: both run. */
  lemma TwoCommandExamples(stamps: map<int, int>, u: int, t: int)
    requires u !in stamps
    ensures Calls(stamps, u, [t, t + 500_000_000]) == [true, false]
    ensures Calls(stamps, u, [t, t + 1_500_000_000]) == [true, true]
  {
    assert [t, t + 500_000_000][1..] == [t + 500_000_000];
    assert [t, t + 1_500_000_000][1..] == [t + 1_500_000_000];
  }
}
