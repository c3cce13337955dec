/**
 * The replay sequencer of src/Utils/TelegramPlayer.cs. A one-shot timer
 * (`AutoReset = false`) fires the `Elapsed` handler; each firing is one call
 * of `Tick` here. The `TelegramReceived` and `PlaybackFinished` events are
 * modelled by the sequence of telegrams handed to the first and the number
 * of times the second (together with `signal.Release()`) was raised.
 */
module Player {
  import opened Wrappers
  import Telegrams

  const DefaultInterval: real := 5.0

  const NoHandlerMessage := "No eventHandler for TelegramReceived registered"

  /** The state of a player, with the events raised so far. */
  datatype PlayerState = PlayerState(
    telegrams: seq<Telegrams.BaseTelegram>,
    position: int,
    interval: real,
    hasHandler: bool,                    // TelegramReceived != null
    timerRunning: bool,
    received: seq<Telegrams.BaseTelegram>, // arguments of TelegramReceived, in order
    finished: nat)                       // PlaybackFinished raised and signal released

  /** What one firing of the timer ends in. */
  datatype TickOutcome =
    | Continue    // the timer was restarted
    | Finish      // the last telegram was reached: completion signalled
    | IndexFault  // `Telegrams[++position]` was out of range

  /** The constructor: empty list, position -1, the given or the default interval. */
  function Start(interval: Option<real>): (p: PlayerState)
    ensures p.telegrams == [] && p.position == -1 && !p.timerRunning
    ensures !p.hasHandler && p.received == [] && p.finished == 0
    ensures interval.None? ==> p.interval == DefaultInterval
    ensures interval.Some? ==> p.interval == interval.value
  {
    PlayerState([], -1, if interval.Some? then interval.value else DefaultInterval, false, false, [], 0)
  }

  /** `AddTelegram`: `Telegrams.Add(t)`. */
  function Added(p: PlayerState, t: Telegrams.BaseTelegram): (q: PlayerState)
    ensures |q.telegrams| == |p.telegrams| + 1
    ensures q.telegrams[..|p.telegrams|] == p.telegrams && q.telegrams[|p.telegrams|] == t
    ensures q.(telegrams := p.telegrams) == p
  {
    var q := p.(telegrams := p.telegrams + [t]);
    assert q.telegrams[..|p.telegrams|] == p.telegrams;
    q
  }

  /** The task body of `ReplayTelegramsAsync` up to its wait: check the handler, start the timer. */
  function Replay(p: PlayerState): (r: Result<PlayerState, string>)
    ensures r.Failure? <==> !p.hasHandler
    ensures r.Failure? ==> r.error == NoHandlerMessage
    ensures r.Success? ==> r.value == p.(timerRunning := true)
  {
    if !p.hasHandler then Failure(NoHandlerMessage) else Success(p.(timerRunning := true))
  }

  /**
   * The `Elapsed` handler. The timer has stopped by the time it runs. With a
   * handler registered, `++position` happens before the list is indexed, so
   * a fault still moves the position; during a fault the rest of the handler
   * (release or restart) is skipped.
   */
  function Elapsed(p: PlayerState): (PlayerState, TickOutcome)
    requires p.timerRunning
  {
    var stopped := p.(timerRunning := false);
    var pos := p.position + 1;
    if p.hasHandler && !(0 <= pos < |p.telegrams|) then
      (stopped.(position := pos), IndexFault)
    else
      var fired := if p.hasHandler
        then stopped.(position := pos, received := p.received + [p.telegrams[pos]])
        else stopped;
      if fired.position >= |p.telegrams| - 1 then (fired.(finished := p.finished + 1), Finish)
      else (fired.(timerRunning := true), Continue)
  }

  /** `k` firings of the timer, for as long as it keeps being restarted. */
  function Play(p: PlayerState, k: nat): PlayerState
    decreases k
  {
    if k == 0 || !p.timerRunning then p else Play(Elapsed(p).0, k - 1)
  }

  /**
   * From a running replay, each firing hands on the next telegram in list
   * order.
   */
  lemma {:induction false} PlayInOrder(p: PlayerState, k: nat)
    requires p.hasHandler && p.timerRunning
    requires -1 <= p.position < |p.telegrams| - 1
    requires p.position + k <= |p.telegrams| - 1
    ensures var q := Play(p, k);
      && q.telegrams == p.telegrams && q.hasHandler
      && q.position == p.position + k
      && q.received == p.received + p.telegrams[p.position + 1 .. p.position + 1 + k]
    decreases k
  {
    var i := p.position + 1;
    if k == 0 {
      assert p.telegrams[i .. i] == [];
    } else {
      var q := Elapsed(p).0;
      assert Play(p, k) == Play(q, k - 1);
      ElapsedNext(p);
      if i == |p.telegrams| - 1 {
        assert k == 1 && Play(q, k - 1) == q;
        assert p.telegrams[i .. i + k] == [p.telegrams[i]];
      } else {
        PlayInOrder(q, k - 1);
        var r := Play(q, k - 1);
        assert r.received == q.received + q.telegrams[i + 1 .. i + k];
        Regroup(p.received, p.telegrams, i, k);
      }
    }
  }

  /**
   * The firing that reaches the last telegram signals completion and does
   * not restart the timer; the ones before it restart it and signal nothing.
   */
  lemma {:induction false} PlayFinishesOnce(p: PlayerState, k: nat)
    requires p.hasHandler && p.timerRunning
    requires -1 <= p.position < |p.telegrams| - 1
    requires p.position + k <= |p.telegrams| - 1
    ensures var q := Play(p, k);
      && (q.timerRunning <==> p.position + k < |p.telegrams| - 1)
      && q.finished == p.finished + (if p.position + k == |p.telegrams| - 1 then 1 else 0)
    decreases k
  {
    if k > 0 {
      var q := Elapsed(p).0;
      assert Play(p, k) == Play(q, k - 1);
      ElapsedNext(p);
      if p.position + 1 == |p.telegrams| - 1 {
        assert k == 1 && Play(q, k - 1) == q;
      } else {
        PlayFinishesOnce(q, k - 1);
      }
    }
  }

  /** `xs + [s[i]] + s[i+1 .. i+k]` is `xs + s[i .. i+k]`. */
  lemma Regroup<T>(xs: seq<T>, s: seq<T>, i: nat, k: nat)
    requires 1 <= k && i + k <= |s|
    ensures xs + [s[i]] + s[i + 1 .. i + k] == xs + s[i .. i + k]
  {
    assert s[i .. i + k] == [s[i]] + s[i + 1 .. i + k];
  }

  /** One firing of a running replay that is not yet past the end. */
  lemma ElapsedNext(p: PlayerState)
    requires p.hasHandler && p.timerRunning
    requires -1 <= p.position < |p.telegrams| - 1
    ensures var q, i := Elapsed(p).0, p.position + 1;
      && q.telegrams == p.telegrams && q.hasHandler
      && q.position == i
      && q.received == p.received + [p.telegrams[i]]
      && (q.timerRunning <==> i < |p.telegrams| - 1)
      && q.finished == p.finished + (if i == |p.telegrams| - 1 then 1 else 0)
  {
  }

  /** A stopped timer fires no more: extra ticks change nothing. */
  lemma {:induction false} PlayStopped(p: PlayerState, k: nat)
    requires !p.timerRunning
    ensures Play(p, k) == p
  {
  }

  /**
   * A first replay of `n >= 1` telegrams hands each of them to the handler
   * once, in list order, and signals completion exactly once: after `n`
   * firings, and however many firings are allowed beyond that.
   */
  lemma ReplayPlaysAll(p: PlayerState, extra: nat)
    requires p.hasHandler && p.position == -1 && |p.telegrams| >= 1
    requires p.received == [] && p.finished == 0
    ensures Replay(p).Success?
    ensures var q := Play(Replay(p).value, |p.telegrams| + extra);
      && q.received == p.telegrams
      && q.finished == 1
      && !q.timerRunning
  {
    var r := Replay(p).value;
    var n := |p.telegrams|;
    PlayInOrder(r, n);
    PlayFinishesOnce(r, n);
    assert r.telegrams[0..n] == p.telegrams;
    PlayAfter(r, n, extra);
    PlayStopped(Play(r, n), extra);
  }

  /** Firing `j + k` times is firing `j` times, then `k` more. */
  lemma {:induction false} PlayAfter(p: PlayerState, j: nat, k: nat)
    ensures Play(p, j + k) == Play(Play(p, j), k)
    decreases j
  {
    if j > 0 && p.timerRunning {
      PlayAfter(Elapsed(p).0, j - 1, k);
    }
  }

  /**
   * Replaying an empty list never completes: the first firing indexes
   * `Telegrams[0]` out of range and the timer is left stopped.
   */
  lemma EmptyReplayFaults(p: PlayerState, k: nat)
    requires p.hasHandler && p.position == -1 && p.telegrams == [] && p.finished == 0
    ensures Replay(p).Success?
    ensures Elapsed(Replay(p).value).1 == IndexFault
    ensures Play(Replay(p).value, k).finished == 0
  {
    var r := Replay(p).value;
    if k > 0 {
      PlayStopped(Elapsed(r).0, k - 1);
    }
  }

  /**
   * `position` is never reset: once a replay has reached the last telegram,
   * replaying the same list again faults on its first firing.
   */
  lemma NoSecondReplay(p: PlayerState)
    requires p.hasHandler && |p.telegrams| >= 1 && p.position == |p.telegrams| - 1
    ensures Replay(p).Success? && Replay(p).value.position == p.position
    ensures Elapsed(Replay(p).value).1 == IndexFault
  {
  }

  /** The TelegramPlayer object; its fields mirror PlayerState. */
  class TelegramPlayer {
    var telegrams: seq<Telegrams.BaseTelegram>
    var position: int
    var interval: real
    var hasHandler: bool
    var timerRunning: bool
    var received: seq<Telegrams.BaseTelegram>
    var finished: nat

    function Abs(): PlayerState
      reads this
    {
      PlayerState(telegrams, position, interval, hasHandler, timerRunning, received, finished)
    }

    constructor(interval: Option<real>)
      ensures Abs() == Start(interval)
    {
      telegrams := [];
      position := -1;
      this.interval := if interval.Some? then interval.value else DefaultInterval;
      hasHandler := false;
      timerRunning := false;
      received := [];
      finished := 0;
    }

    /** `TelegramReceived += ...` (`registered`) or the last `-= ...`. */
    method SetTelegramReceived(registered: bool)
      modifies this
      ensures Abs() == old(Abs()).(hasHandler := registered)
    {
      hasHandler := registered;
    }

    method AddTelegram(t: Telegrams.BaseTelegram)
      modifies this
      ensures Abs() == Added(old(Abs()), t)
    {
      telegrams := telegrams + [t];
    }

    method ReplayTelegrams() returns (r: Result<(), string>)
      modifies this
      ensures Replay(old(Abs())).Success? ==> r.Success? && Abs() == Replay(old(Abs())).value
      ensures Replay(old(Abs())).Failure? ==> r == Failure(NoHandlerMessage) && Abs() == old(Abs())
    {
      if !hasHandler {
        return Failure(NoHandlerMessage);
      }
      timerRunning := true;
      return Success(());
    }

    /** One firing of the `Elapsed` handler. */
    method Tick() returns (outcome: TickOutcome)
      requires timerRunning
      modifies this
      ensures (Abs(), outcome) == Elapsed(old(Abs()))
    {
      timerRunning := false;
      if hasHandler {
        position := position + 1;
        if !(0 <= position < |telegrams|) {
          return IndexFault;
        }
        received := received + [telegrams[position]];
      }
      if position >= |telegrams| - 1 {
        finished := finished + 1;
        outcome := Finish;
      } else {
        timerRunning := true;
        outcome := Continue;
      }
    }
  }
}
