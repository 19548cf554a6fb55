/**
 * The output pass: each output whose interval has elapsed since it last ran has
 * its producer run; the run stamps the output with the current time, and a
 * message the producer set is published to the output's topic.
 */
module Scheduler {
  import opened Wrappers
  import opened Bindings

  /**
   * The interval has elapsed since the last run. An output is never due before its
   * last run, and one with interval 0 is due on every pass not before its last run.
   */
  function Due(o: Output, now: nat): (due: bool)
    ensures due ==> o.lastRun <= now
    ensures o.interval == 0 && o.lastRun <= now ==> due
    ensures due <==> o.lastRun + o.interval <= now
  {
    now - o.lastRun >= o.interval
  }

  /** The output after the pass at `now`: stamped if it ran, as it was otherwise. */
  function Advance(o: Output, now: nat): (o': Output)
    ensures o'.topic == o.topic && o'.loop == o.loop && o'.interval == o.interval
    ensures Due(o, now) ==> o'.lastRun == now
    ensures !Due(o, now) ==> o' == o
  {
    if Due(o, now) then o.(lastRun := now) else o
  }

  /**
   * The output list after a pass at `now`: the same bindings and intervals; an output
   * that ran now has `lastRun == now`, one that did not keeps its `lastRun`.
   */
  function AfterPass(outs: seq<Output>, now: nat): (r: seq<Output>)
    ensures |r| == |outs|
    ensures forall k :: 0 <= k < |r| ==>
              r[k].topic == outs[k].topic && r[k].loop == outs[k].loop && r[k].interval == outs[k].interval
    ensures forall k :: 0 <= k < |r| ==> r[k].lastRun == if Due(outs[k], now) then now else outs[k].lastRun
  {
    seq(|outs|, k requires 0 <= k < |outs| => Advance(outs[k], now))
  }

  /** What one output publishes: its slot's message, if it ran and set one. */
  function Emit(o: Output, now: nat, slot: Option<string>): seq<Message> {
    if Due(o, now) && slot.Some? then [Message(o.topic, slot.value)] else []
  }

  /**
   * The messages a pass at `now` publishes, in list order; `produced[k]` is what the
   * producer of output `k` leaves in its slot when it is run.
   */
  function Emitted(outs: seq<Output>, now: nat, produced: seq<Option<string>>): (r: seq<Message>)
    requires |produced| == |outs|
    ensures |r| <= |outs|
    decreases |outs|
  {
    if outs == [] then []
    else
      var n := |outs| - 1;
      Emitted(outs[..n], now, produced[..n]) + Emit(outs[n], now, produced[n])
  }

  /** The producers a pass at `now` runs, in list order. */
  function Ran(outs: seq<Output>, now: nat): (r: seq<Producer>)
    ensures |r| <= |outs|
    decreases |outs|
  {
    if outs == [] then []
    else
      var n := |outs| - 1;
      Ran(outs[..n], now) + (if Due(outs[n], now) then [outs[n].loop] else [])
  }

  /** Extending a pass by one more output adds that output's message and run. */
  lemma PassStep(outs: seq<Output>, now: nat, produced: seq<Option<string>>, k: nat)
    requires |produced| == |outs| && k < |outs|
    ensures Emitted(outs[..k + 1], now, produced[..k + 1])
            == Emitted(outs[..k], now, produced[..k]) + Emit(outs[k], now, produced[k])
    ensures Ran(outs[..k + 1], now)
            == Ran(outs[..k], now) + (if Due(outs[k], now) then [outs[k].loop] else [])
  {
    assert outs[..k + 1][..k] == outs[..k];
    assert produced[..k + 1][..k] == produced[..k];
  }

  /**
   * The loop of the output pass: each output in order is checked, run if due, stamped
   * with `now` when run, and the message its producer set (if any) is collected.
   */
  method Pass(outs: seq<Output>, now: nat, produced: seq<Option<string>>)
    returns (next: seq<Output>, ran: seq<Producer>, sent: seq<Message>)
    requires |produced| == |outs|
    ensures next == AfterPass(outs, now)
    ensures ran == Ran(outs, now)
    ensures sent == Emitted(outs, now, produced)
  {
    next, ran, sent := outs, [], [];
    for k := 0 to |outs|
      invariant |next| == |outs|
      invariant forall j :: 0 <= j < k ==> next[j] == Advance(outs[j], now)
      invariant forall j :: k <= j < |outs| ==> next[j] == outs[j]
      invariant sent == Emitted(outs[..k], now, produced[..k])
      invariant ran == Ran(outs[..k], now)
    {
      var o := next[k];
      PassStep(outs, now, produced, k);
      if Due(o, now) {
        ran := ran + [o.loop];
        if produced[k].Some? {
          sent := sent + [Message(o.topic, produced[k].value)];
        }
        next := next[k := o.(lastRun := now)];
      }
    }
    assert outs[..|outs|] == outs && produced[..|produced|] == produced;
  }

  /** After a run at `now`, the output is next due exactly one interval later. */
  lemma NextDueOneIntervalLater(o: Output, now: nat, later: nat)
    requires Due(o, now)
    ensures Due(Advance(o, now), later) <==> later >= now + o.interval
  {
  }

  /** A pass at `now` leaves no output stamped later than `now` if none was before. */
  lemma AfterPassNotInFuture(outs: seq<Output>, now: nat)
    requires forall k :: 0 <= k < |outs| ==> outs[k].lastRun <= now
    ensures forall k :: 0 <= k < |outs| ==> AfterPass(outs, now)[k].lastRun <= now
  {
  }

  /** Every published message comes from an output that ran and whose producer set it. */
  lemma {:induction false} EmittedSound(outs: seq<Output>, now: nat, produced: seq<Option<string>>, m: Message)
    requires |produced| == |outs|
    requires m in Emitted(outs, now, produced)
    ensures exists k :: 0 <= k < |outs| && Due(outs[k], now) && produced[k] == Some(m.payload)
                        && outs[k].topic == m.topic
    decreases |outs|
  {
    var n := |outs| - 1;
    if m in Emitted(outs[..n], now, produced[..n]) {
      EmittedSound(outs[..n], now, produced[..n], m);
      var k :| 0 <= k < n && Due(outs[..n][k], now) && produced[..n][k] == Some(m.payload)
               && outs[..n][k].topic == m.topic;
      assert outs[k] == outs[..n][k] && produced[k] == produced[..n][k];
    } else {
      assert Due(outs[n], now) && produced[n] == Some(m.payload) && outs[n].topic == m.topic;
    }
  }

  /** Every output that ran and whose producer set a message publishes it to its topic. */
  lemma {:induction false} EmittedComplete(outs: seq<Output>, now: nat, produced: seq<Option<string>>, k: nat)
    requires |produced| == |outs| && k < |outs|
    requires Due(outs[k], now) && produced[k].Some?
    ensures Message(outs[k].topic, produced[k].value) in Emitted(outs, now, produced)
    decreases |outs|
  {
    var n := |outs| - 1;
    if k < n {
      assert outs[..n][k] == outs[k] && produced[..n][k] == produced[k];
      EmittedComplete(outs[..n], now, produced[..n], k);
    }
  }

  /** A pass in which no producer sets its slot publishes nothing. */
  lemma {:induction false} UnsetSlotsPublishNothing(outs: seq<Output>, now: nat, produced: seq<Option<string>>)
    requires |produced| == |outs|
    requires forall k :: 0 <= k < |produced| ==> produced[k] == None
    ensures Emitted(outs, now, produced) == []
    decreases |outs|
  {
    if outs != [] {
      var n := |outs| - 1;
      assert forall k :: 0 <= k < n ==> produced[..n][k] == produced[k];
      UnsetSlotsPublishNothing(outs[..n], now, produced[..n]);
    }
  }

  /** A producer is run exactly when some output that is due has it. */
  lemma {:induction false} RanMembership(outs: seq<Output>, now: nat, p: Producer)
    ensures p in Ran(outs, now) <==> exists k :: 0 <= k < |outs| && Due(outs[k], now) && outs[k].loop == p
    decreases |outs|
  {
    if outs != [] {
      var n := |outs| - 1;
      RanMembership(outs[..n], now, p);
      if p in Ran(outs, now) && p !in Ran(outs[..n], now) {
        assert Due(outs[n], now) && outs[n].loop == p;
      }
      if exists k :: 0 <= k < |outs| && Due(outs[k], now) && outs[k].loop == p {
        var k :| 0 <= k < |outs| && Due(outs[k], now) && outs[k].loop == p;
        if k < n {
          assert outs[..n][k] == outs[k];
        }
      }
    }
  }

  /** When every output has interval 0 and is not stamped in the future, all of them run. */
  lemma {:induction false} ZeroIntervalsRunEveryPass(outs: seq<Output>, now: nat)
    requires forall k :: 0 <= k < |outs| ==> outs[k].interval == 0 && outs[k].lastRun <= now
    ensures Ran(outs, now) == seq(|outs|, k requires 0 <= k < |outs| => outs[k].loop)
    decreases |outs|
  {
    if outs != [] {
      var n := |outs| - 1;
      assert forall k :: 0 <= k < n ==> outs[..n][k] == outs[k];
      ZeroIntervalsRunEveryPass(outs[..n], now);
    }
  }

  /** An output with interval 0 that is not stamped after `now` has its producer run. */
  lemma ZeroIntervalRuns(outs: seq<Output>, now: nat, k: nat)
    requires k < |outs| && outs[k].interval == 0 && outs[k].lastRun <= now
    ensures outs[k].loop in Ran(outs, now)
  {
    RanMembership(outs, now, outs[k].loop);
  }

  /** A pass over two lists runs the producers of the first list before those of the second. */
  lemma {:induction false} RanAppend(a: seq<Output>, b: seq<Output>, now: nat)
    ensures Ran(a + b, now) == Ran(a, now) + Ran(b, now)
    decreases |b|
  {
    if b == [] {
      assert a + b == a;
    } else {
      var n := |b| - 1;
      assert (a + b)[..|a + b| - 1] == a + b[..n];
      assert (a + b)[|a + b| - 1] == b[n];
      RanAppend(a, b[..n], now);
    }
  }

  /** A pass over two lists publishes the messages of the first list before those of the second. */
  lemma {:induction false} EmittedAppend(a: seq<Output>, b: seq<Output>, now: nat,
                                         pa: seq<Option<string>>, pb: seq<Option<string>>)
    requires |pa| == |a| && |pb| == |b|
    ensures Emitted(a + b, now, pa + pb) == Emitted(a, now, pa) + Emitted(b, now, pb)
    decreases |b|
  {
    if b == [] {
      assert a + b == a && pa + pb == pa;
    } else {
      var n := |b| - 1;
      var ab, pab := a + b, pa + pb;
      var last := Emit(b[n], now, pb[n]);
      assert ab[..|ab| - 1] == a + b[..n] && pab[..|pab| - 1] == pa + pb[..n];
      assert ab[|ab| - 1] == b[n] && pab[|pab| - 1] == pb[n];
      calc {
        Emitted(ab, now, pab);
        == { EmittedLast(ab, now, pab); }
        Emitted(a + b[..n], now, pa + pb[..n]) + last;
        == { EmittedAppend(a, b[..n], now, pa, pb[..n]); }
        Emitted(a, now, pa) + (Emitted(b[..n], now, pb[..n]) + last);
        == { EmittedLast(b, now, pb); }
        Emitted(a, now, pa) + Emitted(b, now, pb);
      }
    }
  }

  /** The last output's message comes after those of the outputs before it. */
  lemma EmittedLast(outs: seq<Output>, now: nat, produced: seq<Option<string>>)
    requires |produced| == |outs| && outs != []
    ensures Emitted(outs, now, produced)
            == Emitted(outs[..|outs| - 1], now, produced[..|outs| - 1])
               + Emit(outs[|outs| - 1], now, produced[|outs| - 1])
  {
  }
}
