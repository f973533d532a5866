/**
 The window controller: it buffers the quote events of the current window,
 evaluates the active checks against each one, and slides the window origin
 forward over the buffer once every check has resolved.

 The trading-calendar helpers of the source are not part of this model: an
 event carries whether it lies in trading time and its trading day as fields.
 */
module Handler {
  import opened Options
  import opened Checks

  /** A quote tick. Prices are in hundredths; `date` is a day number. */
  datatype QuoteEvent = QuoteEvent(
    eventId: nat,
    offset: nat,
    bid: int,
    ask: int,
    inTradingTime: bool,
    date: int)

  /** The reference prices of a window's origin. */
  datatype Values = Values(bid: int, ask: int)

  /** What `ids` reports for a window. */
  datatype LabelIds = LabelIds(eventId: nat, offsetFrom: nat, offsetTo: nat)

  function ValuesOf(event: QuoteEvent): (v: Values)
    ensures v.bid == event.bid && v.ask == event.ask
  {
    Values(event.bid, event.ask)
  }

  /** `rounded_diff` on prices already held in hundredths: rounding has nothing left to do. */
  function RoundedDiff(a: int, b: int): (d: int)
    ensures d + b == a
  {
    a - b
  }

  /** The long side: what the event's bid gains over what buying at the origin cost. */
  function BidChange(start: Values, event: QuoteEvent): int
  {
    RoundedDiff(event.bid, start.ask)
  }

  /** The short side: what the event's ask moved from what selling at the origin fetched. */
  function AskChange(start: Values, event: QuoteEvent): int
  {
    RoundedDiff(event.ask, start.bid)
  }

  /** Buffer offsets strictly increase from front to back. */
  ghost predicate OffsetsIncreasing(events: seq<QuoteEvent>)
  {
    forall i, j :: 0 <= i < j < |events| ==> events[i].offset < events[j].offset
  }

  // ---------------------------------------------------------------------------
  // What one `proc` call does to the two check vectors.

  /** The checks `extract_if` leaves in place: those whose `track` returned true. */
  function Kept(checks: seq<Check>, bidChange: int, askChange: int): seq<Check>
  {
    if checks == [] then []
    else
      var t := checks[|checks| - 1].Track(bidChange, askChange);
      Kept(checks[..|checks| - 1], bidChange, askChange) + (if t.cont then [t.check] else [])
  }

  /** The checks `extract_if` yields, in order, with the results their `track` latched. */
  function Fired(checks: seq<Check>, bidChange: int, askChange: int): seq<Check>
  {
    if checks == [] then []
    else
      var t := checks[|checks| - 1].Track(bidChange, askChange);
      Fired(checks[..|checks| - 1], bidChange, askChange) + (if t.cont then [] else [t.check])
  }

  /** The active and the resolved checks of a window. */
  datatype Pools = Pools(active: seq<Check>, complete: seq<Check>)

  /** One `proc` call, on values. */
  function ProcStep(start: Values, event: QuoteEvent, p: Pools): Pools
  {
    var b, a := BidChange(start, event), AskChange(start, event);
    Pools(Kept(p.active, b, a), p.complete + Fired(p.active, b, a))
  }

  /** `proc` applied to every event of `events` in order, all against the same origin. */
  function Replay(start: Values, events: seq<QuoteEvent>, p: Pools): Pools
  {
    if events == [] then p
    else ProcStep(start, events[|events| - 1], Replay(start, events[..|events| - 1], p))
  }

  /** The configuration of each check with its latch cleared. */
  function Erase(checks: seq<Check>): (r: seq<Check>)
    ensures |r| == |checks|
  {
    seq(|checks|, i requires 0 <= i < |checks| => checks[i].Reset())
  }

  /** The checks of a pool, up to their latches, as a multiset. */
  function Configs(p: Pools): multiset<Check>
  {
    multiset(Erase(p.active)) + multiset(Erase(p.complete))
  }

  /** Every check in `checks` has its latch set. */
  predicate AllResolved(checks: seq<Check>)
  {
    forall i :: 0 <= i < |checks| ==> checks[i].result.Some?
  }

  class HandleEvents {
    var checks: seq<Check>
    var complete: seq<Check>
    var events: seq<QuoteEvent>
    var startDate: int
    var startValues: Values
    /** The check list the controller was built with. */
    ghost var initial: seq<Check>

    /**
     The controller's invariant: no check is lost or duplicated (up to its
     latch), an empty buffer has no resolved checks, and every resolved check
     has its latch set.
     */
    ghost predicate Valid()
      reads this
    {
      && Configs(Pools(checks, complete)) == multiset(Erase(initial))
      && (events == [] ==> complete == [])
      && AllResolved(complete)
    }

    /** `HandleEvents::new`: all checks active, nothing buffered, default origin. */
    constructor (checks: seq<Check>)
      ensures Valid()
      ensures this.checks == checks && complete == [] && events == []
      ensures startDate == 0 && startValues == Values(0, 0) && initial == checks
    {
      this.checks := checks;
      complete := [];
      events := [];
      startDate := 0;
      startValues := Values(0, 0);
      initial := checks;
    }

    /** A window is done when no check is active any more. */
    function IsDone(): (done: bool)
      reads this
      ensures done <==> |checks| == 0
    {
      checks == []
    }

    /** The origin's event id and the offset range the label covers. */
    function Ids(): (ids: LabelIds)
      reads this
      requires events != []
      ensures ids.eventId == events[0].eventId
      ensures ids.offsetFrom == events[0].offset && ids.offsetTo == events[|events| - 1].offset
      ensures OffsetsIncreasing(events) ==> ids.offsetFrom <= ids.offsetTo
    {
      LabelIds(events[0].eventId, events[0].offset, events[|events| - 1].offset)
    }

    /**
     Evaluates every active check against one event, moving the resolved ones,
     in order, to the end of `complete`; returns whether any check is still active.
     */
    static method Proc(start: Values, event: QuoteEvent, checks: seq<Check>, complete: seq<Check>)
      returns (checks': seq<Check>, complete': seq<Check>, cont: bool)
      ensures checks' == Kept(checks, BidChange(start, event), AskChange(start, event))
      ensures complete' == complete + Fired(checks, BidChange(start, event), AskChange(start, event))
      ensures cont <==> |checks'| > 0
    {
      var bidChange := RoundedDiff(event.bid, start.ask);
      var askChange := RoundedDiff(event.ask, start.bid);
      checks' := [];
      var fired := [];
      for i := 0 to |checks|
        invariant checks' == Kept(checks[..i], bidChange, askChange)
        invariant fired == Fired(checks[..i], bidChange, askChange)
      {
        assert checks[..i + 1][..i] == checks[..i];
        var t := checks[i].Track(bidChange, askChange);
        if t.cont {
          checks' := checks' + [t.check];
        } else {
          fired := fired + [t.check];
        }
      }
      assert checks[..|checks|] == checks;
      complete' := complete + fired;
      cont := checks' != [];
    }

    /**
     Moves the resolved checks back behind the active ones. The source then
     walks the emptied `complete` to reset each check, so no latch is cleared.
     */
    method ResetChecks()
      modifies this
      ensures checks == old(checks) + old(complete) && complete == []
      ensures events == old(events) && startDate == old(startDate) && startValues == old(startValues)
      ensures initial == old(initial)
      ensures Configs(Pools(checks, complete)) == Configs(Pools(old(checks), old(complete)))
    {
      ConfigsMerge(checks, complete);
      checks := checks + complete;
      complete := [];
    }

    /** Drops the buffered window, if there is one, and returns every check to `checks`. */
    method Reset()
      requires Valid()
      modifies this
      ensures Valid()
      ensures old(events) == [] ==>
        checks == old(checks) && complete == old(complete) && events == []
      ensures old(events) != [] ==>
        checks == old(checks) + old(complete) && complete == [] && events == []
      ensures startDate == old(startDate) && startValues == old(startValues) && initial == old(initial)
    {
      if events == [] {
        return;
      }
      ResetChecks();
      events := [];
    }

    /** Makes `event` the window origin. */
    method StartWith(event: QuoteEvent)
      modifies this
      ensures startValues == ValuesOf(event) && startDate == event.date
      ensures checks == old(checks) && complete == old(complete) && events == old(events)
      ensures initial == old(initial)
    {
      startValues := ValuesOf(event);
      startDate := event.date;
    }

    /**
     Slides the window: drops the origin, makes the next buffered event the new
     origin and replays the whole remaining buffer (the new origin included)
     against it. Returns whether the window is complete again.
     */
    method MoveToNext() returns (done: bool)
      requires Valid()
      requires checks == [] && |events| >= 2
      modifies this
      ensures Valid()
      ensures events == old(events)[1..]
      ensures startValues == ValuesOf(events[0]) && startDate == events[0].date
      ensures Pools(checks, complete) == Replay(startValues, events, Pools(old(complete), []))
      ensures done <==> checks == []
      ensures OffsetsIncreasing(old(events)) ==>
        OffsetsIncreasing(events) && events[0].offset > old(events)[0].offset
      ensures initial == old(initial)
    {
      ResetChecks();
      assert checks == old(complete);
      // The new origin is the next buffered event; the replay works on locals
      // and the fields take their new values together.
      var rest := events[1..];
      var newFirst := rest[0];
      var start := ValuesOf(newFirst);
      var active, resolved := ReplayEvents(start, rest, checks, complete);
      OffsetsIncreasingTail(events);
      ReplayConserves(start, rest, Pools(checks, complete));
      events, startValues, startDate := rest, start, newFirst.date;
      checks, complete := active, resolved;
      done := IsDone();
    }

    /**
     The replay loop of `move_to_next`: `proc` for every buffered event in
     order, against one origin, on the two borrowed check vectors.
     */
    static method ReplayEvents(start: Values, events: seq<QuoteEvent>, checks: seq<Check>, complete: seq<Check>)
      returns (checks': seq<Check>, complete': seq<Check>)
      ensures Pools(checks', complete') == Replay(start, events, Pools(checks, complete))
    {
      checks', complete' := checks, complete;
      for i := 0 to |events|
        invariant Pools(checks', complete') == Replay(start, events[..i], Pools(checks, complete))
      {
        assert events[..i + 1][..i] == events[..i];
        var stillActive;
        checks', complete', stillActive := Proc(start, events[i], checks', complete');
      }
      assert events[..|events|] == events;
    }

    /**
     Ingests one event. Outside trading time the window is dropped. On an empty
     buffer or a new trading day the event becomes the origin without being
     evaluated; otherwise it is evaluated against the origin. Returns whether
     the caller should keep feeding events.
     */
    method Handle(event: QuoteEvent) returns (cont: bool)
      requires Valid()
      modifies this
      ensures Valid() && initial == old(initial)
      ensures !event.inTradingTime ==>
        && cont
        && startValues == old(startValues) && startDate == old(startDate) && events == []
        && (old(events) == [] ==> checks == old(checks) && complete == old(complete))
        && (old(events) != [] ==> checks == old(checks) + old(complete) && complete == [])
      ensures event.inTradingTime && (old(events) == [] || event.date != old(startDate)) ==>
        && cont
        && events == old(events) + [event]
        && startValues == ValuesOf(event) && startDate == event.date
        && checks == old(checks) && complete == old(complete)
      ensures event.inTradingTime && old(events) != [] && event.date == old(startDate) ==>
        && events == old(events) + [event]
        && startValues == old(startValues) && startDate == old(startDate)
        && Pools(checks, complete) == ProcStep(startValues, event, Pools(old(checks), old(complete)))
        && (cont <==> checks != [])
      ensures OffsetsIncreasing(old(events)) && (old(events) != [] ==> old(events)[|old(events)| - 1].offset < event.offset)
        ==> OffsetsIncreasing(events)
    {
      if !event.inTradingTime {
        Reset();
        return true;
      }

      if events == [] {
        StartWith(event);
        events := events + [event];
        cont := true;
      } else if event.date != startDate {
        StartWith(event);
        events := events + [event];
        cont := true;
      } else {
        ghost var before := Pools(checks, complete);
        checks, complete, cont := Proc(startValues, event, checks, complete);
        ProcStepConserves(startValues, event, before);
        events := events + [event];
      }
    }
  }

  // ---------------------------------------------------------------------------
  // Properties of `proc` and of the replay.

  /** Dropping the front of an increasing buffer leaves an increasing buffer whose front is later. */
  lemma OffsetsIncreasingTail(events: seq<QuoteEvent>)
    requires |events| >= 2
    ensures OffsetsIncreasing(events) ==>
      OffsetsIncreasing(events[1..]) && events[1..][0].offset > events[0].offset
  {
  }

  lemma {:induction false} EraseAppend(a: seq<Check>, b: seq<Check>)
    ensures Erase(a + b) == Erase(a) + Erase(b)
    decreases |b|
  {
    if b == [] {
      assert a + b == a;
    } else {
      assert (a + b)[..|a + b| - 1] == a + b[..|b| - 1];
      EraseAppend(a, b[..|b| - 1]);
    }
  }

  /** Moving the resolved checks behind the active ones keeps the configurations. */
  lemma ConfigsMerge(active: seq<Check>, complete: seq<Check>)
    ensures Configs(Pools(active + complete, [])) == Configs(Pools(active, complete))
  {
    EraseAppend(active, complete);
  }

  /** `proc` neither loses nor duplicates a check: kept and fired together are the input, up to latches. */
  lemma {:induction false} KeptFiredConserve(checks: seq<Check>, bidChange: int, askChange: int)
    ensures multiset(Erase(Kept(checks, bidChange, askChange))) + multiset(Erase(Fired(checks, bidChange, askChange)))
         == multiset(Erase(checks))
    ensures |Kept(checks, bidChange, askChange)| + |Fired(checks, bidChange, askChange)| == |checks|
    decreases |checks|
  {
    if checks != [] {
      var init, c := checks[..|checks| - 1], checks[|checks| - 1];
      var t := c.Track(bidChange, askChange);
      KeptFiredConserve(init, bidChange, askChange);
      assert checks == init + [c];
      EraseAppend(init, [c]);
      EraseAppend(Kept(init, bidChange, askChange), if t.cont then [t.check] else []);
      EraseAppend(Fired(init, bidChange, askChange), if t.cont then [] else [t.check]);
    }
  }

  /** Every check `proc` moves to `complete` has its latch set. */
  lemma {:induction false} FiredResolved(checks: seq<Check>, bidChange: int, askChange: int)
    ensures AllResolved(Fired(checks, bidChange, askChange))
    decreases |checks|
  {
    if checks != [] {
      FiredResolved(checks[..|checks| - 1], bidChange, askChange);
    }
  }

  /** A check stays active exactly when it was active and its `track` returned true. */
  lemma {:induction false} KeptMembers(checks: seq<Check>, bidChange: int, askChange: int, c: Check)
    ensures c in Kept(checks, bidChange, askChange) <==> c in checks && c.Track(bidChange, askChange).cont
    decreases |checks|
  {
    if checks != [] {
      var init := checks[..|checks| - 1];
      KeptMembers(init, bidChange, askChange, c);
      assert checks == init + [checks[|checks| - 1]];
    }
  }

  /**
   The converse side of `KeptMembers`: every active check whose `track` returned
   false reaches `complete` with its latch, and nothing else does.
   */
  lemma {:induction false} FiredMembers(checks: seq<Check>, bidChange: int, askChange: int)
    ensures forall i :: 0 <= i < |checks| && !checks[i].Track(bidChange, askChange).cont ==>
      checks[i].Track(bidChange, askChange).check in Fired(checks, bidChange, askChange)
    ensures forall d :: d in Fired(checks, bidChange, askChange) ==>
      exists i :: 0 <= i < |checks| && !checks[i].Track(bidChange, askChange).cont && checks[i].Track(bidChange, askChange).check == d
    decreases |checks|
  {
    if checks != [] {
      var init := checks[..|checks| - 1];
      FiredMembers(init, bidChange, askChange);
      assert forall i :: 0 <= i < |init| ==> init[i] == checks[i];
    }
  }

  /** Kept and fired checks keep the relative order of the input: both distribute over concatenation. */
  lemma {:induction false} ProcKeepsOrder(a: seq<Check>, b: seq<Check>, bidChange: int, askChange: int)
    ensures Kept(a + b, bidChange, askChange) == Kept(a, bidChange, askChange) + Kept(b, bidChange, askChange)
    ensures Fired(a + b, bidChange, askChange) == Fired(a, bidChange, askChange) + Fired(b, bidChange, askChange)
    decreases |b|
  {
    if b == [] {
      assert a + b == a;
    } else {
      assert (a + b)[..|a + b| - 1] == a + b[..|b| - 1];
      ProcKeepsOrder(a, b[..|b| - 1], bidChange, askChange);
    }
  }

  lemma ProcStepConserves(start: Values, event: QuoteEvent, p: Pools)
    ensures Configs(ProcStep(start, event, p)) == Configs(p)
    ensures AllResolved(p.complete) ==> AllResolved(ProcStep(start, event, p).complete)
  {
    var b, a := BidChange(start, event), AskChange(start, event);
    KeptFiredConserve(p.active, b, a);
    EraseAppend(p.complete, Fired(p.active, b, a));
    FiredResolved(p.active, b, a);
  }

  /** Replaying a buffer conserves the checks and keeps every resolved latch set. */
  lemma {:induction false} ReplayConserves(start: Values, events: seq<QuoteEvent>, p: Pools)
    ensures Configs(Replay(start, events, p)) == Configs(p)
    ensures AllResolved(p.complete) ==> AllResolved(Replay(start, events, p).complete)
    decreases |events|
  {
    if events != [] {
      ReplayConserves(start, events[..|events| - 1], p);
      ProcStepConserves(start, events[|events| - 1], Replay(start, events[..|events| - 1], p));
    }
  }

  /**
   The latches `reset_checks` forgets to clear are never observed: evaluating
   the checks with their latches cleared fires the same checks with the same
   results and keeps the same configurations active.
   */
  lemma {:induction false} StaleLatchesHarmless(checks: seq<Check>, bidChange: int, askChange: int)
    ensures Fired(Erase(checks), bidChange, askChange) == Fired(checks, bidChange, askChange)
    ensures Kept(Erase(checks), bidChange, askChange) == Erase(Kept(checks, bidChange, askChange))
    decreases |checks|
  {
    if checks != [] {
      var init, c := checks[..|checks| - 1], checks[|checks| - 1];
      StaleLatchesHarmless(init, bidChange, askChange);
      TrackIgnoresLatch(c, bidChange, askChange);
      var t := c.Track(bidChange, askChange);
      assert Erase(checks)[..|checks| - 1] == Erase(init);
      EraseAppend(Kept(init, bidChange, askChange), if t.cont then [t.check] else []);
    }
  }

  /** Replaying with cleared latches resolves the same checks with the same results. */
  lemma {:induction false} ReplayIgnoresStaleLatches(start: Values, events: seq<QuoteEvent>, checks: seq<Check>)
    ensures Replay(start, events, Pools(Erase(checks), [])).complete == Replay(start, events, Pools(checks, [])).complete
    ensures Replay(start, events, Pools(Erase(checks), [])).active == Erase(Replay(start, events, Pools(checks, [])).active)
    decreases |events|
  {
    if events != [] {
      var init, e := events[..|events| - 1], events[|events| - 1];
      ReplayIgnoresStaleLatches(start, init, checks);
      StaleLatchesHarmless(Replay(start, init, Pools(checks, [])).active, BidChange(start, e), AskChange(start, e));
    }
  }

  /**
   The replay evaluates the new origin against its own prices: the bid change is
   minus the spread and the ask change the spread. With a non-negative spread no
   sane check fires on it.
   */
  lemma {:induction false} OriginAgainstItselfKeepsAll(event: QuoteEvent, checks: seq<Check>)
    requires event.bid <= event.ask
    requires forall i :: 0 <= i < |checks| ==> Sane(checks[i])
    ensures Kept(checks, BidChange(ValuesOf(event), event), AskChange(ValuesOf(event), event)) == checks
    ensures Fired(checks, BidChange(ValuesOf(event), event), AskChange(ValuesOf(event), event)) == []
    decreases |checks|
  {
    if checks != [] {
      var init := checks[..|checks| - 1];
      OriginAgainstItselfKeepsAll(event, init);
      assert checks == init + [checks[|checks| - 1]];
    }
  }

  // ---------------------------------------------------------------------------
  // Worked examples: one `proc` call against the origin bid 100.00 / ask 100.02.

  /**
   The next quote is bid 102.10 / ask 102.12, so the bid change is
   102.10 - 100.02 = 2.08. The up check with favourable threshold 2.00 resolves
   to true; the one with threshold 3.00 stays active.
   */
  lemma ExampleUpFavourable()
    ensures ProcStep(Values(10000, 10002), QuoteEvent(1, 1, 10210, 10212, true, 0),
                     Pools([NewCheckUp(0, 200, -100), NewCheckUp(1, 300, -100)], []))
         == Pools([Up(1, 300, -100, None)], [Up(0, 200, -100, Some(true))])
  {
    var a, b := NewCheckUp(0, 200, -100), NewCheckUp(1, 300, -100);
    assert [a][..0] == [] && [a, b][..1] == [a];
    assert BidChange(Values(10000, 10002), QuoteEvent(1, 1, 10210, 10212, true, 0)) == 208;
    assert AskChange(Values(10000, 10002), QuoteEvent(1, 1, 10210, 10212, true, 0)) == 212;
    assert a.Track(208, 212) == Tracked(Up(0, 200, -100, Some(true)), false);
    assert b.Track(208, 212) == Tracked(b, true);
    assert Kept([a], 208, 212) == [];
    assert Fired([a], 208, 212) == [Up(0, 200, -100, Some(true))];
    assert Kept([a, b], 208, 212) == [b];
    assert Fired([a, b], 208, 212) == [Up(0, 200, -100, Some(true))];
  }

  /**
   The next quote is bid 98.50 / ask 98.52, so the ask change is
   98.52 - 100.00 = -1.48. A down check with favourable threshold -1.00
   resolves to true, an up check with adverse threshold -1.00 to false, in
   that order behind what was already resolved; a down check at -2.00 stays active.
   */
  lemma ExampleDownFavourableUpAdverse()
    ensures ProcStep(Values(10000, 10002), QuoteEvent(2, 2, 9850, 9852, true, 0),
                     Pools([NewCheckDown(1, -100, 200), NewCheckUp(0, 200, -100), NewCheckDown(2, -200, 200)],
                           [Up(3, 10, -10, Some(true))]))
         == Pools([Down(2, 200, -200, None)],
                  [Up(3, 10, -10, Some(true)), Down(1, 200, -100, Some(true)), Up(0, 200, -100, Some(false))])
  {
    var a, b, c := NewCheckDown(1, -100, 200), NewCheckUp(0, 200, -100), NewCheckDown(2, -200, 200);
    assert [a][..0] == [] && [a, b][..1] == [a] && [a, b, c][..2] == [a, b];
    assert BidChange(Values(10000, 10002), QuoteEvent(2, 2, 9850, 9852, true, 0)) == -152;
    assert AskChange(Values(10000, 10002), QuoteEvent(2, 2, 9850, 9852, true, 0)) == -148;
    assert a.Track(-152, -148) == Tracked(Down(1, 200, -100, Some(true)), false);
    assert b.Track(-152, -148) == Tracked(Up(0, 200, -100, Some(false)), false);
    assert c.Track(-152, -148) == Tracked(c, true);
    assert Kept([a], -152, -148) == [];
    assert Fired([a], -152, -148) == [Down(1, 200, -100, Some(true))];
    assert Kept([a, b], -152, -148) == [];
    assert Fired([a, b], -152, -148) == [Down(1, 200, -100, Some(true)), Up(0, 200, -100, Some(false))];
    assert Kept([a, b, c], -152, -148) == [c];
    assert Fired([a, b, c], -152, -148) == [Down(1, 200, -100, Some(true)), Up(0, 200, -100, Some(false))];
  }
}
