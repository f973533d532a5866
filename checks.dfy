/**
 A threshold check: one hypothesis about which of two price moves, measured
 from a window's origin, is touched first.

 The source has two structs behind a boxed trait object; here they are the two
 variants of one datatype sharing the same fields. Prices and price changes are
 integers in hundredths, so thresholds such as 0.40 become 40.
 */
module Checks {
  import opened Options

  /** The source stores ordinals as `u8`. */
  newtype u8 = x: int | 0 <= x < 256

  datatype Check =
    | Up(ordinal: u8, thresholdUp: int, thresholdDown: int, result: Option<bool>)
    | Down(ordinal: u8, thresholdUp: int, thresholdDown: int, result: Option<bool>)
  {
    /** The check with its latch cleared: the configuration alone. */
    function Reset(): (r: Check)
      ensures r.result == None
      ensures r.ordinal == ordinal && r.thresholdUp == thresholdUp && r.thresholdDown == thresholdDown
      ensures r.Up? == Up?
    {
      this.(result := None)
    }

    /**
     One evaluation against a price change. `cont` is the value `track` returns:
     true means "keep tracking". On false, `check` carries the latched result.
     */
    function Track(bidChange: int, askChange: int): (r: Tracked)
      ensures r.check.Reset() == Reset()
      ensures r.cont ==> r.check == this
      ensures !r.cont ==> r.check == this.(result := r.check.result) && r.check.result.Some?
    {
      match this
      case Up(_, _, _, _) =>
        if bidChange >= thresholdUp then Tracked(this.(result := Some(true)), false)
        else if askChange <= thresholdDown then Tracked(this.(result := Some(false)), false)
        else Tracked(this, true)
      case Down(_, _, _, _) =>
        if askChange <= thresholdDown then Tracked(this.(result := Some(true)), false)
        else if bidChange >= thresholdUp then Tracked(this.(result := Some(false)), false)
        else Tracked(this, true)
    }

    /** The `result()` getter: it unwraps the latch, so the latch must be set. */
    function Value(): (b: bool)
      requires result.Some?
      ensures result == Some(b)
    {
      result.value
    }
  }

  /** What `track` leaves behind: the updated check and its return value. */
  datatype Tracked = Tracked(check: Check, cont: bool)

  /** `CheckUp::new(ordinal, threshold_up, threshold_down)`: an unlatched up check. */
  function NewCheckUp(ordinal: u8, thresholdUp: int, thresholdDown: int): (c: Check)
    ensures c.Up? && c.result == None
    ensures c.ordinal == ordinal && c.thresholdUp == thresholdUp && c.thresholdDown == thresholdDown
  {
    Up(ordinal, thresholdUp, thresholdDown, None)
  }

  /**
   `CheckDown::new(ordinal, threshold_down, threshold_up)`: an unlatched down
   check. Note the argument order: the favourable (down) threshold comes first.
   */
  function NewCheckDown(ordinal: u8, thresholdDown: int, thresholdUp: int): (c: Check)
    ensures c.Down? && c.result == None
    ensures c.ordinal == ordinal && c.thresholdUp == thresholdUp && c.thresholdDown == thresholdDown
  {
    Down(ordinal, thresholdUp, thresholdDown, None)
  }

  /** The check table the service is started with, in hundredths. */
  const DefaultChecks: seq<Check> := [
    NewCheckDown(0, -40, 20),
    NewCheckDown(1, -20, 10),
    NewCheckDown(2, -10, 5),
    NewCheckDown(3, -2, 1),
    NewCheckUp(4, 2, -1),
    NewCheckUp(5, 10, -5),
    NewCheckUp(6, 20, -10),
    NewCheckUp(7, 40, -20)
  ]

  /** A check whose favourable and adverse thresholds lie on either side of zero. */
  predicate Sane(c: Check)
  {
    c.thresholdDown < 0 < c.thresholdUp
  }

  // ---------------------------------------------------------------------------
  // The branches of `track`, one direction at a time.

  lemma TrackUpBranches(c: Check, bidChange: int, askChange: int)
    requires c.Up?
    ensures var r := c.Track(bidChange, askChange);
      && (bidChange >= c.thresholdUp ==> r == Tracked(c.(result := Some(true)), false))
      && (bidChange < c.thresholdUp && askChange <= c.thresholdDown ==> r == Tracked(c.(result := Some(false)), false))
      && (bidChange < c.thresholdUp && askChange > c.thresholdDown ==> r == Tracked(c, true))
  {
  }

  lemma TrackDownBranches(c: Check, bidChange: int, askChange: int)
    requires c.Down?
    ensures var r := c.Track(bidChange, askChange);
      && (askChange <= c.thresholdDown ==> r == Tracked(c.(result := Some(true)), false))
      && (askChange > c.thresholdDown && bidChange >= c.thresholdUp ==> r == Tracked(c.(result := Some(false)), false))
      && (askChange > c.thresholdDown && bidChange < c.thresholdUp ==> r == Tracked(c, true))
  {
  }

  /** When both thresholds are crossed by one change, both variants report the favourable outcome. */
  lemma TrackFavourableWins(c: Check, bidChange: int, askChange: int)
    requires bidChange >= c.thresholdUp && askChange <= c.thresholdDown
    ensures c.Track(bidChange, askChange) == Tracked(c.(result := Some(true)), false)
  {
  }

  /** `track` stops exactly when one of the two thresholds is crossed. */
  lemma TrackStopsIffCrossed(c: Check, bidChange: int, askChange: int)
    ensures !c.Track(bidChange, askChange).cont <==> bidChange >= c.thresholdUp || askChange <= c.thresholdDown
  {
  }

  /** A latched check, tracked again, overwrites the latch with the outcome of the new change. */
  lemma TrackIgnoresLatch(c: Check, bidChange: int, askChange: int)
    ensures c.Reset().Track(bidChange, askChange).cont == c.Track(bidChange, askChange).cont
    ensures !c.Track(bidChange, askChange).cont ==>
      c.Reset().Track(bidChange, askChange).check == c.Track(bidChange, askChange).check
  {
  }

  /** Every entry of the default table is sane and sits at its own ordinal. */
  lemma DefaultChecksWellFormed()
    ensures |DefaultChecks| == 8
    ensures forall i :: 0 <= i < |DefaultChecks| ==>
      Sane(DefaultChecks[i]) && DefaultChecks[i].ordinal as int == i && DefaultChecks[i].result == None
  {
  }
}
