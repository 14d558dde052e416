/**
 * The hero terminal's scripted transcript: an 800 ms interval reveals one line
 * per firing; after the last line it shows the logo font, stops, and a 6 s
 * timeout wipes the screen. Each interval firing is a call to Tick, the
 * timeout firing is Reset, and the effect's cleanup is Dispose.
 */
module TerminalFeed {

  class Terminal {
    /** The fixed script of lines to reveal. */
    const script: seq<string>
    /** The effect's counter `i`. */
    var i: nat
    var history: seq<string>
    var showFont: bool
    /** The interval is registered. */
    var ticking: bool
    /** The reset timeout is registered. */
    var resetPending: bool

    /**
     * The screen always shows the first `i` lines of the script; the font is
     * shown exactly while the reset is pending, and only over the full script.
     */
    ghost predicate Valid()
      reads this
    {
      i <= |script| && history == script[..i] &&
      (showFont <==> resetPending) &&
      (showFont ==> i == |script| && !ticking)
    }

    /** Mounting runs the effect: counter at zero, empty history, interval started. */
    constructor (lines: seq<string>)
      ensures Valid()
      ensures script == lines && i == 0 && history == [] && !showFont && ticking && !resetPending
    {
      script := lines;
      i := 0;
      history := [];
      showFont := false;
      ticking := true;
      resetPending := false;
    }

    /**
     * One interval firing: reveal the next line, or, with all lines shown,
     * show the font, clear the interval and schedule the reset.
     */
    method Tick()
      requires Valid() && ticking
      modifies this
      ensures Valid()
      ensures old(i) < |script| ==>
                history == old(history) + [script[old(i)]] && i == old(i) + 1 &&
                ticking && !showFont && !resetPending
      ensures old(i) == |script| ==>
                history == old(history) && i == old(i) && showFont && !ticking && resetPending
    {
      if i < |script| {
        history := history + [script[i]];
        i := i + 1;
      } else {
        showFont := true;
        ticking := false;
        resetPending := true;
      }
    }

    /**
     * The timeout firing: hide the font, clear the history, rewind `i`. The
     * interval was cleared and is not registered again, so the terminal stays
     * blank from here on.
     */
    method Reset()
      requires Valid() && resetPending
      modifies this
      ensures Valid()
      ensures i == 0 && history == [] && !showFont && !resetPending && !ticking
    {
      showFont := false;
      history := [];
      i := 0;
      resetPending := false;
    }

    /** Unmounting clears the interval; a reset already scheduled stays scheduled. */
    method Dispose()
      requires Valid()
      modifies this
      ensures Valid()
      ensures !ticking && i == old(i) && history == old(history)
      ensures showFont == old(showFont) && resetPending == old(resetPending)
    {
      ticking := false;
    }
  }
}
