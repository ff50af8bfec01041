/**
 * Digital inputs and outputs of the board: an edge detector over a boolean
 * signal, buttons and inputs that feed it from a pin reading, and outputs that
 * drive a pin. The active-high and active-low variants of the source's class
 * hierarchy are one class each with a `Polarity` parameter; inputs and buttons
 * own an `EdgeDetect` instead of inheriting from it.
 *
 * A pin is an object whose `level` is what the GPIO library reads back from it
 * (an int: 1 high, 0 low, anything else as the library reports it).
 */
module Gpio {

  class Pin {
    var level: int

    constructor (level: int)
      ensures this.level == level
    {
      this.level := level;
    }
  }

  datatype Polarity = ActiveHigh | ActiveLow

  /** The logical value a pin reading stands for: `> 0` when active high, `== 0` when active low. */
  function Sense(p: Polarity, level: int): bool
  {
    match p
    case ActiveHigh => level > 0
    case ActiveLow => level == 0
  }

  /**
   * On a clean reading (0 or 1) the two polarities report opposite values; a
   * reading outside {0, 1} is inactive for both when negative.
   */
  lemma SensePolarities(level: int)
    ensures (level == 0 || level == 1) ==> Sense(ActiveLow, level) == !Sense(ActiveHigh, level)
    ensures level < 0 ==> !Sense(ActiveLow, level) && !Sense(ActiveHigh, level)
  {
  }

  // ---------------------------------------------------------------------
  // Edge detection
  // ---------------------------------------------------------------------

  /** Tracks a sampled boolean and flags the rising (`pos`) and falling (`neg`) transitions. */
  class EdgeDetect {
    var state: bool
    var prev: bool
    var pos: bool
    var neg: bool

    /** The flags never contradict the current level, and never both fire. */
    ghost predicate Valid()
      reads this
    {
      && !(pos && neg)
      && (pos ==> state)
      && (neg ==> !state)
    }

    constructor ()
      ensures !state && !prev && !pos && !neg
      ensures Valid()
    {
      state, prev, pos, neg := false, false, false, false;
    }

    constructor Seeded(state: bool, oldState: bool)
      ensures this.state == state && prev == oldState
      ensures !pos && !neg
      ensures Valid()
    {
      this.state, prev, pos, neg := state, oldState, false, false;
    }

    /** Takes one sample: `pos` iff it rose from the last sample, `neg` iff it fell. */
    method Handler(s: bool)
      modifies this
      ensures state == s && prev == s
      ensures pos <==> !old(prev) && s
      ensures neg <==> old(prev) && !s
      ensures Valid()
    {
      state := s;
      pos := !prev && state;
      neg := prev && !state;
      prev := state;
    }
  }

  /** Sampling the same value twice leaves no edge pending, whatever came before. */
  method HandleTwice(e: EdgeDetect, s: bool)
    modifies e
    ensures e.state == s && !e.pos && !e.neg
  {
    e.Handler(s);
    e.Handler(s);
  }

  // ---------------------------------------------------------------------
  // Buttons (Button / ButtonInverted)
  // ---------------------------------------------------------------------

  /** The sample a button feeds: `readPin > 0`, or `readPin == 0` when inverted. */
  function ButtonLevel(inverted: bool, level: int): bool
  {
    if inverted then level == 0 else level > 0
  }

  class Button {
    const pin: Pin
    const inverted: bool
    const edge: EdgeDetect

    /**
     * Samples the pin twice so that a stable pin leaves no edge pending. An
     * inverted button is first built as a plain button (whose constructor
     * samples `> 0` twice) and then samples `== 0` twice.
     */
    constructor (pin: Pin, inverted: bool)
      ensures this.pin == pin && this.inverted == inverted && fresh(edge)
      ensures edge.state == ButtonLevel(inverted, pin.level)
      ensures edge.prev == edge.state && !edge.pos && !edge.neg
    {
      var e := new EdgeDetect();
      e.Handler(pin.level > 0);
      e.Handler(pin.level > 0);
      if inverted {
        e.Handler(pin.level == 0);
        e.Handler(pin.level == 0);
      }
      this.pin, this.inverted, edge := pin, inverted, e;
    }

    method Handler()
      modifies edge
      ensures edge.state == ButtonLevel(inverted, pin.level) && edge.prev == edge.state
      ensures edge.pos <==> !old(edge.prev) && edge.state
      ensures edge.neg <==> old(edge.prev) && !edge.state
    {
      edge.Handler(ButtonLevel(inverted, pin.level));
    }
  }

  // ---------------------------------------------------------------------
  // Inputs (InputActiveHigh / InputActiveLow)
  // ---------------------------------------------------------------------

  class Input {
    const pin: Pin
    const polarity: Polarity
    const edge: EdgeDetect

    /** Seeds state and previous sample with the inactive pin level of the polarity: no edge pending. */
    constructor (pin: Pin, polarity: Polarity)
      ensures this.pin == pin && this.polarity == polarity && fresh(edge)
      ensures edge.state == polarity.ActiveLow? && edge.prev == edge.state
      ensures !edge.pos && !edge.neg
    {
      var initial := polarity.ActiveLow?;
      this.pin, this.polarity := pin, polarity;
      edge := new EdgeDetect.Seeded(initial, initial);
    }

    function State(): bool
      reads edge
    {
      edge.state
    }

    function Pos(): bool
      reads edge
    {
      edge.pos
    }

    function Neg(): bool
      reads edge
    {
      edge.neg
    }

    method Handler()
      modifies edge
      ensures State() == Sense(polarity, pin.level) && edge.prev == State()
      ensures Pos() <==> !old(edge.prev) && State()
      ensures Neg() <==> old(edge.prev) && !State()
      ensures edge.Valid()
    {
      edge.Handler(Sense(polarity, pin.level));
    }
  }

  /** `gpio::task`: polls btn0, then btn1, once per main-loop iteration. */
  method Task(btn0: Input, btn1: Input)
    requires btn0.edge != btn1.edge
    modifies btn0.edge, btn1.edge
    ensures btn0.State() == Sense(btn0.polarity, btn0.pin.level)
    ensures btn1.State() == Sense(btn1.polarity, btn1.pin.level)
    ensures btn0.Neg() <==> old(btn0.edge.prev) && !btn0.State()
    ensures btn1.Neg() <==> old(btn1.edge.prev) && !btn1.State()
    ensures btn0.Pos() <==> !old(btn0.edge.prev) && btn0.State()
    ensures btn1.Pos() <==> !old(btn1.edge.prev) && btn1.State()
    ensures btn0.edge.prev == btn0.State() && btn1.edge.prev == btn1.State()
    ensures btn0.edge.Valid() && btn1.edge.Valid()
  {
    btn0.Handler();
    btn1.Handler();
  }

  // ---------------------------------------------------------------------
  // Outputs (OutputActiveHigh / OutputActiveLow)
  // ---------------------------------------------------------------------

  /** The pin level that makes an output of polarity p show logical value s. */
  function DriveLevel(p: Polarity, s: bool): int
  {
    if s == p.ActiveHigh? then 1 else 0
  }

  class Output {
    const pin: Pin
    const polarity: Polarity

    /** Does not touch the pin: the GPIO library is not initialised yet when outputs are built. */
    constructor (pin: Pin, polarity: Polarity)
      ensures this.pin == pin && this.polarity == polarity
    {
      this.pin, this.polarity := pin, polarity;
    }

    function Read(): bool
      reads pin
    {
      Sense(polarity, pin.level)
    }

    /** Drives the pin (inverted when active low); reading back gives the value written. */
    method Write(s: bool)
      modifies pin
      ensures pin.level == DriveLevel(polarity, s)
      ensures Read() == s
    {
      pin.level := DriveLevel(polarity, s);
    }

    method Set()
      modifies pin
      ensures pin.level == DriveLevel(polarity, true) && Read()
    {
      Write(true);
    }

    method Clr()
      modifies pin
      ensures pin.level == DriveLevel(polarity, false) && !Read()
    {
      Write(false);
    }

    /** Flips the pin level (the library's toggle): a non-negative reading flips. */
    method Toggle()
      modifies pin
      ensures pin.level == if old(pin.level) > 0 then 0 else 1
      ensures old(pin.level) >= 0 ==> Read() == !old(Read())
    {
      pin.level := if pin.level > 0 then 0 else 1;
    }
  }
}
