/** A clock that never runs backwards, shared by the engines. */
module Clocks {

  class Clock {
    var time: int

    constructor (start: int)
      ensures time == start
    {
      time := start;
    }

    /** Any amount of time may have passed since the clock was last read. */
    method Now() returns (t: int)
      modifies this
      ensures t == time >= old(time)
    {
      var reading: int := *;
      if reading > time {
        time := reading;
      }
      t := time;
    }
  }
}
