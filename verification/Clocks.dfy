/** The terminal's millisecond clock. */
module Clocks {
  /** A `uint32_t` count of milliseconds; it wraps after 49.7 days. */
  newtype Millis = t: int | 0 <= t < 0x1_0000_0000
}
