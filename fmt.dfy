/** The output side of `std::fmt`: a formatter both writers append to. */
module Fmt {

  /** The `std::fmt::Formatter` being written to: everything written so far. */
  class Formatter {
    var out: string

    constructor ()
      ensures out == ""
    {
      out := "";
    }

    /** `write_str`; `write_char(c)` is `WriteStr([c])`. */
    method WriteStr(s: string)
      modifies this
      ensures out == old(out) + s
    {
      out := out + s;
    }
  }
}
