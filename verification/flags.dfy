/** The processor status bits that exist so far: zero and negative, which
    are always derived from a value, and interrupt-disable and decimal,
    which individual instructions set directly. There is no carry and no
    overflow yet. */
module Flags {
  import opened Memory

  datatype Status = Status(zero: bool, negative: bool, irqDisable: bool, decimal: bool)

  /** The status of a freshly built processor: every bit clear. */
  const Cleared := Status(false, false, false, false)

  /** Recomputes zero and negative from `value`; the negative bit is bit 7. */
  function SetZN(f: Status, value: Byte): (r: Status)
    ensures r.zero <==> value == 0
    ensures r.negative <==> value >= 0x80
    ensures r.irqDisable == f.irqDisable && r.decimal == f.decimal
  {
    f.(zero := value == 0, negative := (value as bv8) & 0x80 != 0)
  }

  /** Zero and negative are never both set by the same value, and the
      result does not depend on the previous zero and negative bits. */
  lemma SetZNDerived(f: Status, g: Status, value: Byte)
    requires f.irqDisable == g.irqDisable && f.decimal == g.decimal
    ensures SetZN(f, value) == SetZN(g, value)
    ensures !(SetZN(f, value).zero && SetZN(f, value).negative)
  {
  }
}
