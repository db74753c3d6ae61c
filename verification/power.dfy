/** The power-check flag byte of feature/power/power.h: a union of one byte
    `all` with single-bit fields, `Logic` in bit 0 and `Pullup` in bit 1,
    cleared by its constructor. */
module Power {

  const LogicBit: bv8 := 0x01
  const PullupBit: bv8 := 0x02

  /** `power_flag_t()`: every bit cleared. */
  function InitialFlag(): (r: bv8)
    ensures !IsLogic(r) && !IsPullup(r)
    ensures r & 0xFC == 0
  {
    0x00
  }

  function IsLogic(f: bv8): bool { f & LogicBit != 0 }
  function IsPullup(f: bv8): bool { f & PullupBit != 0 }

  /** `setLogic`: writes bit 0 only. */
  function SetLogic(f: bv8, logic: bool): (r: bv8)
    ensures IsLogic(r) == logic
    ensures IsPullup(r) == IsPullup(f)
    ensures r & 0xFC == f & 0xFC
  {
    if logic then f | LogicBit else f & !LogicBit
  }

  /** `setPullup`: writes bit 1 only. */
  function SetPullup(f: bv8, pullup: bool): (r: bv8)
    ensures IsPullup(r) == pullup
    ensures IsLogic(r) == IsLogic(f)
    ensures r & 0xFC == f & 0xFC
  {
    if pullup then f | PullupBit else f & !PullupBit
  }

  /** The two setters act on separate bits, so their order does not matter
      and the byte is determined by the two flags and the unused bits. */
  lemma SettersCommute(f: bv8, logic: bool, pullup: bool)
    ensures SetLogic(SetPullup(f, pullup), logic) == SetPullup(SetLogic(f, logic), pullup)
    ensures IsLogic(SetLogic(SetPullup(f, pullup), logic)) == logic
    ensures IsPullup(SetLogic(SetPullup(f, pullup), logic)) == pullup
  {
  }
}
