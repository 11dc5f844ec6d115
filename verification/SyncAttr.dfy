/** The bits of a sync attribute, an unsigned 32-bit word here. */
module SyncAttr {
  import opened Verbs

  const BARRIER: bv32 := 0x8000_0000
  const DEFAULT: bv32 := 0x0000_0000
  const CACHED: bv32 := 0x4000_0000
  const MODE: bv32 := 0x6000_0000

  /** The attribute of a sync that is told to wait for `n` messages. */
  function Msg(n: bv32): bv32 {
    0x2000_0000 + n
  }

  function ModeBits(attr: bv32): bv32 {
    attr & MODE
  }

  function ValueBits(attr: bv32): bv32 {
    attr & !(MODE | BARRIER)
  }

  datatype Fields = Fields(mode: bv32, value: bv32, barrier: bool)

  /** A default sync always has a barrier. */
  function Split(attr: bv32): Fields {
    Fields(ModeBits(attr), ValueBits(attr), attr & BARRIER != 0 || ModeBits(attr) == DEFAULT)
  }

  /** What the sync makes of the fields; the fourth combination of mode bits has no case. */
  function Decode(attr: bv32): Attr {
    var f := Split(attr);
    Attr(if f.mode == DEFAULT then Mode.Default
         else if f.mode == CACHED then Mode.Cached
         else if f.mode == Msg(0) then Message(f.value as nat)
         else NoMode,
         f.barrier)
  }

  lemma SmallCountWithBarrier(n: bv32)
    requires n < 0x2000_0000
    ensures ModeBits(Msg(n) | BARRIER) == Msg(0) && ValueBits(Msg(n) | BARRIER) == n
    ensures (Msg(n) | BARRIER) & BARRIER != 0
  {
  }

  lemma SmallCountAlone(n: bv32)
    requires n < 0x2000_0000
    ensures ModeBits(Msg(n)) == Msg(0) && ValueBits(Msg(n)) == n && Msg(n) & BARRIER == 0
  {
  }

  lemma ValueIsSmall(attr: bv32, n: bv32)
    requires n >= 0x2000_0000
    ensures ValueBits(attr) != n
  {
  }

  lemma AloneSurvives(n: bv32)
    ensures Split(Msg(n)) == Fields(Msg(0), n, false) <==> n < 0x2000_0000
  {
    if n < 0x2000_0000 {
      SmallCountAlone(n);
    } else {
      ValueIsSmall(Msg(n), n);
    }
  }

  lemma WithBarrierSurvives(n: bv32)
    ensures Split(Msg(n) | BARRIER) == Fields(Msg(0), n, true) <==> n < 0x2000_0000
  {
    if n < 0x2000_0000 {
      SmallCountWithBarrier(n);
    } else {
      ValueIsSmall(Msg(n) | BARRIER, n);
    }
  }

  /**
   * A message count reaches the sync unchanged, with or without the barrier flag, if and only if
   * it is below 2^29: a larger one runs into the mode bits.
   */
  lemma CountSurvives(n: bv32)
    ensures Split(Msg(n)) == Fields(Msg(0), n, false) <==> n < 0x2000_0000
    ensures Split(Msg(n) | BARRIER) == Fields(Msg(0), n, true) <==> n < 0x2000_0000
  {
    AloneSurvives(n);
    WithBarrierSurvives(n);
  }

  lemma SmallCountDecodes(n: bv32)
    requires n < 0x2000_0000
    ensures Decode(Msg(n)) == Attr(Message(n as nat), false)
    ensures Decode(Msg(n) | BARRIER) == Attr(Message(n as nat), true)
  {
    CountSurvives(n);
  }

  /** The least count that does not fit asks for a cached sync instead. */
  lemma LargeCountIsCached()
    ensures Decode(Msg(0x2000_0000)) == Attr(Mode.Cached, false)
  {
  }

  /** What the other mode bits mean, whatever the value bits are; only a default sync needs no flag. */
  lemma OtherModes(attr: bv32)
    ensures attr & 0x6000_0000 == 0 ==> Decode(attr) == Attr(Mode.Default, true)
    ensures attr & 0x6000_0000 == 0x4000_0000 ==> Decode(attr) == Attr(Mode.Cached, attr & 0x8000_0000 != 0)
    ensures attr & 0x6000_0000 == 0x6000_0000 ==> Decode(attr) == Attr(NoMode, attr & 0x8000_0000 != 0)
    ensures Decode(attr).mode.Message? <==> attr & 0x6000_0000 == 0x2000_0000
  {
  }
}
