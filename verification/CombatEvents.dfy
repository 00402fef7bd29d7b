/** The combat event record that every part of the addon passes around, and the
    classification of events that a sender and its receivers have to agree on
    (src/Common.h). */
module CombatEvents {

  type u8 = x: int | 0 <= x < 0x100
  type u16 = x: int | 0 <= x < 0x1_0000
  type u32 = x: int | 0 <= x < 0x1_0000_0000
  type u64 = x: int | 0 <= x < 0x1_0000_0000_0000_0000
  type i32 = x: int | -0x8000_0000 <= x < 0x8000_0000

  const U64_MAX: u64 := 0xFFFF_FFFF_FFFF_FFFF

  datatype Option<+T> = None | Some(value: T)

  /** `cbtevent`, field by field and in memory order. */
  datatype CbtEvent = CbtEvent(
    time: u64, srcAgent: u64, dstAgent: u64,
    value: i32, buffDmg: i32, overstackValue: u32, skillId: u32,
    srcInstId: u16, dstInstId: u16, srcMasterInstId: u16, dstMasterInstId: u16,
    iff: u8, buff: u8, result: u8, isActivation: u8, isBuffremove: u8, isNinety: u8, isFifty: u8, isMoving: u8,
    isStatechange: u8, isFlanking: u8, isShields: u8, isOffcycle: u8, pad61: u8, pad62: u8, pad63: u8, pad64: u8)

  /** `ag`: one of the two agents of a combat callback. */
  datatype Agent = Agent(name: Option<string>, id: u64, prof: u32, elite: u32, self: u32, team: u16)

  const CBTS_ENTERCOMBAT: u8 := 1
  const CBTS_EXITCOMBAT: u8 := 2
  const CBTR_STRIKE_DAMAGENORMAL: u8 := 0
  const CBTR_STRIKE_DAMAGECRIT: u8 := 1
  const CBTR_STRIKE_DAMAGEGLANCE: u8 := 2
  const CBTR_SKILLCAST: u8 := 11
  const IFF_FOE: u8 := 1
  const GLYPH_OF_THE_STARS: u32 := 55026

  datatype EventType = Damage | Healing | SemiDamaging | Other

  function GetEventType(ev: CbtEvent, isLocal: bool): EventType {
    if ev.isStatechange != 0 || ev.isActivation != 0 || ev.isBuffremove != 0 then Other
    else if ev.buff == 0 then
      if ev.result == CBTR_SKILLCAST then Other
      else if ev.result != CBTR_STRIKE_DAMAGENORMAL && ev.result != CBTR_STRIKE_DAMAGECRIT && ev.result != CBTR_STRIKE_DAMAGEGLANCE then SemiDamaging
      else if ev.value == 0 then SemiDamaging
      else if (isLocal && ev.value < 0) || (!isLocal && ev.value > 0) then Damage
      else Healing
    else if ev.buffDmg == 0 then SemiDamaging
    else if (isLocal && ev.buffDmg < 0) || (!isLocal && ev.buffDmg > 0) then Damage
    else Healing
  }

  /** The amount stored for a heal: `value`, or `buff_dmg` when `value` is zero, converted to an unsigned
      32-bit number as the source does. */
  function HealedAmount(ev: CbtEvent): u32 {
    if ev.value != 0 then ev.value % 0x1_0000_0000 else ev.buffDmg % 0x1_0000_0000
  }

  /** `EventProcessor::PreProcessEvent`: one glyph is patched to count as healing a downed target. */
  function PreProcess(ev: CbtEvent, isLocal: bool): CbtEvent {
    if GetEventType(ev, isLocal) == Healing && ev.buff != 0 && ev.skillId == GLYPH_OF_THE_STARS
    then ev.(isOffcycle := 1) else ev
  }

  /** The patched event is classified as before, and patching it again on the receiver changes nothing: the
      sender forwards the patched event and the receiver patches what it receives. */
  lemma PreProcessStable(ev: CbtEvent, isLocal: bool)
    ensures GetEventType(PreProcess(ev, isLocal), isLocal) == GetEventType(ev, isLocal)
    ensures PreProcess(PreProcess(ev, isLocal), isLocal) == PreProcess(ev, isLocal)
  {
    var patched := ev.(isOffcycle := 1);
    assert GetEventType(patched, isLocal) == GetEventType(ev, isLocal);
  }

  /** The two `assert(healedAmount != 0)` of the source cannot fail: an event classified as healing has a
      nonzero amount. */
  lemma HealedAmountPositive(ev: CbtEvent)
    requires GetEventType(ev, true) == Healing
    ensures HealedAmount(ev) > 0
  {
  }
}
