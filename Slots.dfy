/** The ten input kinds of a commission run, as keys of the upload slots. */
module Slots {

  datatype Slot = Pj1 | Seg | Cam | CoTer | CoXpvp | Cre | Xpcs | LanMan | TimRep | LanPro

  /** The order in which the slots are declared, and so reported. */
  const SlotOrder: seq<Slot> := [Pj1, Seg, Cam, CoTer, CoXpvp, Cre, Xpcs, LanMan, TimRep, LanPro]

  const AllSlots: set<Slot> := {Pj1, Seg, Cam, CoTer, CoXpvp, Cre, Xpcs, LanMan, TimRep, LanPro}

  /** The slot's key as written in the slot dictionary and in the report of missing kinds. */
  function Key(k: Slot): string {
    match k
    case Pj1 => "pj1"
    case Seg => "seg"
    case Cam => "cam"
    case CoTer => "co_ter"
    case CoXpvp => "co_xpvp"
    case Cre => "cre"
    case Xpcs => "xpcs"
    case LanMan => "lan_man"
    case TimRep => "tim_rep"
    case LanPro => "lan_pro"
  }

  /** Position of a slot in `SlotOrder`. */
  function Rank(k: Slot): (r: nat)
    ensures r < |SlotOrder| && SlotOrder[r] == k
  {
    match k
    case Pj1 => 0
    case Seg => 1
    case Cam => 2
    case CoTer => 3
    case CoXpvp => 4
    case Cre => 5
    case Xpcs => 6
    case LanMan => 7
    case TimRep => 8
    case LanPro => 9
  }

  lemma SlotsEnumerated(k: Slot)
    ensures k in AllSlots && k in SlotOrder
    ensures forall j :: 0 <= j < |SlotOrder| && SlotOrder[j] == k ==> j == Rank(k)
  {
  }

  /** Distinct slots have distinct keys. */
  lemma KeysDistinct(k1: Slot, k2: Slot)
    ensures Key(k1) == Key(k2) ==> k1 == k2
  {
  }
}
