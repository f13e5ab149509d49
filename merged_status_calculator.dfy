/** The cover x visit lookup table (historyMerge/mergedStatusCalculator.ts). */
module MergedStatusCalculator {
  import opened Statuses

  /** Each merged status is characterised by the exact set of
      (cover, visit) pairs that produce it. */
  function GetMergedStatus(cover: UpdatedStatus, visit: SeenStatus): (r: MergedStatus)
    ensures r == MNotCover <==> cover == No
    ensures r == MSeen <==> cover == Full && visit == Seen
    ensures r == MPartialSeen <==> cover == Partial && visit == PartlySeen
    ensures r == MPartialCover <==> cover == Partial && visit == NotSeen
    ensures r == MNotSeen <==> (cover == Full && visit != Seen) || (cover == Partial && visit == Seen)
  {
    match cover
    case No => MNotCover
    case Full => if visit == Seen then MSeen else MNotSeen
    case Partial =>
      match visit
      case PartlySeen => MPartialSeen
      case NotSeen => MPartialCover
      case Seen => MNotSeen
  }
}
