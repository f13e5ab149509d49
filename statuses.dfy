/** The status vocabularies shared by backend and frontend. */
module Statuses {

  /** Coverage ("updated") status computed from imagery: "Full" | "Partial" | "No". */
  datatype UpdatedStatus = Full | Partial | No

  /** Human visit status: "Seen" | "Partial" | "Not Seen". */
  datatype SeenStatus = Seen | PartlySeen | NotSeen

  /** Result of combining the two: "Seen" | "Partial Cover" | "Partial Seen"
      | "Not Seen" | "Not Cover". */
  datatype MergedStatus = MSeen | MPartialCover | MPartialSeen | MNotSeen | MNotCover

  function UpdatedText(u: UpdatedStatus): string
  {
    match u
    case Full => "Full"
    case Partial => "Partial"
    case No => "No"
  }

  function SeenText(s: SeenStatus): string
  {
    match s
    case Seen => "Seen"
    case PartlySeen => "Partial"
    case NotSeen => "Not Seen"
  }

  function MergedText(m: MergedStatus): string
  {
    match m
    case MSeen => "Seen"
    case MPartialCover => "Partial Cover"
    case MPartialSeen => "Partial Seen"
    case MNotSeen => "Not Seen"
    case MNotCover => "Not Cover"
  }
}
