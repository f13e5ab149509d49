/** The text and colours a card shows for its status
    (utils/statusDisplay.ts). Statuses arrive as strings, so unknown
    values are possible and handled. */
module StatusDisplay {
  import opened Wrappers
  import opened Statuses
  import opened MergedStatusCalculator

  datatype Display = Display(text: string, borderColor: string, textColor: string)

  const AwaitingText := "מחכה לביקור"

  const NotSeenDisplay := Display(AwaitingText, "border-yellow-400", "text-yellow-400")
  const PartialDisplay := Display("בוצע חלקית", "border-orange-400", "text-orange-400")
  const SeenDisplay := Display("בוצע", "border-green-400", "text-green-400")
  const NotDoneDisplay := Display(AwaitingText, "border-red-400", "text-red-400")
  const NoCollectionDisplay := Display("אין איסוף", "border-red-500", "text-red-500")

  /** `STATUS_MAP`: the four keyed displays. */
  function StatusMap(key: string): Option<Display>
  {
    if key == "Not Seen" then Some(NotSeenDisplay)
    else if key == "Partial" then Some(PartialDisplay)
    else if key == "Seen" then Some(SeenDisplay)
    else if key == "Not Done" then Some(NotDoneDisplay)
    else None
  }

  /** `getSeenStatusDisplay`: the keyed display, or "Not Seen"'s for an
      unknown status. */
  function GetSeenStatusDisplay(status: string): (d: Display)
    ensures d in {NotSeenDisplay, PartialDisplay, SeenDisplay, NotDoneDisplay}
    ensures StatusMap(status).None? ==> d == NotSeenDisplay
    ensures StatusMap(status).Some? ==> d == StatusMap(status).value
  {
    match StatusMap(status)
    case Some(display) => display
    case None => NotSeenDisplay
  }

  /** A JavaScript string is truthy when present and non-empty. */
  predicate Truthy(s: Option<string>) { s.Some? && |s.value| > 0 }

  /** The `switch` on a merged status. */
  function MergedDisplay(mergedStatus: string): Display
  {
    if mergedStatus == "Seen" then SeenDisplay
    else if mergedStatus == "Partial Seen" then PartialDisplay
    else if mergedStatus == "Not Seen" || mergedStatus == "Partial Cover" then NotSeenDisplay
    else if mergedStatus == "Not Cover" then NoCollectionDisplay
    else NotSeenDisplay
  }

  /** `getUpdatedStatusDisplay`: a merged status decides alone; without
      one, no coverage means no collection, and otherwise the visit status
      decides. */
  function GetUpdatedStatusDisplay(updatedStatus: string, seenStatus: string, mergedStatus: Option<string>): (d: Display)
    ensures d in {NotSeenDisplay, PartialDisplay, SeenDisplay, NotDoneDisplay, NoCollectionDisplay}
  {
    if Truthy(mergedStatus) then MergedDisplay(mergedStatus.value)
    else if updatedStatus == "No" then NoCollectionDisplay
    else GetSeenStatusDisplay(seenStatus)
  }

  /** The three visit statuses show their own displays. */
  lemma SeenStatusDisplays(s: SeenStatus)
    ensures GetSeenStatusDisplay(SeenText(s))
         == match s
            case Seen => SeenDisplay
            case PartlySeen => PartialDisplay
            case NotSeen => NotSeenDisplay
  {
  }

  /** A present merged status overrides both other statuses. */
  lemma MergedStatusOverrides(u1: string, s1: string, u2: string, s2: string, mergedStatus: string)
    requires |mergedStatus| > 0
    ensures GetUpdatedStatusDisplay(u1, s1, Some(mergedStatus)) == GetUpdatedStatusDisplay(u2, s2, Some(mergedStatus))
  {
  }

  /** How each of the five merged statuses is shown: "Not Cover" as no
      collection, "Seen" as done, "Partial Seen" as partly done, and the
      other two as awaiting a visit. */
  lemma MergedStatusDisplays(u: string, s: string, m: MergedStatus)
    ensures GetUpdatedStatusDisplay(u, s, Some(MergedText(m))) == NoCollectionDisplay <==> m == MNotCover
    ensures GetUpdatedStatusDisplay(u, s, Some(MergedText(m))) == SeenDisplay <==> m == MSeen
    ensures GetUpdatedStatusDisplay(u, s, Some(MergedText(m))) == PartialDisplay <==> m == MPartialSeen
    ensures GetUpdatedStatusDisplay(u, s, Some(MergedText(m))) == NotSeenDisplay <==> m == MNotSeen || m == MPartialCover
  {
  }

  /** Any other non-empty merged status is shown as awaiting a visit. */
  lemma UnknownMergedStatus(u: string, s: string, mergedStatus: string)
    requires |mergedStatus| > 0
    requires forall m: MergedStatus :: mergedStatus != MergedText(m)
    ensures GetUpdatedStatusDisplay(u, s, Some(mergedStatus)) == NotSeenDisplay
  {
    assert mergedStatus != MergedText(MSeen) && mergedStatus != MergedText(MPartialSeen);
    assert mergedStatus != MergedText(MNotCover);
  }

  /** Without a merged status, coverage "No" means no collection whatever
      the visit status, and any other coverage defers to the visit status. */
  lemma CurrentStatusDisplay(u: string, s: string, mergedStatus: Option<string>)
    requires !Truthy(mergedStatus)
    ensures u == "No" ==> GetUpdatedStatusDisplay(u, s, mergedStatus) == NoCollectionDisplay
    ensures u != "No" ==> GetUpdatedStatusDisplay(u, s, mergedStatus) == GetSeenStatusDisplay(s)
  {
  }

  /** For a valid pair of statuses, showing the merged status and showing
      the pair itself agree except for full coverage partly seen and partial
      coverage seen, which the merge table turns into "Not Seen". */
  lemma DisplayPathsAgree(c: UpdatedStatus, v: SeenStatus)
    ensures GetUpdatedStatusDisplay(UpdatedText(c), SeenText(v), Some(MergedText(GetMergedStatus(c, v))))
         == GetUpdatedStatusDisplay(UpdatedText(c), SeenText(v), None)
        <==> !((c == Full && v == PartlySeen) || (c == Partial && v == Seen))
  {
  }
}
