/** How a medication is administered, with the phrase used in descriptions. */
module MedicationRoutes {

  datatype MedicationRoute =
    | Oral | Subcutaneous | Intramuscular | Intravenous | Inhaled | Topical

  /** The raw string of each route, e.g. "by mouth". */
  function Phrase(r: MedicationRoute): (s: string)
    ensures |s| > 0
  {
    match r
    case Oral => "by mouth"
    case Subcutaneous => "subcutaneously"
    case Intramuscular => "intramuscularly"
    case Intravenous => "intravenously"
    case Inhaled => "inhaled"
    case Topical => "topically"
  }

  /** Each route has its own phrase. */
  lemma PhrasesDistinct(r1: MedicationRoute, r2: MedicationRoute)
    ensures Phrase(r1) == Phrase(r2) <==> r1 == r2
  {
  }
}
