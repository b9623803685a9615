/**
 * The eight ABO/Rh blood types, their string tags, and the fixed table of
 * donor types each recipient type may receive from.
 */
module BloodTypes {
  import opened Wrappers

  datatype BloodType =
    | APositive | ANegative | BPositive | BNegative
    | OPositive | ONegative | ABPositive | ABNegative

  /**
   * The raw string tag of each case: the ABO group named by the antigens
   * the type carries, then the Rh sign.
   */
  function Tag(t: BloodType): (s: string)
    ensures 2 <= |s| <= 3
    ensures s[..|s| - 1] ==
      if HasAntigenA(t) && HasAntigenB(t) then "AB"
      else if HasAntigenA(t) then "A"
      else if HasAntigenB(t) then "B"
      else "O"
    ensures s[|s| - 1] == if IsRhPositive(t) then '+' else '-'
  {
    match t
    case APositive => "A+"
    case ANegative => "A-"
    case BPositive => "B+"
    case BNegative => "B-"
    case OPositive => "O+"
    case ONegative => "O-"
    case ABPositive => "AB+"
    case ABNegative => "AB-"
  }

  /** Every case, in declaration order (Swift's `allCases`). */
  const AllCases: seq<BloodType> :=
    [APositive, ANegative, BPositive, BNegative, OPositive, ONegative, ABPositive, ABNegative]

  /** Construction from a raw tag (Swift's `init?(rawValue:)`). */
  function FromTag(s: string): (r: Option<BloodType>)
    ensures r.Some? ==> Tag(r.value) == s
    ensures r.None? ==> forall t: BloodType :: Tag(t) != s
  {
    if s == "A+" then Some(APositive)
    else if s == "A-" then Some(ANegative)
    else if s == "B+" then Some(BPositive)
    else if s == "B-" then Some(BNegative)
    else if s == "O+" then Some(OPositive)
    else if s == "O-" then Some(ONegative)
    else if s == "AB+" then Some(ABPositive)
    else if s == "AB-" then Some(ABNegative)
    else None
  }

  predicate NoDuplicates<T(==)>(s: seq<T>) {
    forall i, j | 0 <= i < j < |s| :: s[i] != s[j]
  }

  /** The donor types a recipient of type `recipient` may receive from. */
  function CompatibleBloodTypes(recipient: BloodType): (donors: seq<BloodType>)
    ensures recipient in donors
    ensures ONegative in donors
    ensures NoDuplicates(donors)
  {
    match recipient
    case ABPositive => AllCases
    case ABNegative => [ONegative, BNegative, ANegative, ABNegative]
    case APositive => [ONegative, OPositive, ANegative, APositive]
    case ANegative => [ONegative, ANegative]
    case BPositive => [ONegative, OPositive, BNegative, BPositive]
    case BNegative => [ONegative, BNegative]
    case OPositive => [ONegative, OPositive]
    case ONegative => [ONegative]
  }

  // An independent reading of the table: the antigens each type carries.

  predicate HasAntigenA(t: BloodType) {
    t in {APositive, ANegative, ABPositive, ABNegative}
  }

  predicate HasAntigenB(t: BloodType) {
    t in {BPositive, BNegative, ABPositive, ABNegative}
  }

  predicate IsRhPositive(t: BloodType) {
    t in {APositive, BPositive, OPositive, ABPositive}
  }

  /** A donor is safe when it carries no antigen the recipient lacks. */
  predicate CarriesNoForeignAntigen(donor: BloodType, recipient: BloodType) {
    && (HasAntigenA(donor) ==> HasAntigenA(recipient))
    && (HasAntigenB(donor) ==> HasAntigenB(recipient))
    && (IsRhPositive(donor) ==> IsRhPositive(recipient))
  }

  /** There are exactly eight cases, all listed once in `AllCases`. */
  lemma AllCasesEnumeratesEveryType(t: BloodType)
    ensures t in AllCases
    ensures |AllCases| == 8 && NoDuplicates(AllCases)
  {
  }

  /** Tags are pairwise distinct, and parsing a case's tag gives that case back. */
  lemma TagRoundTrip(t: BloodType, u: BloodType)
    ensures FromTag(Tag(t)) == Some(t)
    ensures Tag(t) == Tag(u) <==> t == u
  {
  }

  /** The table agrees, entry by entry, with the antigen rule. */
  lemma TableFollowsAntigenRule(donor: BloodType, recipient: BloodType)
    ensures donor in CompatibleBloodTypes(recipient) <==> CarriesNoForeignAntigen(donor, recipient)
  {
  }

  /** AB+ is the universal recipient. */
  lemma UniversalRecipient(donor: BloodType)
    ensures donor in CompatibleBloodTypes(ABPositive)
    ensures |CompatibleBloodTypes(ABPositive)| == 8
  {
  }

  /** O- receives from O- alone. */
  lemma UniversalDonorReceivesOnlyItself()
    ensures CompatibleBloodTypes(ONegative) == [ONegative]
  {
  }

  /** The sizes of the remaining rows of the table. */
  lemma RowSizes()
    ensures |CompatibleBloodTypes(APositive)| == 4
    ensures |CompatibleBloodTypes(ANegative)| == 2
    ensures |CompatibleBloodTypes(BPositive)| == 4
    ensures |CompatibleBloodTypes(BNegative)| == 2
    ensures |CompatibleBloodTypes(OPositive)| == 2
    ensures |CompatibleBloodTypes(ABNegative)| == 4
  {
  }

  /** An Rh-negative recipient lists only Rh-negative donors. */
  lemma RhNegativeReceivesOnlyRhNegative(recipient: BloodType, donor: BloodType)
    requires !IsRhPositive(recipient) && donor in CompatibleBloodTypes(recipient)
    ensures !IsRhPositive(donor)
  {
  }
}
