/**
 * A prescribed medication and the state derived from it and the current
 * time: end date, whether the course is active, days remaining, and the
 * one-line description.
 *
 * Times are integer timestamps in seconds; a calendar day is a fixed
 * `SecondsPerDay`, and the current time `now` is a parameter.
 */
module Medications {
  import opened Wrappers
  import opened Decimal
  import opened Dosages
  import opened MedicationRoutes

  type Timestamp = int

  const SecondsPerDay: int := 86400

  /**
   * Calendar-day addition. The Swift calendar returns an optional; with a
   * fixed day length the addition never fails.
   */
  function AddDays(t: Timestamp, days: int): Option<Timestamp> {
    Some(t + days * SecondsPerDay)
  }

  /** A prescription. `id` stands for the UUID drawn at creation. */
  datatype Medication = Medication(
    id: nat,
    name: string,
    dosage: Dosage,
    route: MedicationRoute,
    frequency: int,
    duration: int,
    datePrescribed: Timestamp)

  /**
   * The initializer: every argument is stored unchanged under the fresh
   * identifier `freshId`, supplied by the caller in place of `UUID()`.
   */
  function NewMedication(
    freshId: nat, name: string, dosage: Dosage, route: MedicationRoute,
    frequency: int, duration: int, datePrescribed: Timestamp): (m: Medication)
    ensures m.id == freshId && m.name == name && m.dosage == dosage && m.route == route
    ensures m.frequency == frequency && m.duration == duration && m.datePrescribed == datePrescribed
  {
    Medication(freshId, name, dosage, route, frequency, duration, datePrescribed)
  }

  /** The course is running: `now` lies before the end date; false if the date addition fails. */
  predicate IsActive(m: Medication, now: Timestamp)
    ensures IsActive(m, now) <==> now < m.datePrescribed + m.duration * SecondsPerDay
  {
    match AddDays(m.datePrescribed, m.duration)
    case None => false
    case Some(endDate) => now < endDate
  }

  /** The end of the course, falling back to the prescription date if the date addition fails. */
  function EndDate(m: Medication): (e: Timestamp)
    ensures e - m.datePrescribed == m.duration * SecondsPerDay
  {
    match AddDays(m.datePrescribed, m.duration)
    case None => m.datePrescribed
    case Some(endDate) => endDate
  }

  /** Whole days from `now` to the end date while active, 0 otherwise. */
  function DaysRemaining(m: Medication, now: Timestamp): (days: int)
    ensures !IsActive(m, now) ==> days == 0
    ensures IsActive(m, now) ==>
      0 <= days && days * SecondsPerDay <= EndDate(m) - now < (days + 1) * SecondsPerDay
  {
    if !IsActive(m, now) then 0 else (EndDate(m) - now) / SecondsPerDay
  }

  /** The frequency phrase: "once daily", "twice daily", or "<n> times daily". */
  function DosageDescription(frequency: int): (s: string)
    ensures |s| >= 10 && s[|s| - 6..] == " daily"
    ensures frequency == 1 ==> s == "once daily"
    ensures frequency == 2 ==> s == "twice daily"
    ensures frequency != 1 && frequency != 2 ==>
      && |s| > 12 && s[|s| - 12..] == " times daily"
      && ParseInt(s[..|s| - 12]) == Some(frequency) && Canonical(s[..|s| - 12])
  {
    IntToStringRoundTrip(frequency);
    match frequency
    case 1 => "once daily"
    case 2 => "twice daily"
    case _ => IntToString(frequency) + " times daily"
  }

  /**
   * "<name> <dosage> <route> <frequency phrase> for <duration> days": each
   * part starts where the text before it ends, and the duration reads back
   * from its digits.
   */
  function Description(m: Medication): (s: string)
    ensures var dose, route, freq := Dosages.Description(m.dosage), Phrase(m.route), DosageDescription(m.frequency);
      var p1 := m.name + " ";
      var p2 := p1 + dose + " ";
      var p3 := p2 + route + " ";
      var p4 := p3 + freq + " for ";
      && |s| > |p4| + 5
      && s[..|p1|] == p1
      && s[|p1|..|p2|] == dose + " "
      && s[|p2|..|p3|] == route + " "
      && s[|p3|..|p4|] == freq + " for "
      && ParseInt(s[|p4|..|s| - 5]) == Some(m.duration)
      && Canonical(s[|p4|..|s| - 5])
      && s[|s| - 5..] == " days"
  {
    IntToStringRoundTrip(m.duration);
    Joined(m.name, Dosages.Description(m.dosage), Phrase(m.route), DosageDescription(m.frequency), IntToString(m.duration))
  }

  /** The sentence built from its parts, each part starting where the text before it ends. */
  function Joined(name: string, dose: string, route: string, freq: string, days: string): (s: string)
    ensures var p1 := name + " ";
      var p2 := p1 + dose + " ";
      var p3 := p2 + route + " ";
      var p4 := p3 + freq + " for ";
      && |s| == |p4| + |days| + 5
      && s[..|p1|] == p1
      && s[|p1|..|p2|] == dose + " "
      && s[|p2|..|p3|] == route + " "
      && s[|p3|..|p4|] == freq + " for "
      && s[|p4|..|s| - 5] == days
      && s[|s| - 5..] == " days"
      && s == CourseTextOf(name, dose, route, freq) + " " + days + " days"
  {
    var p1 := name + " ";
    var p2 := p1 + dose + " ";
    var p3 := p2 + route + " ";
    var p4 := p3 + freq + " for ";
    var p5 := p4 + days;
    var s := p5 + " days";
    assert s[..|p5|] == p5;
    assert s[..|p4|] == p4 == p5[..|p4|];
    assert s[..|p3|] == p3 == p4[..|p3|];
    assert s[..|p2|] == p2 == p3[..|p2|];
    assert s[..|p1|] == p1 == p2[..|p1|];
    assert s[|p1|..|p2|] == p2[|p1|..] == dose + " ";
    assert s[|p2|..|p3|] == p3[|p2|..] == route + " ";
    assert s[|p3|..|p4|] == p4[|p3|..] == freq + " for ";
    assert s[|p4|..|p5|] == p5[|p4|..] == days;
    s
  }

  function CourseTextOf(name: string, dose: string, route: string, freq: string): string {
    name + " " + dose + " " + route + " " + freq + " for"
  }

  /** The part of the description before the duration, ending in " for". */
  function CourseText(m: Medication): string {
    CourseTextOf(m.name, Dosages.Description(m.dosage), Phrase(m.route), DosageDescription(m.frequency))
  }

  /** Active exactly while `now` is before the end date. */
  lemma ActiveIffBeforeEndDate(m: Medication, now: Timestamp)
    ensures IsActive(m, now) <==> now < EndDate(m)
  {
  }

  /** A course that has ended never becomes active again as time moves on. */
  lemma ActiveEarlierIfActiveLater(m: Medication, earlier: Timestamp, later: Timestamp)
    requires earlier <= later && IsActive(m, later)
    ensures IsActive(m, earlier)
  {
  }

  /** A course of `duration` days starting now has all its days left. */
  lemma FreshCourseHasFullDuration(m: Medication, now: Timestamp)
    requires m.datePrescribed == now && m.duration > 0
    ensures IsActive(m, now)
    ensures DaysRemaining(m, now) == m.duration
  {
  }

  /** The unit test's frequency phrases. */
  lemma DosageDescriptionExamples()
    ensures DosageDescription(1) == "once daily"
    ensures DosageDescription(2) == "twice daily"
    ensures DosageDescription(3) == "3 times daily"
  {
    assert IntToString(3) == "3";
    assert DosageDescription(3) == "3" + " times daily";
  }

  /** Different frequencies are described differently. */
  lemma DosageDescriptionInjective(f1: int, f2: int)
    ensures DosageDescription(f1) == DosageDescription(f2) <==> f1 == f2
  {
    if DosageDescription(f1) == DosageDescription(f2) && f1 != 1 && f1 != 2 && f2 != 1 && f2 != 2 {
      var s := DosageDescription(f1);
      var a, b := IntToString(f1), IntToString(f2);
      assert a == s[..|s| - 12] == b;
      IntToStringInjective(f1, f2);
    }
  }

  /** In `x + [c] + d`, with `c` absent from `d`, the split is unique. */
  lemma {:induction false} SplitAtLast(x1: string, d1: string, x2: string, d2: string, c: char)
    requires c !in d1 && c !in d2
    requires x1 + [c] + d1 == x2 + [c] + d2
    ensures x1 == x2 && d1 == d2
  {
    var s := x1 + [c] + d1;
    assert s[|x1|] == c && s[|x2|] == c;
    assert x1 == s[..|x1|] == x2;
    assert d1 == s[|x1| + 1..] == d2;
  }

  /** The description determines the course length. */
  lemma DescriptionDeterminesDuration(m1: Medication, m2: Medication)
    ensures Description(m1) == Description(m2) ==> m1.duration == m2.duration
  {
    if Description(m1) == Description(m2) {
      var d1, d2 := IntToString(m1.duration), IntToString(m2.duration);
      DescriptionSplits(m1);
      DescriptionSplits(m2);
      NumeralHasNoSpace(m1.duration);
      NumeralHasNoSpace(m2.duration);
      DaysFollowLastSpace(CourseText(m1), d1, CourseText(m2), d2);
      IntToStringInjective(m1.duration, m2.duration);
    }
  }

  /** The decimal text of an integer holds no space. */
  lemma NumeralHasNoSpace(x: int)
    ensures ' ' !in IntToString(x)
  {
    var s := IntToString(x);
    assert forall i | 0 <= i < |s| :: s[i] != ' ';
  }

  /** Text ending in " <digits> days" determines its digits. */
  lemma DaysFollowLastSpace(x1: string, d1: string, x2: string, d2: string)
    requires ' ' !in d1 && ' ' !in d2
    requires x1 + [' '] + d1 + " days" == x2 + [' '] + d2 + " days"
    ensures d1 == d2
  {
    var s := x1 + [' '] + d1 + " days";
    assert x1 + [' '] + d1 == s[..|s| - 5] == x2 + [' '] + d2;
    SplitAtLast(x1, d1, x2, d2, ' ');
  }

  /** A description is its course text, a space, the duration's digits and " days". */
  lemma DescriptionSplits(m: Medication)
    ensures Description(m) == CourseText(m) + [' '] + IntToString(m.duration) + " days"
  {
    var dose, route, freq, days := Dosages.Description(m.dosage), Phrase(m.route), DosageDescription(m.frequency), IntToString(m.duration);
    assert Description(m) == Joined(m.name, dose, route, freq, days);
  }

  /** Identity is part of equality: medications with different ids differ. */
  lemma DistinctIdsDistinctMedications(m1: Medication, m2: Medication)
    requires m1.id != m2.id
    ensures m1 != m2
  {
  }

  /** The unit test's aspirin prescription. */
  lemma AspirinExample(freshId: nat, now: Timestamp)
    ensures var m := NewMedication(freshId, "Aspirin", Dosage(81, Milligrams), Oral, 1, 90, now);
      && Description(m) == "Aspirin 81mg by mouth once daily for 90 days"
      && IsActive(m, now) && DaysRemaining(m, now) >= 89
  {
    var m := NewMedication(freshId, "Aspirin", Dosage(81, Milligrams), Oral, 1, 90, now);
    AspirinCourseText(m);
    assert IntToString(90) == "90" by {
      assert NatToString(9) == "9";
    }
    DescriptionSplits(m);
    AspirinSentence();
    FreshCourseHasFullDuration(m, now);
  }

  /** The aspirin prescription's text before the duration. */
  lemma AspirinCourseText(m: Medication)
    requires m.name == "Aspirin" && m.dosage == Dosage(81, Milligrams) && m.route == Oral && m.frequency == 1
    ensures CourseText(m) == "Aspirin 81mg by mouth once daily for"
  {
    DescriptionExamples();
    assert CourseText(m) == CourseTextOf("Aspirin", "81mg", "by mouth", "once daily");
    AspirinCourseLiteral();
  }

  /** The aspirin course text, assembled piece by piece. */
  lemma AspirinCourseLiteral()
    ensures CourseTextOf("Aspirin", "81mg", "by mouth", "once daily") == "Aspirin 81mg by mouth once daily for"
  {
    assert "Aspirin" + " " + "81mg" + " " == "Aspirin 81mg ";
    assert "Aspirin 81mg " + "by mouth" + " " == "Aspirin 81mg by mouth ";
    assert "Aspirin 81mg by mouth " + "once daily" + " for" == "Aspirin 81mg by mouth once daily for";
  }

  /** The aspirin description, assembled from its course text and duration. */
  lemma AspirinSentence()
    ensures "Aspirin 81mg by mouth once daily for" + [' '] + "90" + " days" == "Aspirin 81mg by mouth once daily for 90 days"
  {
  }
}
