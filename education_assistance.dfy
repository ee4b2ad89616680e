/** Scholarship applications: submission with an eligibility verdict, the
    per-user listing, lookup by id, and the status class used in the listing. */
module EducationAssistance {
  import opened Collections
  import opened Text
  import opened Eligibility

  /** An uploaded mark sheet; `data` is the file's data URL. */
  datatype MarkSheet = MarkSheet(name: string, data: string, uploadedAt: string)

  datatype ScholarshipApplication = ScholarshipApplication(
    id: string,
    userId: string,
    studentName: string,
    course: string,
    gradePercentage: real,
    familyIncome: real,
    purpose: string,
    markSheets: seq<MarkSheet>,
    eligibility: Verdict,
    status: string,
    appliedAt: string)

  const UnderReview := "Under Review"
  const NotEligible := "Not Eligible"

  /** The status a new application is stored with. */
  function SubmissionStatus(v: Verdict): (status: string)
    ensures status == UnderReview <==> v.eligible
    ensures status == NotEligible <==> !v.eligible
  {
    if v.eligible then UnderReview else NotEligible
  }

  /** A stored application whose verdict and status are those its own grade and income give. */
  predicate Assessed(a: ScholarshipApplication)
  {
    a.eligibility == Evaluate(a.gradePercentage, a.familyIncome) &&
    a.status == SubmissionStatus(a.eligibility)
  }

  // ---------------------------------------------------------------------
  // The stored list and submission
  // ---------------------------------------------------------------------

  /** The stored scholarship applications, oldest first. */
  class ScholarshipStore {
    var applications: seq<ScholarshipApplication>

    constructor(stored: seq<ScholarshipApplication>)
      ensures applications == stored
    {
      applications := stored;
    }

    /** Submits an application: evaluates it, derives its status and appends it.
        `id` and `appliedAt` stand for the clock-derived id and timestamp. */
    method Submit(userPhone: string, id: string, studentName: string, course: string,
                  grade: real, income: real, purpose: string, markSheets: seq<MarkSheet>,
                  appliedAt: string)
      returns (app: ScholarshipApplication)
      modifies this
      ensures app == ScholarshipApplication(id, userPhone, studentName, course, grade, income, purpose,
                                            markSheets, Evaluate(grade, income),
                                            SubmissionStatus(Evaluate(grade, income)), appliedAt)
      ensures Assessed(app)
      ensures app.status == UnderReview <==> app.eligibility.eligible
      ensures applications == old(applications) + [app]
    {
      var eligibility := CalculateEligibility(grade, income);
      var status := SubmissionStatus(eligibility);
      app := ScholarshipApplication(id, userPhone, studentName, course, grade, income, purpose,
                                    markSheets, eligibility, status, appliedAt);
      applications := applications + [app];
    }
  }

  /** Submitting keeps every stored application assessed. */
  lemma SubmitKeepsAssessed(apps: seq<ScholarshipApplication>, app: ScholarshipApplication)
    requires forall k :: 0 <= k < |apps| ==> Assessed(apps[k])
    requires Assessed(app)
    ensures forall k :: 0 <= k < |apps + [app]| ==> Assessed((apps + [app])[k])
  {
    forall k | 0 <= k < |apps + [app]| ensures Assessed((apps + [app])[k]) {
      if k < |apps| {
        assert (apps + [app])[k] == apps[k];
      }
    }
  }

  // ---------------------------------------------------------------------
  // The per-user listing
  // ---------------------------------------------------------------------

  function OwnedBy(phone: string): ScholarshipApplication -> bool
  {
    (a: ScholarshipApplication) => a.userId == phone
  }

  /** The applications of the user with this phone, in stored order. */
  function UserApplications(apps: seq<ScholarshipApplication>, phone: string): (r: seq<ScholarshipApplication>)
    ensures forall a :: a in r <==> a in apps && a.userId == phone
    ensures |r| <= |apps|
  {
    FilterMembers(apps, OwnedBy(phone));
    Filter(apps, OwnedBy(phone))
  }

  /** The listing keeps the stored order: it takes, at increasing positions, exactly the user's applications. */
  lemma UserApplicationsInOrder(apps: seq<ScholarshipApplication>, phone: string)
    ensures var r := UserApplications(apps, phone);
      exists idx: seq<nat> ::
        |idx| == |r| &&
        (forall k :: 0 <= k < |idx| ==> idx[k] < |apps| && r[k] == apps[idx[k]]) &&
        (forall j, k :: 0 <= j < k < |idx| ==> idx[j] < idx[k]) &&
        (forall i :: 0 <= i < |apps| ==> (apps[i].userId == phone <==> i in idx))
  {
    var idx := FilterIndices(apps, OwnedBy(phone));
    assert forall i :: 0 <= i < |apps| ==> (OwnedBy(phone)(apps[i]) <==> apps[i].userId == phone);
  }

  /** A new application of the user shows up last in the user's listing; other users' listings do not change. */
  lemma SubmitThenList(apps: seq<ScholarshipApplication>, app: ScholarshipApplication, phone: string)
    ensures UserApplications(apps + [app], phone) ==
      UserApplications(apps, phone) + (if app.userId == phone then [app] else [])
  {
    FilterAppend(apps, app, OwnedBy(phone));
  }

  // ---------------------------------------------------------------------
  // Lookup by id
  // ---------------------------------------------------------------------

  function IdIs(id: string): ScholarshipApplication -> bool
  {
    (a: ScholarshipApplication) => a.id == id
  }

  /** The first stored application with this id, if any. */
  function FindApplication(apps: seq<ScholarshipApplication>, id: string): (r: Option<ScholarshipApplication>)
    ensures r.None? <==> forall k :: 0 <= k < |apps| ==> apps[k].id != id
    ensures r.Some? ==> exists k :: 0 <= k < |apps| && apps[k] == r.value && r.value.id == id &&
                                   forall j :: 0 <= j < k ==> apps[j].id != id
  {
    match FindFirst(apps, IdIs(id))
    case None => None
    case Some(k) => Some(apps[k])
  }

  /** A submitted application can be found by its id unless an earlier one has the same id. */
  lemma SubmitThenFind(apps: seq<ScholarshipApplication>, app: ScholarshipApplication)
    ensures FindApplication(apps + [app], app.id) ==
      if FindApplication(apps, app.id).Some? then FindApplication(apps, app.id) else Some(app)
  {
    FindFirstAppend(apps, app, IdIs(app.id));
  }

  /** The mark sheets shown for an application: absent when the application is
      not found or has none. */
  function MarkSheetsOf(apps: seq<ScholarshipApplication>, id: string): (r: Option<seq<MarkSheet>>)
    ensures r.None? <==> FindApplication(apps, id).None? || FindApplication(apps, id).value.markSheets == []
    ensures r.Some? ==> r.value != [] && r.value == FindApplication(apps, id).value.markSheets
  {
    match FindApplication(apps, id)
    case None => None
    case Some(a) => if |a.markSheets| == 0 then None else Some(a.markSheets)
  }

  // ---------------------------------------------------------------------
  // The status class
  // ---------------------------------------------------------------------

  const StatusPrefix := "status-"

  /** The CSS class of a status badge: the status lower-cased, with its first
      space (and only that one) turned into a dash, after "status-". */
  function StatusClass(status: string): (c: string)
    ensures |c| == |StatusPrefix| + |status|
    ensures c[..|StatusPrefix|] == StatusPrefix
  {
    StatusPrefix + ReplaceFirst(ToLower(status), ' ', '-')
  }

  /** After the prefix, position by position: a dash at the first space, the
      lower-cased status character elsewhere; so no upper-case letter remains. */
  lemma StatusClassAt(status: string)
    ensures var c := StatusClass(status);
      |c| == |StatusPrefix| + |status| && c[..|StatusPrefix|] == StatusPrefix &&
      (forall i :: 0 <= i < |status| ==>
        c[|StatusPrefix| + i] == if i == FirstIndex(status, ' ') then '-' else LowerChar(status[i])) &&
      (forall i :: |StatusPrefix| <= i < |c| ==> !IsUpper(c[i]))
  {
    var tail := ReplaceFirst(ToLower(status), ' ', '-');
    var c := StatusClass(status);
    assert c == StatusPrefix + tail;
    LoweredDashedAt(status);
    forall i | 0 <= i < |status|
      ensures c[|StatusPrefix| + i] == if i == FirstIndex(status, ' ') then '-' else LowerChar(status[i])
    {
      assert c[|StatusPrefix| + i] == tail[i];
    }
    forall i | |StatusPrefix| <= i < |c| ensures !IsUpper(c[i]) {
      assert c[i] == tail[i - |StatusPrefix|];
    }
  }

  /** The part after the prefix, position by position. */
  lemma LoweredDashedAt(status: string)
    ensures forall i :: 0 <= i < |status| ==>
      ReplaceFirst(ToLower(status), ' ', '-')[i] == if i == FirstIndex(status, ' ') then '-' else LowerChar(status[i])
  {
    ToLowerAt(status);
    ReplaceFirstAt(ToLower(status), ' ', '-');
    FirstIndexOfLowered(status);
  }

  /** Exactly one space, the first, is removed from the status; any later ones remain. */
  lemma StatusClassSpaces(status: string)
    ensures Occurrences(StatusClass(status)[|StatusPrefix|..], ' ') ==
      if Occurrences(status, ' ') == 0 then 0 else Occurrences(status, ' ') - 1
  {
    var lowered := ToLower(status);
    assert StatusClass(status)[|StatusPrefix|..] == ReplaceFirst(lowered, ' ', '-');
    ToLowerKeepsSpaces(status);
    ReplaceFirstOccurrences(lowered, ' ', '-');
  }

  /** A one-word status is only lower-cased. */
  lemma StatusClassOfOneWord(status: string)
    requires ' ' !in status
    ensures StatusClass(status) == StatusPrefix + ToLower(status)
  {
    ToLowerNoSpace(status);
  }

  /** A two-word status becomes its lower-cased words joined by a dash. */
  lemma {:induction false} StatusClassOfTwoWords(first: string, second: string)
    requires ' ' !in first
    ensures StatusClass(first + " " + second) == StatusPrefix + ToLower(first) + "-" + ToLower(second)
  {
    var lowFirst, lowSecond := ToLower(first), ToLower(second);
    assert ToLower(first + " " + second) == lowFirst + (" " + lowSecond) by {
      ToLowerAppend(first + " ", second);
      ToLowerAppend(first, " ");
      assert ToLower(" ") == " ";
    }
    assert ReplaceFirst(lowFirst + (" " + lowSecond), ' ', '-') == lowFirst + ("-" + lowSecond) by {
      ToLowerNoSpace(first);
      ReplaceFirstSkips(lowFirst, " " + lowSecond, ' ', '-');
      assert ReplaceFirst(" " + lowSecond, ' ', '-') == "-" + lowSecond;
    }
  }
}
