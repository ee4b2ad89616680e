/** Government-scheme applications on the user dashboard: applying once per
    scheme, and the per-status summary of a user's applications. */
module FixDashboard {
  import opened Collections
  import opened Text

  datatype Scheme = Scheme(id: string, name: string)

  datatype SchemeApplication = SchemeApplication(
    id: string,
    userId: string,
    schemeId: string,
    schemeName: string,
    status: string,
    appliedAt: string)

  /** The logged-in user, identified by phone number. */
  datatype User = User(phone: string)

  const Pending := "Pending"
  const UnknownScheme := "Unknown"

  // ---------------------------------------------------------------------
  // Applying for a scheme
  // ---------------------------------------------------------------------

  function SamePair(phone: string, schemeId: string): SchemeApplication -> bool
  {
    (a: SchemeApplication) => a.userId == phone && a.schemeId == schemeId
  }

  function SchemeIdIs(schemeId: string): Scheme -> bool
  {
    (s: Scheme) => s.id == schemeId
  }

  /** The user has already applied for the scheme. */
  predicate HasApplied(apps: seq<SchemeApplication>, phone: string, schemeId: string)
  {
    exists k :: 0 <= k < |apps| && apps[k].userId == phone && apps[k].schemeId == schemeId
  }

  /** The name recorded with a new application: that of the first scheme with the id, else "Unknown". */
  function SchemeName(schemes: seq<Scheme>, schemeId: string): (name: string)
    ensures (forall k :: 0 <= k < |schemes| ==> schemes[k].id != schemeId) ==> name == UnknownScheme
    ensures forall k :: (0 <= k < |schemes| && schemes[k].id == schemeId &&
                         forall j :: 0 <= j < k ==> schemes[j].id != schemeId) ==> name == schemes[k].name
  {
    match FindFirst(schemes, SchemeIdIs(schemeId))
    case None => UnknownScheme
    case Some(k) => schemes[k].name
  }

  datatype ApplyOutcome =
    | NotLoggedIn
    | AlreadyApplied
    | Submitted(application: SchemeApplication)

  /** What an application attempt does; `newId` and `appliedAt` stand for the
      clock-derived id and timestamp. */
  function Apply(apps: seq<SchemeApplication>, user: Option<User>, schemeId: string, schemes: seq<Scheme>,
                 newId: string, appliedAt: string): (r: ApplyOutcome)
    ensures r == NotLoggedIn <==> user.None?
    ensures r == AlreadyApplied <==> user.Some? && HasApplied(apps, user.value.phone, schemeId)
    ensures r.Submitted? ==>
      r.application == SchemeApplication(newId, user.value.phone, schemeId, SchemeName(schemes, schemeId),
                                         Pending, appliedAt)
  {
    match user
    case None => NotLoggedIn
    case Some(u) =>
      if FindFirst(apps, SamePair(u.phone, schemeId)).Some? then AlreadyApplied
      else Submitted(SchemeApplication(newId, u.phone, schemeId, SchemeName(schemes, schemeId), Pending, appliedAt))
  }

  /** The stored list after an attempt with this outcome. */
  function After(apps: seq<SchemeApplication>, outcome: ApplyOutcome): (r: seq<SchemeApplication>)
    ensures |r| == |apps| + (if outcome.Submitted? then 1 else 0)
    ensures r[..|apps|] == apps
    ensures outcome.Submitted? ==> r[|apps|] == outcome.application
  {
    if outcome.Submitted? then apps + [outcome.application] else apps
  }

  /** The stored scheme applications, oldest first. */
  class SchemeApplicationStore {
    var applications: seq<SchemeApplication>

    constructor(stored: seq<SchemeApplication>)
      ensures applications == stored
    {
      applications := stored;
    }

    /** Applies the user for the scheme unless not logged in or already applied. */
    method ApplyForScheme(user: Option<User>, schemeId: string, schemes: seq<Scheme>,
                          newId: string, appliedAt: string)
      returns (outcome: ApplyOutcome)
      modifies this
      ensures outcome == Apply(old(applications), user, schemeId, schemes, newId, appliedAt)
      ensures applications == After(old(applications), outcome)
    {
      if user.None? {
        return NotLoggedIn;
      }
      var phone := user.value.phone;
      if FindFirst(applications, SamePair(phone, schemeId)).Some? {
        return AlreadyApplied;
      }
      var name := SchemeName(schemes, schemeId);
      var application := SchemeApplication(newId, phone, schemeId, name, Pending, appliedAt);
      applications := applications + [application];
      outcome := Submitted(application);
    }
  }

  /** An attempt stores at most one record, appended after all earlier ones. */
  lemma ApplyAppendsAtMostOne(apps: seq<SchemeApplication>, user: Option<User>, schemeId: string,
                              schemes: seq<Scheme>, newId: string, appliedAt: string)
    ensures var after := After(apps, Apply(apps, user, schemeId, schemes, newId, appliedAt));
      after[..|apps|] == apps && |apps| <= |after| <= |apps| + 1
  {
  }

  /** Records for the user and scheme after an attempt: one when there were none, otherwise unchanged. */
  lemma {:induction false} PairCountAfterApply(apps: seq<SchemeApplication>, user: User, schemeId: string,
                                               schemes: seq<Scheme>, newId: string, appliedAt: string)
    ensures var after := After(apps, Apply(apps, Some(user), schemeId, schemes, newId, appliedAt));
      var before := Count(apps, SamePair(user.phone, schemeId));
      Count(after, SamePair(user.phone, schemeId)) == if before == 0 then 1 else before
  {
    var p := SamePair(user.phone, schemeId);
    var outcome := Apply(apps, Some(user), schemeId, schemes, newId, appliedAt);
    CountPositive(apps, p);
    if outcome.Submitted? {
      FilterAppend(apps, outcome.application, p);
      assert Count(apps, p) == 0;
    }
  }

  /** Records for every other pair of user and scheme are unaffected. */
  lemma {:induction false} OtherPairsUnchanged(apps: seq<SchemeApplication>, user: Option<User>, schemeId: string,
                                               schemes: seq<Scheme>, newId: string, appliedAt: string,
                                               phone: string, otherScheme: string)
    requires user.None? || user.value.phone != phone || schemeId != otherScheme
    ensures var after := After(apps, Apply(apps, user, schemeId, schemes, newId, appliedAt));
      Count(after, SamePair(phone, otherScheme)) == Count(apps, SamePair(phone, otherScheme))
  {
    var outcome := Apply(apps, user, schemeId, schemes, newId, appliedAt);
    if outcome.Submitted? {
      FilterAppend(apps, outcome.application, SamePair(phone, otherScheme));
    }
  }

  /** Applying twice for the same scheme is the same as applying once: the second attempt is refused. */
  lemma {:induction false} ApplyTwice(apps: seq<SchemeApplication>, user: User, schemeId: string,
                                      schemes: seq<Scheme>, id1: string, at1: string, id2: string, at2: string)
    ensures var once := After(apps, Apply(apps, Some(user), schemeId, schemes, id1, at1));
      Apply(once, Some(user), schemeId, schemes, id2, at2) == AlreadyApplied &&
      After(once, Apply(once, Some(user), schemeId, schemes, id2, at2)) == once
  {
    var once := After(apps, Apply(apps, Some(user), schemeId, schemes, id1, at1));
    if !HasApplied(apps, user.phone, schemeId) {
      assert once[|apps|].userId == user.phone && once[|apps|].schemeId == schemeId;
    } else {
      assert once == apps;
    }
  }

  /** No two records for the same user and scheme. */
  predicate NoDuplicatePairs(apps: seq<SchemeApplication>)
  {
    forall j, k :: 0 <= j < k < |apps| ==>
      !(apps[j].userId == apps[k].userId && apps[j].schemeId == apps[k].schemeId)
  }

  lemma {:induction false} ApplyKeepsNoDuplicatePairs(apps: seq<SchemeApplication>, user: Option<User>,
                                                      schemeId: string, schemes: seq<Scheme>,
                                                      newId: string, appliedAt: string)
    requires NoDuplicatePairs(apps)
    ensures NoDuplicatePairs(After(apps, Apply(apps, user, schemeId, schemes, newId, appliedAt)))
  {
    var outcome := Apply(apps, user, schemeId, schemes, newId, appliedAt);
    var after := After(apps, outcome);
    if outcome.Submitted? {
      forall j, k | 0 <= j < k < |after|
        ensures !(after[j].userId == after[k].userId && after[j].schemeId == after[k].schemeId)
      {
        if k == |apps| {
          assert after[j] == apps[j];
        } else {
          assert after[j] == apps[j] && after[k] == apps[k];
        }
      }
    }
  }

  // ---------------------------------------------------------------------
  // The status summary
  // ---------------------------------------------------------------------

  function OwnedBy(phone: string): SchemeApplication -> bool
  {
    (a: SchemeApplication) => a.userId == phone
  }

  function HasStatus(status: string): SchemeApplication -> bool
  {
    (a: SchemeApplication) => a.status == status
  }

  /** The status-count object: its keys in insertion order, and the counts. */
  datatype StatusCounts = StatusCounts(order: seq<string>, counts: map<string, nat>)

  /** Counts one more application with this status. */
  function Record(t: StatusCounts, status: string): StatusCounts
  {
    if status in t.counts then StatusCounts(t.order, t.counts[status := t.counts[status] + 1])
    else StatusCounts(t.order + [status], t.counts[status := 1])
  }

  /** The counts the tally reaches over these applications, in order. */
  function Tally(apps: seq<SchemeApplication>): (t: StatusCounts)
    ensures |t.order| <= |apps|
    ensures t.order == [] <==> apps == []
  {
    if apps == [] then StatusCounts([], map[])
    else Record(Tally(apps[..|apps| - 1]), apps[|apps| - 1].status)
  }

  /** Tallies the statuses one application at a time. */
  method CountStatuses(apps: seq<SchemeApplication>) returns (t: StatusCounts)
    ensures t == Tally(apps)
  {
    t := StatusCounts([], map[]);
    for i := 0 to |apps|
      invariant t == Tally(apps[..i])
    {
      assert apps[..i + 1][..i] == apps[..i];
      var status := apps[i].status;
      if status in t.counts {
        t := StatusCounts(t.order, t.counts[status := t.counts[status] + 1]);
      } else {
        t := StatusCounts(t.order + [status], t.counts[status := 1]);
      }
    }
    assert apps[..|apps|] == apps;
  }

  /** How many applications the tally has seen with this status. */
  function CountOf(t: StatusCounts, status: string): nat
  {
    if status in t.counts then t.counts[status] else 0
  }

  /** The listed keys are the keys of the counts, and every stored count is positive. */
  lemma {:induction false} TallyKeys(apps: seq<SchemeApplication>)
    ensures var t := Tally(apps);
      (forall s :: s in t.order <==> s in t.counts) &&
      (forall s :: s in t.counts ==> t.counts[s] > 0)
    decreases |apps|
  {
    if apps != [] {
      var init := apps[..|apps| - 1];
      TallyKeys(init);
      assert forall s :: s in Tally(init).order <==> s in Tally(init).counts;
      assert forall s :: s in Tally(init).counts ==> Tally(init).counts[s] > 0;
    }
  }

  /** No key is listed twice. */
  lemma {:induction false} TallyOrderDistinct(apps: seq<SchemeApplication>)
    ensures var order := Tally(apps).order;
      forall j, k :: 0 <= j < k < |order| ==> order[j] != order[k]
    decreases |apps|
  {
    if apps != [] {
      var init := apps[..|apps| - 1];
      var status := apps[|apps| - 1].status;
      TallyOrderDistinct(init);
      TallyKeys(init);
      assert forall j, k :: 0 <= j < k < |Tally(init).order| ==> Tally(init).order[j] != Tally(init).order[k];
      if status !in Tally(init).counts {
        assert status !in Tally(init).order;
        assert Tally(apps).order == Tally(init).order + [status];
      }
    }
  }

  /** Each status is counted as often as it occurs. */
  lemma {:induction false} TallyCounts(apps: seq<SchemeApplication>)
    ensures forall s :: CountOf(Tally(apps), s) == Count(apps, HasStatus(s))
    decreases |apps|
  {
    if apps != [] {
      var init := apps[..|apps| - 1];
      var last := apps[|apps| - 1];
      TallyCounts(init);
      assert apps == init + [last];
      forall s ensures CountOf(Tally(apps), s) == Count(apps, HasStatus(s)) {
        FilterAppend(init, last, HasStatus(s));
      }
    }
  }

  /** The keys are exactly the statuses present, each listed once with its positive count. */
  lemma TallyExact(apps: seq<SchemeApplication>)
    ensures forall j, k :: 0 <= j < k < |Tally(apps).order| ==> Tally(apps).order[j] != Tally(apps).order[k]
    ensures forall s :: s in Tally(apps).order <==> s in Tally(apps).counts
    ensures forall s :: s in Tally(apps).counts <==> exists k :: 0 <= k < |apps| && apps[k].status == s
    ensures forall s :: s in Tally(apps).counts ==>
              Tally(apps).counts[s] == Count(apps, HasStatus(s)) && Tally(apps).counts[s] > 0
  {
    TallyKeys(apps);
    TallyOrderDistinct(apps);
    TallyCounts(apps);
    forall s ensures (s in Tally(apps).counts <==> exists k :: 0 <= k < |apps| && apps[k].status == s) {
      CountPositive(apps, HasStatus(s));
      assert CountOf(Tally(apps), s) == Count(apps, HasStatus(s));
    }
  }

  /** Where a status first occurs, or |apps| when it does not. */
  function FirstSeen(apps: seq<SchemeApplication>, status: string): nat
  {
    match FindFirst(apps, HasStatus(status))
    case None => |apps|
    case Some(i) => i
  }

  lemma FirstSeenAppend(apps: seq<SchemeApplication>, x: SchemeApplication, status: string)
    ensures FirstSeen(apps + [x], status) ==
      if FirstSeen(apps, status) < |apps| then FirstSeen(apps, status)
      else if x.status == status then |apps| else |apps| + 1
  {
    FindFirstAppend(apps, x, HasStatus(status));
  }

  /** A status that is not a key does not occur. */
  lemma {:induction false} FirstSeenUntallied(apps: seq<SchemeApplication>, status: string)
    requires status !in Tally(apps).counts
    ensures FirstSeen(apps, status) == |apps|
    decreases |apps|
  {
    if apps != [] {
      var init := apps[..|apps| - 1];
      var last := apps[|apps| - 1];
      assert apps == init + [last];
      assert status !in Tally(init).counts && last.status != status;
      FirstSeenUntallied(init, status);
      FirstSeenAppend(init, last, status);
    }
  }

  /** Appending keeps the first occurrence of every status that already occurred. */
  lemma FirstSeenKept(init: seq<SchemeApplication>, last: SchemeApplication, order: seq<string>)
    requires forall k :: 0 <= k < |order| ==> FirstSeen(init, order[k]) < |init|
    ensures forall k :: 0 <= k < |order| ==> FirstSeen(init + [last], order[k]) == FirstSeen(init, order[k])
  {
    forall k | 0 <= k < |order| ensures FirstSeen(init + [last], order[k]) == FirstSeen(init, order[k]) {
      FirstSeenAppend(init, last, order[k]);
    }
  }

  /** The keys are listed in the order in which their statuses first occur. */
  lemma {:induction false} TallyOrderFirstSeen(apps: seq<SchemeApplication>)
    ensures forall k :: 0 <= k < |Tally(apps).order| ==> FirstSeen(apps, Tally(apps).order[k]) < |apps|
    ensures forall j, k :: 0 <= j < k < |Tally(apps).order| ==>
              FirstSeen(apps, Tally(apps).order[j]) < FirstSeen(apps, Tally(apps).order[k])
    decreases |apps|
  {
    if apps != [] {
      var init := apps[..|apps| - 1];
      var last := apps[|apps| - 1];
      assert apps == init + [last];
      TallyOrderFirstSeen(init);
      var o := Tally(init).order;
      assert forall k :: 0 <= k < |o| ==> FirstSeen(init, o[k]) < |init|;
      FirstSeenKept(init, last, o);
      if last.status !in Tally(init).counts {
        FirstSeenUntallied(init, last.status);
        FirstSeenAppend(init, last, last.status);
        assert Tally(apps).order == o + [last.status];
      }
    }
  }

  /** The sum of the listed counts. */
  function SumCounts(order: seq<string>, counts: map<string, nat>): nat
  {
    if order == [] then 0
    else SumCounts(order[..|order| - 1], counts) + (if order[|order| - 1] in counts then counts[order[|order| - 1]] else 0)
  }

  lemma {:induction false} SumUnaffected(order: seq<string>, counts: map<string, nat>, s: string, n: nat)
    requires s !in order
    ensures SumCounts(order, counts[s := n]) == SumCounts(order, counts)
    decreases |order|
  {
    if order != [] {
      SumUnaffected(order[..|order| - 1], counts, s, n);
    }
  }

  lemma {:induction false} SumBump(order: seq<string>, counts: map<string, nat>, s: string)
    requires s in order && s in counts
    requires forall j, k :: 0 <= j < k < |order| ==> order[j] != order[k]
    ensures SumCounts(order, counts[s := counts[s] + 1]) == SumCounts(order, counts) + 1
    decreases |order|
  {
    var init := order[..|order| - 1];
    if order[|order| - 1] == s {
      assert s !in init;
      SumUnaffected(init, counts, s, counts[s] + 1);
    } else {
      assert s in init;
      SumBump(init, counts, s);
    }
  }

  /** The counts add up to the number of applications. */
  lemma {:induction false} TallySum(apps: seq<SchemeApplication>)
    ensures SumCounts(Tally(apps).order, Tally(apps).counts) == |apps|
    decreases |apps|
  {
    if apps != [] {
      var init := apps[..|apps| - 1];
      var status := apps[|apps| - 1].status;
      var t := Tally(init);
      TallySum(init);
      TallyKeys(init);
      TallyOrderDistinct(init);
      if status in t.counts {
        SumBump(t.order, t.counts, status);
      } else {
        var order := t.order + [status];
        assert order[..|order| - 1] == t.order;
        SumUnaffected(t.order, t.counts, status, 1);
      }
    }
  }

  const BadgeResolved := "badge-resolved"
  const BadgeInProgress := "badge-in-progress"
  const BadgePending := "badge-pending"

  /** The badge for a status: accepted and rejected ones, in any case, get their own badges. */
  function BadgeClass(status: string): (badge: string)
    ensures badge == BadgeResolved <==> EqualsIgnoringCase(status, "accepted")
    ensures badge == BadgeInProgress <==> EqualsIgnoringCase(status, "rejected")
    ensures badge == BadgePending <==>
      !EqualsIgnoringCase(status, "accepted") && !EqualsIgnoringCase(status, "rejected")
  {
    ToLowerMatches(status, "accepted");
    ToLowerMatches(status, "rejected");
    if ToLower(status) == "accepted" then BadgeResolved
    else if ToLower(status) == "rejected" then BadgeInProgress
    else BadgePending
  }

  datatype SummaryRow = SummaryRow(status: string, badge: string, count: nat)

  /** The dashboard panel: an empty-state message, or one row per status and the total. */
  datatype Summary = NoApplications | Overview(rows: seq<SummaryRow>, total: nat)

  function Rows(order: seq<string>, counts: map<string, nat>): (rows: seq<SummaryRow>)
    ensures |rows| == |order|
    ensures forall k :: 0 <= k < |order| ==>
      rows[k] == SummaryRow(order[k], BadgeClass(order[k]), if order[k] in counts then counts[order[k]] else 0)
  {
    if order == [] then []
    else Rows(order[..|order| - 1], counts) +
         [SummaryRow(order[|order| - 1], BadgeClass(order[|order| - 1]),
                     if order[|order| - 1] in counts then counts[order[|order| - 1]] else 0)]
  }

  /** One row per status, in the order the statuses first occur. */
  function StatusRows(mine: seq<SchemeApplication>): seq<SummaryRow>
  {
    Rows(Tally(mine).order, Tally(mine).counts)
  }

  /** The summary shown for the user with this phone. */
  function UserSummary(apps: seq<SchemeApplication>, phone: string): (r: Summary)
    ensures r.NoApplications? <==> forall k :: 0 <= k < |apps| ==> apps[k].userId != phone
    ensures r.Overview? ==> r.total == |Filter(apps, OwnedBy(phone))| && r.total > 0
  {
    CountPositive(apps, OwnedBy(phone));
    var mine := Filter(apps, OwnedBy(phone));
    if |mine| == 0 then NoApplications else Overview(StatusRows(mine), |mine|)
  }

  /** Builds the summary of the applications of the user with this phone. */
  method DisplayUserSchemeApplications(apps: seq<SchemeApplication>, phone: string) returns (summary: Summary)
    ensures summary == UserSummary(apps, phone)
    ensures summary.NoApplications? <==> forall k :: 0 <= k < |apps| ==> apps[k].userId != phone
    ensures summary.Overview? ==> summary.total == |Filter(apps, OwnedBy(phone))|
  {
    var mine := Filter(apps, OwnedBy(phone));
    CountPositive(apps, OwnedBy(phone));
    if |mine| == 0 {
      return NoApplications;
    }
    var t := CountStatuses(mine);
    summary := Overview(Rows(t.order, t.counts), |mine|);
  }

  /** Each summary row shows a status present among the applications, once, with its
      badge and its positive count. */
  lemma SummaryRowsExact(mine: seq<SchemeApplication>)
    ensures forall k :: 0 <= k < |StatusRows(mine)| ==>
      StatusRows(mine)[k].count == Count(mine, HasStatus(StatusRows(mine)[k].status)) &&
      StatusRows(mine)[k].count > 0 &&
      StatusRows(mine)[k].badge == BadgeClass(StatusRows(mine)[k].status) &&
      exists i :: 0 <= i < |mine| && mine[i].status == StatusRows(mine)[k].status
    ensures forall j, k :: 0 <= j < k < |StatusRows(mine)| ==> StatusRows(mine)[j].status != StatusRows(mine)[k].status
  {
    TallyExact(mine);
    forall k | 0 <= k < |StatusRows(mine)|
      ensures StatusRows(mine)[k].count == Count(mine, HasStatus(StatusRows(mine)[k].status))
      ensures StatusRows(mine)[k].count > 0
      ensures exists i :: 0 <= i < |mine| && mine[i].status == StatusRows(mine)[k].status
    {
      assert StatusRows(mine)[k].status == Tally(mine).order[k];
      assert Tally(mine).order[k] in Tally(mine).counts;
    }
  }

  /** Every status present among the applications has a summary row, and the rows'
      counts add up to the total. */
  lemma SummaryRowsCover(mine: seq<SchemeApplication>)
    ensures forall i :: 0 <= i < |mine| ==>
      exists k :: 0 <= k < |StatusRows(mine)| && StatusRows(mine)[k].status == mine[i].status
    ensures SumCounts(Tally(mine).order, Tally(mine).counts) == |mine|
  {
    TallyExact(mine);
    TallySum(mine);
    forall i | 0 <= i < |mine|
      ensures exists k :: 0 <= k < |StatusRows(mine)| && StatusRows(mine)[k].status == mine[i].status
    {
      assert mine[i].status in Tally(mine).order;
      var k :| 0 <= k < |Tally(mine).order| && Tally(mine).order[k] == mine[i].status;
      assert StatusRows(mine)[k].status == mine[i].status;
    }
  }

  /** The sum of the counts shown in the rows. */
  function RowCountSum(rows: seq<SummaryRow>): nat
  {
    if rows == [] then 0 else RowCountSum(rows[..|rows| - 1]) + rows[|rows| - 1].count
  }

  /** The rows show, in total, the sum of the listed counts. */
  lemma {:induction false} RowCountSumOfRows(order: seq<string>, counts: map<string, nat>)
    ensures RowCountSum(Rows(order, counts)) == SumCounts(order, counts)
    decreases |order|
  {
    if order != [] {
      var rows := Rows(order, counts);
      assert rows[..|rows| - 1] == Rows(order[..|order| - 1], counts);
      RowCountSumOfRows(order[..|order| - 1], counts);
    }
  }

  /** In the summary shown, the per-status counts add up to the total. */
  lemma SummaryTotal(apps: seq<SchemeApplication>, phone: string)
    ensures var summary := UserSummary(apps, phone);
      summary.Overview? ==> RowCountSum(summary.rows) == summary.total
  {
    var mine := Filter(apps, OwnedBy(phone));
    RowCountSumOfRows(Tally(mine).order, Tally(mine).counts);
    TallySum(mine);
  }
}
