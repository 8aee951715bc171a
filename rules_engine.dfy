/** `validateReservation` of `src/services/rules-engine.ts`: a Monday-based
    weekly block limit, then a course check through `COURSE_ASSET_MAP`. The
    two placeholder helpers of the source (the user's active reservations
    and the course-tag lookup) are parameters here: `reservations` is what
    `getActiveReservations(userId)` returns and `courseTags` the course codes
    for which `userHasCourseTag(userId, code)` holds. */
module RulesEngine {
  import opened Wrappers
  import opened Seqs
  import opened Time

  datatype ActiveReservation = ActiveReservation(startTime: int, endTime: int)

  datatype RuleResult = RuleResult(allowed: bool, reason: Option<string>)

  const BLOCK_LIMIT_REASON := "Block Limit: You cannot have more than 3 active reservations in a single week."

  function CourseReason(course: string): string {
    "Course Check: You must be enrolled in " + course + " to reserve this asset."
  }

  /** `COURSE_ASSET_MAP`, in key order. */
  const CourseAssetMap: seq<(string, string)> := [("MC401", "Camera"), ("MC402", "Lighting")]

  /** `Object.keys(COURSE_ASSET_MAP).find(code => COURSE_ASSET_MAP[code] === category)`:
      the first course whose mapped category is `category`. */
  function RequiredCourse(category: string): (r: Option<string>)
    ensures r.Some? <==> exists i :: 0 <= i < |CourseAssetMap| && CourseAssetMap[i].1 == category
    ensures r.Some? ==> exists i :: 0 <= i < |CourseAssetMap| && CourseAssetMap[i] == (r.value, category) &&
                          forall j :: 0 <= j < i ==> CourseAssetMap[j].1 != category
  {
    FirstCourseFor(CourseAssetMap, category)
  }

  function FirstCourseFor(entries: seq<(string, string)>, category: string): (r: Option<string>)
    ensures r.Some? <==> exists i :: 0 <= i < |entries| && entries[i].1 == category
    ensures r.Some? ==> exists i :: 0 <= i < |entries| && entries[i] == (r.value, category) &&
                          forall j :: 0 <= j < i ==> entries[j].1 != category
  {
    if entries == [] then None
    else if entries[0].1 == category then Some(entries[0].0)
    else
      var r := FirstCourseFor(entries[1..], category);
      assert r.Some? ==> exists i :: 1 <= i < |entries| && entries[i] == (r.value, category) &&
                          forall j :: 0 <= j < i ==> entries[j].1 != category by {
        if r.Some? {
          var i :| 0 <= i < |entries[1..]| && entries[1..][i] == (r.value, category) &&
                   forall j :: 0 <= j < i ==> entries[1..][j].1 != category;
          assert forall j :: 1 <= j < i + 1 ==> entries[j].1 != category by {
            forall j | 1 <= j < i + 1 ensures entries[j].1 != category {
              assert entries[j] == entries[1..][j - 1];
            }
          }
        }
      }
      assert (exists i :: 1 <= i < |entries| && entries[i].1 == category) ==> exists i :: 0 <= i < |entries[1..]| && entries[1..][i].1 == category by {
        if exists i :: 1 <= i < |entries| && entries[i].1 == category {
          var i :| 1 <= i < |entries| && entries[i].1 == category;
          assert entries[1..][i - 1].1 == category;
        }
      }
      r
  }

  /** `isWithinInterval(startTime, { start: weekStart, end: weekEnd })`:
      only the start is tested, both ends inclusive. */
  function InWeekOf(date: int): ActiveReservation -> bool {
    (r: ActiveReservation) => StartOfISOWeek(date) <= r.startTime <= EndOfISOWeek(date)
  }

  /** `validateReservation(userId, assetCategory, date)`. */
  function ValidateReservation(
    reservations: seq<ActiveReservation>, courseTags: set<string>, assetCategory: string, date: int): (r: RuleResult)
    ensures |Filter(reservations, InWeekOf(date))| >= 3 ==> r == RuleResult(false, Some(BLOCK_LIMIT_REASON))
    ensures |Filter(reservations, InWeekOf(date))| < 3 ==>
              match RequiredCourse(assetCategory)
              case Some(course) => (course in courseTags ==> r == RuleResult(true, None)) &&
                                   (course !in courseTags ==> r == RuleResult(false, Some(CourseReason(course))))
              case None => r == RuleResult(true, None)
    ensures r.allowed <==> r.reason.None?
  {
    var thisWeek := Filter(reservations, InWeekOf(date));
    if |thisWeek| >= 3 then RuleResult(false, Some(BLOCK_LIMIT_REASON))
    else
      var requiredCourse := RequiredCourse(assetCategory);
      if requiredCourse.Some? && requiredCourse.value !in courseTags then
        RuleResult(false, Some(CourseReason(requiredCourse.value)))
      else RuleResult(true, None)
  }

  /** When the block limit rejects, the course rule is not consulted: the
      answer is the same whatever the user's course tags. */
  lemma QuotaBeforeCourse(reservations: seq<ActiveReservation>, tags1: set<string>, tags2: set<string>, category: string, date: int)
    requires |Filter(reservations, InWeekOf(date))| >= 3
    ensures ValidateReservation(reservations, tags1, category, date) == ValidateReservation(reservations, tags2, category, date)
  {
  }

  /** Only start times are tested: rows that differ only in their end times
      give the same answer. */
  lemma EndTimeIgnored(rs: seq<ActiveReservation>, rs': seq<ActiveReservation>, tags: set<string>, category: string, date: int)
    requires |rs| == |rs'|
    requires forall i :: 0 <= i < |rs| ==> rs[i].startTime == rs'[i].startTime
    ensures ValidateReservation(rs, tags, category, date) == ValidateReservation(rs', tags, category, date)
  {
    EndTimeIgnoredCount(rs, rs', InWeekOf(date), date);
  }

  lemma {:induction false} EndTimeIgnoredCount(rs: seq<ActiveReservation>, rs': seq<ActiveReservation>, p: ActiveReservation -> bool, date: int)
    requires p == InWeekOf(date)
    requires |rs| == |rs'|
    requires forall i :: 0 <= i < |rs| ==> rs[i].startTime == rs'[i].startTime
    ensures |Filter(rs, p)| == |Filter(rs', p)|
  {
    if rs != [] {
      EndTimeIgnoredCount(rs[1..], rs'[1..], p, date);
    }
  }

  /** The two mapped categories require their course; every other category
      skips the course rule. */
  lemma CourseMapping(category: string)
    ensures category == "Camera" ==> RequiredCourse(category) == Some("MC401")
    ensures category == "Lighting" ==> RequiredCourse(category) == Some("MC402")
    ensures category != "Camera" && category != "Lighting" ==> RequiredCourse(category) == None
  {
    assert CourseAssetMap[0].1 == "Camera" && CourseAssetMap[1].1 == "Lighting";
  }
}
