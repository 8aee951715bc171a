/** The block calendar and the older admission check of
    `src/lib/reservation-logic.ts`. */
module ReservationLogic {
  import opened Wrappers
  import opened Seqs
  import opened Time
  import opened Reservations

  datatype BlockId = A | B | C

  /** One entry of the `BLOCKS` configuration. */
  datatype BlockConfig = BlockConfig(startDays: seq<string>, startTime: string)

  /** `Object.keys(BLOCKS)`, in declaration order. */
  const BlockKeys: seq<BlockId> := [A, B, C]

  /** `BLOCKS[b]`. */
  function Blocks(b: BlockId): BlockConfig {
    match b
    case A => BlockConfig(["Mon", "Tue", "Wed", "Thu"], "09:00")
    case B => BlockConfig(["Mon", "Tue", "Wed", "Thu"], "14:00")
    case C => BlockConfig(["Fri"], "09:00")
  }

  /** Position of a block in the configuration. */
  function KeyIndex(b: BlockId): nat {
    match b
    case A => 0
    case B => 1
    case C => 2
  }

  /** `block.startDays.includes(dayName)`. */
  function StartsOn(dayName: string): BlockId -> bool {
    b => dayName in Blocks(b).startDays
  }

  /** The blocks that may start on a day with the given short name. */
  function OfferedOn(dayName: string): seq<BlockId> {
    Filter(BlockKeys, StartsOn(dayName))
  }

  /** `getAvailableBlocks(date)`: walk the configuration in key order and
      collect the blocks whose start days include the date's weekday. */
  method GetAvailableBlocks(date: int) returns (available: seq<BlockId>)
    ensures available == OfferedOn(DayName(date))
  {
    var dayName := DayName(date);
    available := [];
    for i := 0 to |BlockKeys|
      invariant available == Filter(BlockKeys[..i], StartsOn(dayName))
    {
      FilterSnoc(BlockKeys, i, StartsOn(dayName));
      var blockKey := BlockKeys[i];
      if dayName in Blocks(blockKey).startDays {
        available := available + [blockKey];
      }
    }
    assert BlockKeys[..|BlockKeys|] == BlockKeys;
  }

  /** The offered blocks are exactly those whose start days contain the day,
      in configuration order A, B, C, without duplicates. */
  lemma OfferedOnCharacterised(dayName: string)
    ensures forall b :: b in OfferedOn(dayName) <==> dayName in Blocks(b).startDays
    ensures forall i, j :: 0 <= i < j < |OfferedOn(dayName)| ==>
              KeyIndex(OfferedOn(dayName)[i]) < KeyIndex(OfferedOn(dayName)[j])
  {
    var p := StartsOn(dayName);
    assert Filter(BlockKeys, p) == (if p(A) then [A] else []) + Filter([B, C], p);
    assert Filter([B, C], p) == (if p(B) then [B] else []) + Filter([C], p);
    assert Filter([C], p) == (if p(C) then [C] else []) + Filter([], p);
  }

  /** Monday to Thursday offer A then B; Friday offers only C; the weekend
      offers nothing. */
  lemma BlocksByWeekday(date: int)
    ensures Weekday(date) <= 3 ==> OfferedOn(DayName(date)) == [A, B]
    ensures Weekday(date) == 4 ==> OfferedOn(DayName(date)) == [C]
    ensures Weekday(date) >= 5 ==> OfferedOn(DayName(date)) == []
  {
    var p := StartsOn(DayName(date));
    assert Filter(BlockKeys, p) == (if p(A) then [A] else []) + Filter([B, C], p);
    assert Filter([B, C], p) == (if p(B) then [B] else []) + Filter([C], p);
    assert Filter([C], p) == (if p(C) then [C] else []) + Filter([], p);
  }

  const BLOCK_UNAVAILABLE := "Block Unavailable"
  const WEEKLY_LIMIT_EXCEEDED := "Weekly Limit Exceeded"
  const COURSE_RESTRICTION := "Course Restriction"

  datatype User = User(id: string, weekQuotaUsed: int, enrolledCourses: seq<string>)

  datatype Asset = Asset(id: int, requiredCourses: seq<string>)

  /** The `findFirst` filter: same asset, same block, identical start. */
  predicate SameSlot(r: Reservation, assetId: int, block: string, date: int) {
    r.assetId == assetId && r.block == Some(block) && r.startTime == date
  }

  function SameSlotAs(assetId: int, block: string, date: int): Reservation -> bool {
    r => SameSlot(r, assetId, block, date)
  }

  /** `required.some(course => enrolled.includes(course))`. */
  function SharesCourse(required: seq<string>, enrolled: seq<string>): (r: bool)
    ensures r <==> exists c :: c in required && c in enrolled
  {
    if required == [] then false
    else required[0] in enrolled || SharesCourse(required[1..], enrolled)
  }

  /** `validateReservationRequest(prisma, user, asset, block, date)`: the
      slot check, then the quota the caller supplies, then courses; `None` is
      the source's `null` (all checks passed). */
  function ValidateReservationRequest(
    rows: seq<Reservation>, user: User, asset: Asset, block: string, date: int): (r: Option<string>)
    ensures (exists x :: x in rows && SameSlot(x, asset.id, block, date)) ==> r == Some(BLOCK_UNAVAILABLE)
    ensures ((forall x :: x in rows ==> !SameSlot(x, asset.id, block, date)) && user.weekQuotaUsed >= 3)
              ==> r == Some(WEEKLY_LIMIT_EXCEEDED)
    ensures ((forall x :: x in rows ==> !SameSlot(x, asset.id, block, date)) && user.weekQuotaUsed < 3)
              ==> (r == Some(COURSE_RESTRICTION) <==> forall c :: c in asset.requiredCourses ==> c !in user.enrolledCourses)
    ensures r == None <==>
              (forall x :: x in rows ==> !SameSlot(x, asset.id, block, date)) && user.weekQuotaUsed < 3 &&
              (exists c :: c in asset.requiredCourses && c in user.enrolledCourses)
  {
    var existing := Filter(rows, SameSlotAs(asset.id, block, date));
    assert forall x :: x in rows && SameSlot(x, asset.id, block, date) ==> x in existing by {
      forall x | x in rows && SameSlot(x, asset.id, block, date) ensures x in existing {
        var i :| 0 <= i < |rows| && rows[i] == x;
      }
    }
    if existing != [] then
      assert existing[0] in rows && SameSlot(existing[0], asset.id, block, date);
      Some(BLOCK_UNAVAILABLE)
    else if user.weekQuotaUsed >= 3 then Some(WEEKLY_LIMIT_EXCEEDED)
    else if !SharesCourse(asset.requiredCourses, user.enrolledCourses) then Some(COURSE_RESTRICTION)
    else None
  }

  /** An asset without required courses is never reservable through this
      check once slot and quota pass: `[].some(...)` is false. */
  lemma EmptyRequiredCoursesRejected(rows: seq<Reservation>, user: User, asset: Asset, block: string, date: int)
    requires asset.requiredCourses == []
    ensures ValidateReservationRequest(rows, user, asset, block, date) != None
  {
  }
}
