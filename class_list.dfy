/**
 * The class list, as both the home page and the class-card page show it:
 * the availability badge, the colour, icon and difficulty tables, the
 * summary figures and the book button. Instants are milliseconds and "now"
 * is a parameter.
 */
module ClassList {
  import opened Js
  import BookingForm

  datatype FitnessClass = FitnessClass(
    id: string,
    name: string,
    instructor: string,
    date_time: int,
    total_slots: int,
    available_slots: int,
    difficulty: string)

  datatype Availability = Full | Low | Available

  /**
   * getAvailabilityStatus: the ratio available/total is Full at exactly 0 and
   * Low below 0.3, compared without division. With total 0 the ratio is
   * Infinity or NaN (Available) for available >= 0 and -Infinity (Low) below.
   */
  function AvailabilityStatus(available: int, total: int): (s: Availability)
    ensures total != 0 ==> (s == Full <==> available == 0)
    ensures total > 0 && available != 0 ==> (s == Low <==> 10 * available < 3 * total)
    ensures total < 0 && available != 0 ==> (s == Low <==> 10 * available > 3 * total)
    ensures total == 0 ==> s == (if available < 0 then Low else Available)
  {
    if total == 0 then (if available < 0 then Low else Available)
    else if available == 0 then Full
    else if (total > 0 && 10 * available < 3 * total) || (total < 0 && 10 * available > 3 * total) then Low
    else Available
  }

  /** Full comes before Low, Low before Available. */
  function Rank(s: Availability): nat {
    match s
    case Full => 0
    case Low => 1
    case Available => 2
  }

  /** With a positive capacity, freeing places never makes the badge worse. */
  lemma AvailabilityMonotonic(a1: int, a2: int, total: int)
    requires total > 0 && 0 <= a1 <= a2
    ensures Rank(AvailabilityStatus(a1, total)) <= Rank(AvailabilityStatus(a2, total))
  {
  }

  /** With a positive capacity the three badges split 0..total at 0 and 30%. */
  lemma AvailabilityThresholds(available: int, total: int)
    requires total > 0 && 0 <= available <= total
    ensures AvailabilityStatus(available, total) == Full ==> available == 0
    ensures AvailabilityStatus(available, total) == Low ==> 0 < available && 10 * available < 3 * total
    ensures AvailabilityStatus(available, total) == Available ==> 3 * total <= 10 * available
    ensures AvailabilityStatus(total, total) == Available
  {
  }

  /** The badge as the home page draws it. */
  datatype HomeBadge = HomeBadge(text: string, bg: string, color: string, border: string)

  function HomeBadgeFor(s: Availability): (b: HomeBadge)
    ensures b.text == (match s case Full => "Full" case Low => "Low" case Available => "Available")
  {
    match s
    case Full => HomeBadge("Full", "bg-red-50", "text-red-600", "border-red-200")
    case Low => HomeBadge("Low", "bg-amber-50", "text-amber-600", "border-amber-200")
    case Available => HomeBadge("Available", "bg-green-50", "text-green-600", "border-green-200")
  }

  /** The badge as the class card draws it. */
  datatype CardBadge = CardBadge(text: string, bg: string, color: string)

  function CardBadgeFor(s: Availability): (b: CardBadge)
    ensures b.text == HomeBadgeFor(s).text
  {
    match s
    case Full => CardBadge("Full", "bg-red-100", "text-red-600")
    case Low => CardBadge("Low", "bg-yellow-100", "text-yellow-600")
    case Available => CardBadge("Available", "bg-green-100", "text-green-600")
  }

  const HomeDifficultyColors := map[
    "Beginner" := "bg-green-100 text-green-800 border-green-200",
    "Intermediate" := "bg-amber-100 text-amber-800 border-amber-200",
    "Advanced" := "bg-red-100 text-red-800 border-red-200"]
  const HomeDifficultyDefault := "bg-gray-100 text-gray-800 border-gray-200"

  const CardDifficultyColors := map["Beginner" := "bg-green-500", "Intermediate" := "bg-yellow-500", "Advanced" := "bg-red-500"]
  const CardDifficultyDefault := "bg-gray-500"

  const ClassColors := map["YOGA" := "from-blue-500 to-indigo-500", "ZUMBA" := "from-pink-500 to-purple-500", "HIIT" := "from-red-500 to-orange-500"]
  const ClassColorDefault := "from-gray-500 to-gray-600"

  const ClassIcons := map[
    "YOGA" := "\U{1F9D8}\U{200D}\U{2640}\U{FE0F}",
    "ZUMBA" := "\U{1F483}",
    "HIIT" := "\U{1F525}"]
  const ClassIconDefault := "\U{1F3CB}\U{FE0F}"

  /** The home page's getDifficultyColor: the three levels by table, anything else gray. */
  function HomeDifficultyColor(difficulty: string): (c: string)
    ensures difficulty in HomeDifficultyColors ==> c == HomeDifficultyColors[difficulty]
    ensures difficulty !in HomeDifficultyColors ==> c == HomeDifficultyDefault
  {
    LookupOr(HomeDifficultyColors, difficulty, HomeDifficultyDefault)
  }

  /** The class card's getDifficultyColor: the three levels by table, anything else gray. */
  function CardDifficultyColor(difficulty: string): (c: string)
    ensures difficulty in CardDifficultyColors ==> c == CardDifficultyColors[difficulty]
    ensures difficulty !in CardDifficultyColors ==> c == CardDifficultyDefault
  {
    LookupOr(CardDifficultyColors, difficulty, CardDifficultyDefault)
  }

  /** getClassColor: YOGA, ZUMBA and HIIT by table, anything else gray. */
  function ClassColor(name: string): (c: string)
    ensures name in ClassColors ==> c == ClassColors[name]
    ensures name !in ClassColors ==> c == ClassColorDefault
  {
    LookupOr(ClassColors, name, ClassColorDefault)
  }

  /** getClassIcon: YOGA, ZUMBA and HIIT by table, anything else the weight lifter. */
  function ClassIcon(name: string): (c: string)
    ensures name in ClassIcons ==> c == ClassIcons[name]
    ensures name !in ClassIcons ==> c == ClassIconDefault
  {
    LookupOr(ClassIcons, name, ClassIconDefault)
  }

  /**
   * The tables are keyed by exact spelling: a name or a level gets its own
   * style exactly when it is one of the three spelled as the tables spell
   * them, so "yoga" or "beginner" fall to the default.
   */
  lemma OnlyExactKeysStyled(name: string, difficulty: string)
    ensures ClassColor(name) != ClassColorDefault <==> name == "YOGA" || name == "ZUMBA" || name == "HIIT"
    ensures ClassIcon(name) != ClassIconDefault <==> name == "YOGA" || name == "ZUMBA" || name == "HIIT"
    ensures HomeDifficultyColor(difficulty) != HomeDifficultyDefault <==>
      difficulty == "Beginner" || difficulty == "Intermediate" || difficulty == "Advanced"
    ensures CardDifficultyColor(difficulty) != CardDifficultyDefault <==>
      difficulty == "Beginner" || difficulty == "Intermediate" || difficulty == "Advanced"
  {
  }

  /** "Available Spots": `reduce((sum, cls) => sum + cls.available_slots, 0)`, added left to right. */
  function SumAvailable(cs: seq<FitnessClass>): (r: int)
    ensures (forall i :: 0 <= i < |cs| ==> cs[i].available_slots >= 0) ==>
      forall i :: 0 <= i < |cs| ==> 0 <= cs[i].available_slots <= r
  {
    if cs == [] then 0 else SumAvailable(cs[..|cs| - 1]) + cs[|cs| - 1].available_slots
  }

  function SumTotal(cs: seq<FitnessClass>): int {
    if cs == [] then 0 else SumTotal(cs[..|cs| - 1]) + cs[|cs| - 1].total_slots
  }

  /** The sum splits over any cut of the list. */
  lemma {:induction false} SumAvailableAppend(a: seq<FitnessClass>, b: seq<FitnessClass>)
    ensures SumAvailable(a + b) == SumAvailable(a) + SumAvailable(b)
    decreases |b|
  {
    if b == [] {
      assert a + b == a;
    } else {
      var b' := b[..|b| - 1];
      assert (a + b)[..|a + b| - 1] == a + b';
      SumAvailableAppend(a, b');
    }
  }

  /** With no negative counts and none above capacity, the spots lie between 0 and the total capacity. */
  lemma {:induction false} SumAvailableBounds(cs: seq<FitnessClass>)
    requires forall i :: 0 <= i < |cs| ==> 0 <= cs[i].available_slots <= cs[i].total_slots
    ensures 0 <= SumAvailable(cs) <= SumTotal(cs)
  {
    if cs != [] {
      SumAvailableBounds(cs[..|cs| - 1]);
    }
  }

  /** The distinct instructors. */
  function Instructors(cs: seq<FitnessClass>): (r: set<string>)
    ensures forall i :: 0 <= i < |cs| ==> cs[i].instructor in r
    ensures forall x :: x in r ==> exists i :: 0 <= i < |cs| && cs[i].instructor == x
    ensures |r| <= |cs|
  {
    if cs == [] then {} else Instructors(cs[..|cs| - 1]) + {cs[|cs| - 1].instructor}
  }

  /**
   * "Active Instructors": `new Set(classes.map(cls => cls.instructor)).size`,
   * never more than the classes and at least one for a non-empty list.
   */
  function InstructorCount(cs: seq<FitnessClass>): (n: nat)
    ensures n <= |cs|
    ensures cs != [] ==> n >= 1
  {
    if cs != [] then assert cs[0].instructor in Instructors(cs); |Instructors(cs)|
    else |Instructors(cs)|
  }

  /** One instructor teaching every class counts once. */
  lemma {:induction false} SingleInstructor(cs: seq<FitnessClass>, who: string)
    requires cs != [] && forall i :: 0 <= i < |cs| ==> cs[i].instructor == who
    ensures Instructors(cs) == {who}
  {
    if |cs| > 1 {
      SingleInstructor(cs[..|cs| - 1], who);
    }
  }

  /** Seven days in milliseconds. */
  const WeekMs := 7 * 24 * 60 * 60 * 1000

  /** "This Week": from now up to a week from now, both ends included. */
  predicate InComingWeek(now: int, c: FitnessClass) {
    now <= c.date_time <= now + WeekMs
  }

  function ThisWeek(cs: seq<FitnessClass>, now: int): (r: seq<FitnessClass>)
    ensures |r| <= |cs|
    ensures forall i :: 0 <= i < |r| ==> r[i] in cs && now <= r[i].date_time <= now + WeekMs
    ensures forall i :: 0 <= i < |cs| && now <= cs[i].date_time <= now + WeekMs ==> cs[i] in r
  {
    Filter(cs, c => InComingWeek(now, c))
  }

  /** The four figures above the list. */
  datatype Stats = Stats(total: nat, availableSpots: int, instructors: nat, thisWeek: nat)

  function HomeStats(cs: seq<FitnessClass>, now: int): (s: Stats)
    ensures s.total == |cs| && s.availableSpots == SumAvailable(cs)
    ensures s.instructors == InstructorCount(cs) && s.thisWeek == |ThisWeek(cs, now)|
    ensures s.thisWeek <= s.total
  {
    Stats(|cs|, SumAvailable(cs), InstructorCount(cs), |ThisWeek(cs, now)|)
  }

  /** The book button: disabled, and labelled Full, exactly when no place is left. */
  datatype BookButton = BookButton(disabled: bool, text: string)

  function BookButtonFor(c: FitnessClass): (b: BookButton)
    ensures b.disabled <==> c.available_slots == 0
    ensures b.text == (if b.disabled then "Full" else "Book Now")
  {
    if c.available_slots == 0 then BookButton(true, "Full") else BookButton(false, "Book Now")
  }

  /** For a class with a non-zero capacity, the Full badge and the disabled button always agree. */
  lemma FullBadgeIffBookDisabled(c: FitnessClass)
    requires c.total_slots != 0
    ensures AvailabilityStatus(c.available_slots, c.total_slots) == Full <==> BookButtonFor(c).disabled
  {
  }

  /** The class as the booking page's list carries it. */
  function AsBookable(c: FitnessClass): BookingForm.BookableClass {
    BookingForm.BookableClass(c.id, c.name, c.date_time, c.available_slots)
  }

  /**
   * Pressing Book on a class with a free place opens the booking page with
   * that class's id; if the list the booking page fetches holds the class,
   * with no other class of that id before it, it is the class preselected.
   */
  lemma BookNowPreselects(c: FitnessClass, pre: seq<BookingForm.BookableClass>, post: seq<BookingForm.BookableClass>)
    requires c.available_slots > 0 && c.id != ""
    requires forall i :: 0 <= i < |pre| ==> pre[i].id != c.id
    ensures !BookButtonFor(c).disabled
    ensures BookingForm.InitialForm(Some(c.id)).class_id == c.id
    ensures BookingForm.AfterFetch(BookingForm.InitialForm(Some(c.id)), pre + [AsBookable(c)] + post, Some(c.id)).selected
         == Some(AsBookable(c))
  {
    var x := AsBookable(c);
    var fetched := pre + [x] + post;
    OfferedAround(pre, x, post);
    var kept := BookingForm.AvailableClasses(pre);
    forall i | 0 <= i < |kept|
      ensures kept[i].id != c.id
    {
      assert kept[i] in pre;
    }
    FindAfterPrefix(kept, x, BookingForm.AvailableClasses(post));
    assert BookingForm.AvailableClasses(fetched) == kept + [x] + BookingForm.AvailableClasses(post);
  }

  /** A class with a free place stays where it is among the offered ones. */
  lemma OfferedAround(pre: seq<BookingForm.BookableClass>, x: BookingForm.BookableClass, post: seq<BookingForm.BookableClass>)
    requires BookingForm.HasPlaces(x)
    ensures BookingForm.AvailableClasses(pre + [x] + post)
         == BookingForm.AvailableClasses(pre) + [x] + BookingForm.AvailableClasses(post)
  {
    var tail := [x] + post;
    assert pre + [x] + post == pre + tail;
    BookingForm.AvailableKeepsOrder(pre, tail);
    BookingForm.AvailableKeepsOrder([x], post);
    assert BookingForm.AvailableClasses([x]) == [x] by {
      assert [x][1..] == [];
    }
  }

  /** `find` skips a prefix holding no class with the id and stops at the first that has it. */
  lemma {:induction false} FindAfterPrefix(pre: seq<BookingForm.BookableClass>, x: BookingForm.BookableClass, post: seq<BookingForm.BookableClass>)
    requires forall i :: 0 <= i < |pre| ==> pre[i].id != x.id
    ensures BookingForm.Find(pre + [x] + post, x.id) == Some(x)
  {
    if pre != [] {
      assert (pre + [x] + post)[1..] == pre[1..] + [x] + post;
      FindAfterPrefix(pre[1..], x, post);
    }
  }
}
