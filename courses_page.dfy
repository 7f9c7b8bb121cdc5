/** The course landing page (`Courses.jsx`): eight carousel counters, each
    advanced by its own timer, and the slices of the catalog they select.
    Each timer firing is one call of `Tick`; the date sorts of the newly
    added courses and of the notices are not modelled, so those lists are
    inputs in their sorted order. */
module CoursesPage {
  import opened Wrappers
  import opened Seqs
  import opened Catalog

  // ---------------------------------------------------------------------
  // Counter arithmetic

  /** A JavaScript number as these counters can hold it: an integer, or NaN
      once a remainder by zero has been taken. */
  datatype Num = Int(value: int) | NaN

  function Abs(n: int): (r: int)
    ensures r >= 0 && (r == n || r == -n)
  {
    if n < 0 then -n else n
  }

  /** `a % n` on JavaScript numbers: NaN for a zero divisor, otherwise the
      remainder of truncating division, which has the sign of `a`; for a
      non-negative `a` it is the (Euclidean) remainder by the divisor's size. */
  function Rem(a: int, n: int): (r: Num)
    ensures r == NaN <==> n == 0
    ensures n != 0 && a >= 0 ==> r == Int(a % Abs(n)) && 0 <= r.value < Abs(n)
    ensures n != 0 && 0 <= a < Abs(n) ==> r == Int(a)
    ensures n != 0 && a < 0 ==> -Abs(n) < r.value <= 0
  {
    if n == 0 then NaN
    else if a >= 0 then
      SmallRemainder(a, Abs(n));
      Int(a % Abs(n))
    else Int(-((-a) % Abs(n)))
  }

  /** A non-negative number below the divisor is its own remainder. */
  lemma SmallRemainder(x: int, m: int)
    requires m > 0
    ensures 0 <= x < m ==> x % m == x
  {
  }

  /** One timer firing: `(prev + stride) % n`; NaN stays NaN. */
  function Step(prev: Num, stride: nat, n: int): (r: Num)
    ensures prev == NaN || n == 0 <==> r == NaN
    ensures prev.Int? && prev.value >= 0 && n != 0 ==> 0 <= r.value < Abs(n)
    ensures prev.Int? && 0 <= prev.value && prev.value + stride < n ==> r == Int(prev.value + stride)
  {
    match prev
    case NaN => NaN
    case Int(p) => Rem(p + stride, n)
  }

  /** The counter after `k` firings from `start`. */
  function Ticks(start: Num, stride: nat, n: int, k: nat): Num {
    if k == 0 then start else Step(Ticks(start, stride, n, k - 1), stride, n)
  }

  /** A counter that starts at 0 over a non-empty list stays a valid index
      into it however often its timer fires. */
  lemma {:induction false} TicksStayInRange(stride: nat, n: int, k: nat)
    requires n > 0
    ensures Ticks(Int(0), stride, n, k).Int?
    ensures 0 <= Ticks(Int(0), stride, n, k).value < n
  {
    if k > 0 {
      TicksStayInRange(stride, n, k - 1);
    }
  }

  /** Over an empty list the counter is NaN from the first firing on. */
  lemma {:induction false} EmptyListGivesNaN(start: Num, stride: nat, k: nat)
    requires k > 0
    ensures Ticks(start, stride, 0, k) == NaN
  {
  }

  // ---------------------------------------------------------------------
  // Slices

  /** `slice`'s reading of a bound: NaN counts as 0, a negative bound counts
      from the end, and every bound is clamped to the list. */
  function Bound(x: Num, len: nat): (b: nat)
    ensures b <= len
    ensures x.Int? && 0 <= x.value <= len ==> b == x.value
  {
    match x
    case NaN => 0
    case Int(v) => if v < 0 then (if len + v < 0 then 0 else len + v) else if v > len then len else v
  }

  function Plus(x: Num, k: nat): Num {
    match x
    case NaN => NaN
    case Int(v) => Int(v + k)
  }

  /** `list.slice(i, i + width)`. */
  function Window<T>(list: seq<T>, i: Num, width: nat): (r: seq<T>)
    ensures |r| <= width
    ensures i.Int? && 0 <= i.value && i.value + width <= |list| ==> r == list[i.value..i.value + width]
    ensures i.Int? && 0 <= i.value <= |list| && |list| < i.value + width ==> r == list[i.value..]
    ensures i == NaN ==> r == []
  {
    var from := Bound(i, |list|);
    var to := Bound(Plus(i, width), |list|);
    if from < to then list[from..to] else []
  }

  // ---------------------------------------------------------------------
  // The newly added row: `slice(i, i + 3)` with `i` stepping modulo `len - 3`

  const NewlyAddedWidth: nat := 3

  function NewlyAddedModulus(len: nat): int {
    len - NewlyAddedWidth
  }

  /** With more than three courses the counter stays below `len - 3`, so the
      row always shows three consecutive courses. */
  lemma {:induction false} NewlyAddedRowIsFull<T>(courses: seq<T>, k: nat)
    requires |courses| > NewlyAddedWidth
    ensures |Window(courses, Ticks(Int(0), 1, NewlyAddedModulus(|courses|), k), NewlyAddedWidth)| == NewlyAddedWidth
  {
    TicksStayInRange(1, NewlyAddedModulus(|courses|), k);
  }

  /** With exactly three courses the modulus is 0: the first firing makes the
      counter NaN and the row empty from then on. */
  lemma NewlyAddedRowEmptiesWithThree<T>(courses: seq<T>, k: nat)
    requires |courses| == NewlyAddedWidth && k > 0
    ensures Ticks(Int(0), 1, NewlyAddedModulus(|courses|), k) == NaN
    ensures Window(courses, Ticks(Int(0), 1, NewlyAddedModulus(|courses|), k), NewlyAddedWidth) == []
  {
    EmptyListGivesNaN(Int(0), 1, k);
  }

  /** With fewer than three courses the modulus is negative and the row
      never reaches three courses. */
  lemma NewlyAddedRowShortWithFewer<T>(courses: seq<T>, i: Num)
    requires |courses| < NewlyAddedWidth
    ensures |Window(courses, i, NewlyAddedWidth)| < NewlyAddedWidth
  {
  }

  // ---------------------------------------------------------------------
  // The notice window: `slice(i, i + 4)` with `i` stepping by 4

  const NoticeStride: nat := 4

  /** Until it wraps, the notice counter moves in steps of four from 0. */
  lemma {:induction false} NoticeCounterBeforeWrap(n: int, k: nat)
    requires NoticeStride * k < n
    ensures Ticks(Int(0), NoticeStride, n, k) == Int(NoticeStride * k)
  {
    if k > 0 {
      NoticeCounterBeforeWrap(n, k - 1);
    }
  }

  /** The last group of `n` notices starts at `4 * ((n - 1) / 4)` and, when
      `n` is not a multiple of four, holds `n % 4` of them. */
  lemma LastGroup(n: int)
    requires n % NoticeStride != 0
    ensures n > 0 ==> 0 <= NoticeStride * ((n - 1) / NoticeStride) < n
    ensures n > 0 ==> n - NoticeStride * ((n - 1) / NoticeStride) == n % NoticeStride
  {
  }

  /** When the number of notices is not a multiple of four, the counter
      reaches the last, shorter group: its window has `n % 4` notices. */
  lemma NoticeWindowShort<T>(notices: seq<T>)
    requires |notices| % NoticeStride != 0
    ensures var k := (|notices| - 1) / NoticeStride;
      |Window(notices, Ticks(Int(0), NoticeStride, |notices|, k), NoticeStride)| == |notices| % NoticeStride
  {
    var n := |notices|;
    var k := (n - 1) / NoticeStride;
    LastGroup(n);
    NoticeCounterBeforeWrap(n, k);
  }

  /** Between two multiples of four, the smaller is at least four below. */
  lemma MultipleOfFourBelow(v: int, n: int)
    requires 0 <= v < n && v % NoticeStride == 0 && n % NoticeStride == 0
    ensures v + NoticeStride <= n
  {
    assert v == (v / 4) * 4 && n == (n / 4) * 4;
  }

  /** A step of four from a multiple of four, below a multiple of four,
      lands on a multiple of four: the next one, or 0 at the end. */
  lemma StepOfMultipleOfFour(v: int, n: int)
    requires 0 <= v < n && v % NoticeStride == 0 && n % NoticeStride == 0
    ensures Step(Int(v), NoticeStride, n) == Int(if v + NoticeStride == n then 0 else v + NoticeStride)
    ensures var w := Step(Int(v), NoticeStride, n).value; w % NoticeStride == 0 && 0 <= w < n
  {
    MultipleOfFourBelow(v, n);
    if v + NoticeStride == n {
      assert n % n == 0;
    } else {
      assert (v + 4) % 4 == 0;
    }
  }

  /** When the number of notices is a positive multiple of four, every
      counter value is a multiple of four below it. */
  lemma {:induction false} NoticeCounterIsMultiple(n: int, k: nat)
    requires n > 0 && n % NoticeStride == 0
    ensures Ticks(Int(0), NoticeStride, n, k).Int?
    ensures Ticks(Int(0), NoticeStride, n, k).value % NoticeStride == 0
    ensures 0 <= Ticks(Int(0), NoticeStride, n, k).value < n
  {
    if k > 0 {
      NoticeCounterIsMultiple(n, k - 1);
      var prev := Ticks(Int(0), NoticeStride, n, k - 1);
      StepOfMultipleOfFour(prev.value, n);
      assert Ticks(Int(0), NoticeStride, n, k) == Step(prev, NoticeStride, n);
    }
  }

  /** ... so every window the counter reaches holds four notices. */
  lemma NoticeWindowFull<T>(notices: seq<T>, k: nat)
    requires |notices| > 0 && |notices| % NoticeStride == 0
    ensures |Window(notices, Ticks(Int(0), NoticeStride, |notices|, k), NoticeStride)| == NoticeStride
  {
    NoticeCounterIsMultiple(|notices|, k);
    MultipleOfFourBelow(Ticks(Int(0), NoticeStride, |notices|, k).value, |notices|);
  }

  // ---------------------------------------------------------------------
  // Trending courses

  function IsTrending(ids: seq<string>): Course -> bool {
    (c: Course) => c.id in ids
  }

  /** `trendingCourses`: the catalog courses whose id is in the trending
      list, in catalog order. */
  function TrendingCourses(catalog: seq<Course>, ids: seq<string>): (r: seq<Course>)
    ensures forall c :: c in r <==> c in catalog && c.id in ids
    ensures Subsequence(r, catalog)
  {
    FilterKeepsOrder(catalog, IsTrending(ids));
    Filter(catalog, IsTrending(ids))
  }

  /** For `0 <= x < 2n`, `x % n` takes off at most one `n`. */
  lemma ModBelowTwice(x: int, n: int)
    requires 0 < n && 0 <= x < 2 * n
    ensures x % n == if x < n then x else x - n
  {
    if x >= n {
      assert x == 1 * n + (x - n);
    }
  }

  /** `getVisibleCourses`' three positions: the one before, the current one
      and the one after, around the ring. */
  function VisibleIndices(i: int, n: int): (r: (int, int, int))
    requires 0 <= i < n
    ensures 0 <= r.0 < n && r.1 == i && 0 <= r.2 < n
    ensures (r.0 + 1) % n == i && (i + 1) % n == r.2
    ensures n >= 3 ==> r.0 != r.1 && r.1 != r.2 && r.0 != r.2
  {
    ModBelowTwice(i - 1 + n, n);
    ModBelowTwice(i + 1, n);
    ModBelowTwice((i - 1 + n) % n + 1, n);
    ((i - 1 + n) % n, i, (i + 1) % n)
  }

  function VisibleCourses(trending: seq<Course>, i: int): (r: seq<Course>)
    requires 0 <= i < |trending|
    ensures |r| == 3 && r[1] == trending[i]
    ensures forall c :: c in r ==> c in trending
  {
    var (p, c, n) := VisibleIndices(i, |trending|);
    [trending[p], trending[c], trending[n]]
  }

  /** With a single trending course the carousel shows that course three times. */
  lemma VisibleCoursesOfOne(trending: seq<Course>)
    requires |trending| == 1
    ensures VisibleCourses(trending, 0) == [trending[0], trending[0], trending[0]]
  {
  }

  // ---------------------------------------------------------------------
  // The page's counters

  /** The eight timers of the page. */
  datatype Carousel = CategoryCarousel | SectionText | Trending | Notice
                    | NewlyAdded | Upcoming | LiveClass | CommentCarousel

  /** How far each timer moves its counter. */
  function Stride(c: Carousel): nat {
    if c == Notice || c == LiveClass then 4 else 1
  }

  /** The range a counter keeps: NaN only over a zero modulus, otherwise a
      non-negative integer below the modulus's size. */
  ghost predicate CounterOk(i: Num, m: int) {
    (i == NaN ==> m == 0) && (i.Int? ==> 0 <= i.value && (m != 0 ==> i.value < Abs(m)))
  }

  /** The eight timers, each once. */
  lemma TimerListed(c: Carousel)
    ensures c == CategoryCarousel || c == SectionText || c == Trending || c == Notice
         || c == NewlyAdded || c == Upcoming || c == LiveClass || c == CommentCarousel
  {
    match c
    case CategoryCarousel =>
    case SectionText =>
    case Trending =>
    case Notice =>
    case NewlyAdded =>
    case Upcoming =>
    case LiveClass =>
    case CommentCarousel =>
  }

  /** Every counter at 0, as the page mounts. */
  function StartCounters(): (m: map<Carousel, Num>)
    ensures forall c :: c in m && m[c] == Int(0)
  {
    var m := map[CategoryCarousel := Int(0), SectionText := Int(0), Trending := Int(0), Notice := Int(0),
                 NewlyAdded := Int(0), Upcoming := Int(0), LiveClass := Int(0), CommentCarousel := Int(0)];
    assert forall c: Carousel :: c in m by {
      forall c: Carousel ensures c in m {
        TimerListed(c);
      }
    }
    m
  }

  /** A timer firing keeps its counter in range. */
  lemma StepKeepsCounterOk(i: Num, stride: nat, m: int)
    requires CounterOk(i, m)
    ensures CounterOk(Step(i, stride, m), m)
  {
  }

  class CoursesPageState {
    const categoryCount: nat
    const sectionTextCount: nat
    const trending: seq<Course>
    const notices: seq<Notification>
    const newlyAdded: seq<Course>
    const upcomingCount: nat
    const liveClassCount: nat
    const commentCount: nat

    /** The eight counters (`currentCategoryIndex`, `currentTextIndex`,
        `currentIndex`, `currentNoticeIndex`, `newlyAddedIndex`,
        `currentUpcomingCourseIndex`, `currentLiveClassNoticeIndex`,
        `currentCommentIndex`), keyed by their timer. */
    var counters: map<Carousel, Num>

    /** The divisor each timer takes its remainder by. */
    function Modulus(c: Carousel): int
      reads this
    {
      match c
      case CategoryCarousel => categoryCount
      case SectionText => sectionTextCount
      case Trending => |trending|
      case Notice => |notices|
      case NewlyAdded => NewlyAddedModulus(|newlyAdded|)
      case Upcoming => upcomingCount
      case LiveClass => liveClassCount
      case CommentCarousel => commentCount
    }

    /** Every timer has a counter, a non-negative integer below its
        modulus's size, or NaN when its modulus is 0. */
    ghost predicate Valid()
      reads this
    {
      forall c :: c in counters && CounterOk(counters[c], Modulus(c))
    }

    /** The mount: every counter starts at 0. */
    constructor (categoryCount: nat, sectionTextCount: nat, catalog: seq<Course>, trendingIds: seq<string>,
                 notices: seq<Notification>, newlyAdded: seq<Course>, upcomingCount: nat,
                 liveClassCount: nat, commentCount: nat)
      ensures trending == TrendingCourses(catalog, trendingIds) && this.newlyAdded == newlyAdded
      ensures this.notices == notices
      ensures forall c :: c in counters && counters[c] == Int(0)
      ensures Valid()
    {
      this.categoryCount := categoryCount;
      this.sectionTextCount := sectionTextCount;
      this.trending := TrendingCourses(catalog, trendingIds);
      this.notices := notices;
      this.newlyAdded := newlyAdded;
      this.upcomingCount := upcomingCount;
      this.liveClassCount := liveClassCount;
      this.commentCount := commentCount;
      counters := StartCounters();
    }

    /** One firing of a timer: that counter steps, the others stay. */
    method Tick(c: Carousel)
      requires Valid()
      modifies this
      ensures Valid()
      ensures counters == old(counters)[c := Step(old(counters)[c], Stride(c), Modulus(c))]
    {
      StepKeepsCounterOk(counters[c], Stride(c), Modulus(c));
      counters := counters[c := Step(counters[c], Stride(c), Modulus(c))];
    }

    /** The trending row; None when there are no trending courses, where
        the page reads `undefined` entries and cannot render. */
    function TrendingRow(): (r: Option<seq<Course>>)
      requires Valid()
      reads this
      ensures r.None? <==> |trending| == 0
      ensures r.Some? ==> |r.value| == 3 && r.value[1] == trending[counters[Trending].value]
    {
      if |trending| == 0 then None else Some(VisibleCourses(trending, counters[Trending].value))
    }

    /** The notices shown: four from the counter on, fewer at the end of
        the list, none when there are no notices. */
    function NoticeRow(): (r: seq<Notification>)
      requires Valid()
      reads this
      ensures |r| <= NoticeStride
      ensures |notices| == 0 ==> r == []
      ensures |notices| > 0 ==>
        var i := counters[Notice].value;
        r == notices[i..if i + NoticeStride <= |notices| then i + NoticeStride else |notices|]
    {
      Window(notices, counters[Notice], NoticeStride)
    }

    /** The newly added row: three from the counter on. */
    function NewlyAddedRow(): (r: seq<Course>)
      requires Valid()
      reads this
      ensures |newlyAdded| > NewlyAddedWidth ==> r == newlyAdded[counters[NewlyAdded].value..counters[NewlyAdded].value + NewlyAddedWidth]
    {
      Window(newlyAdded, counters[NewlyAdded], NewlyAddedWidth)
    }
  }
}
