/** The category page (`CategoryCourses.jsx`): the courses of the category
    named in the route, and the heading built from that name. */
module CategoryCourses {
  import opened Text
  import opened Seqs
  import opened Catalog

  /** A course's categories, lower-cased. */
  function LoweredCategories(course: Course): (r: seq<string>)
    ensures |r| == |course.categories|
    ensures forall i :: 0 <= i < |r| ==> r[i] == ToLower(course.categories[i])
  {
    seq(|course.categories|, i requires 0 <= i < |course.categories| => ToLower(course.categories[i]))
  }

  /** The route's name is compared as it stands, without lower-casing it. */
  predicate InCategory(categoryName: string, course: Course) {
    categoryName in LoweredCategories(course)
  }

  function InCategoryNamed(categoryName: string): Course -> bool {
    (course: Course) => InCategory(categoryName, course)
  }

  /** `filteredCourses`: in catalog order, exactly the courses with a
      category whose lower-case form is the route's name. */
  function CategoryFilter(catalog: seq<Course>, categoryName: string): (r: seq<Course>)
    ensures forall c :: c in r <==> c in catalog && exists cat :: cat in c.categories && ToLower(cat) == categoryName
    ensures Subsequence(r, catalog)
  {
    FilterKeepsOrder(catalog, InCategoryNamed(categoryName));
    var r := Filter(catalog, InCategoryNamed(categoryName));
    assert forall c :: InCategory(categoryName, c) <==>
      exists cat :: cat in c.categories && ToLower(cat) == categoryName
    by {
      forall c ensures InCategory(categoryName, c) <==>
        exists cat :: cat in c.categories && ToLower(cat) == categoryName
      {
        if InCategory(categoryName, c) {
          var i :| 0 <= i < |LoweredCategories(c)| && LoweredCategories(c)[i] == categoryName;
          assert c.categories[i] in c.categories;
        }
        if exists cat :: cat in c.categories && ToLower(cat) == categoryName {
          var cat :| cat in c.categories && ToLower(cat) == categoryName;
          var i :| 0 <= i < |c.categories| && c.categories[i] == cat;
          assert LoweredCategories(c)[i] == categoryName;
        }
      }
    }
    r
  }

  /** A name with an upper-case letter in it finds no course at all. */
  lemma UpperCaseNameFindsNothing(catalog: seq<Course>, categoryName: string, k: int)
    requires 0 <= k < |categoryName| && IsUpper(categoryName[k])
    ensures CategoryFilter(catalog, categoryName) == []
  {
    var r := CategoryFilter(catalog, categoryName);
    if r != [] {
      assert r[0] in r;
      var cat :| cat in r[0].categories && ToLower(cat) == categoryName;
      LowerHasNoUpper(cat);
      assert false;
    }
  }

  /** The category links of the site lower-case the name, and such a link
      finds every catalog course carrying that category, whatever its case. */
  lemma LinkFindsItsCourses(catalog: seq<Course>, course: Course, category: string)
    requires course in catalog && category in course.categories
    ensures course in CategoryFilter(catalog, ToLower(category))
  {
  }

  /** `formattedName`: the first character upper-cased, the rest unchanged. */
  function FormattedName(categoryName: string): (r: string)
    ensures |r| == |categoryName|
    ensures categoryName != [] ==> r[0] == UpperChar(categoryName[0]) && r[1..] == categoryName[1..]
  {
    if categoryName == [] then [] else [UpperChar(categoryName[0])] + categoryName[1..]
  }

  /** The heading differs from the route's name only in case: lower-casing
      both gives the same text. */
  lemma FormattedNameKeepsLetters(categoryName: string)
    ensures ToLower(FormattedName(categoryName)) == ToLower(categoryName)
  {
    if categoryName != [] {
      var c := categoryName[0];
      assert LowerChar(UpperChar(c)) == LowerChar(c);
      var l := ToLower(FormattedName(categoryName));
      forall i | 0 <= i < |categoryName| ensures l[i] == ToLower(categoryName)[i] {
      }
    }
  }

  /** What the grid shows: the cards, or the "No courses found" line. */
  datatype Listing = Cards(courses: seq<Course>) | NoCourses

  /** The page: its heading and its grid. */
  datatype CategoryView = CategoryView(heading: string, listing: Listing)

  function CategoryPage(catalog: seq<Course>, categoryName: string): (v: CategoryView)
    ensures v.heading == FormattedName(categoryName)
    ensures v.listing == NoCourses <==> CategoryFilter(catalog, categoryName) == []
    ensures v.listing.Cards? ==> v.listing.courses == CategoryFilter(catalog, categoryName)
  {
    var found := CategoryFilter(catalog, categoryName);
    CategoryView(FormattedName(categoryName), if |found| > 0 then Cards(found) else NoCourses)
  }
}
