/** The course page (`CourseDetail.jsx`): the single-open module accordion,
    the comment list with its feedback form, the author lookup and the star
    row of each comment. The catalog files and the clock are inputs. */
module CourseDetail {
  import opened Wrappers
  import opened Text
  import opened Seqs

  /** A course comment; `id` is the clock reading when the page adds one. */
  datatype Comment = Comment(id: int, courseId: string, userId: string, text: string, rating: int)

  /** A student or teacher record of the user file. */
  datatype Person = Person(id: string, name: string)

  const Guest: string := "guest"
  const Anonymous: string := "Anonymous"
  const StarCount: int := 5

  // ---------------------------------------------------------------------
  // Comments

  function OfCourse(courseId: string): Comment -> bool {
    (c: Comment) => c.courseId == courseId
  }

  /** The initial comment list: the comments of this course. */
  function CourseComments(all: seq<Comment>, courseId: string): (r: seq<Comment>)
    ensures forall c :: c in r <==> c in all && c.courseId == courseId
    ensures Subsequence(r, all)
  {
    FilterKeepsOrder(all, OfCourse(courseId));
    Filter(all, OfCourse(courseId))
  }

  /** The author of a new comment: the signed-in user's id when it is set and
      non-empty, else "guest". */
  function Author(userId: Option<string>): (author: string)
    ensures userId.Some? && userId.value != "" ==> author == userId.value
    ensures userId.None? || userId.value == "" ==> author == Guest
  {
    if userId.Some? then OrElse(userId.value, Guest) else Guest
  }

  /** `i` is the position of the first record with the id. */
  predicate FirstWith(people: seq<Person>, id: string, i: int) {
    0 <= i < |people| && people[i].id == id && forall j :: 0 <= j < i ==> people[j].id != id
  }

  /** `find`: the name of the first record with the id, if any. */
  function FindName(people: seq<Person>, id: string): (r: Option<string>)
    ensures r.None? <==> forall p :: p in people ==> p.id != id
    ensures r.Some? ==> exists i :: FirstWith(people, id, i) && people[i].name == r.value
  {
    if people == [] then None
    else if people[0].id == id then
      assert FirstWith(people, id, 0);
      Some(people[0].name)
    else
      var r := FindName(people[1..], id);
      assert r.Some? ==> exists i :: FirstWith(people, id, i) && people[i].name == r.value by {
        if r.Some? {
          var i :| FirstWith(people[1..], id, i) && people[1..][i].name == r.value;
          forall j | 0 <= j < i + 1 ensures people[j].id != id {
            if j > 0 {
              assert people[j] == people[1..][j - 1];
            }
          }
          assert FirstWith(people, id, i + 1);
        }
      }
      assert r.None? ==> forall p :: p in people ==> p.id != id by {
        if r.None? {
          forall p | p in people ensures p.id != id {
            if p != people[0] {
              assert p in people[1..];
            }
          }
        }
      }
      r
  }

  /** `getUserName`: a student with the id wins, then a teacher, else
      "Anonymous". */
  function UserName(students: seq<Person>, teachers: seq<Person>, id: string): (name: string)
    ensures FindName(students, id).Some? ==> name == FindName(students, id).value
    ensures FindName(students, id).None? && FindName(teachers, id).Some? ==> name == FindName(teachers, id).value
    ensures FindName(students, id).None? && FindName(teachers, id).None? ==> name == Anonymous
  {
    match FindName(students, id)
    case Some(n) => n
    case None => FindName(teachers, id).GetOr(Anonymous)
  }

  /** A name found for the id belongs to a record with that id: a teacher's
      only when no student has it, and "Anonymous" is what an unknown id
      gets. */
  lemma UserNameSources(students: seq<Person>, teachers: seq<Person>, id: string)
    ensures (exists s :: s in students && s.id == id) ==>
      exists s :: s in students && s.id == id && s.name == UserName(students, teachers, id)
    ensures (forall s :: s in students ==> s.id != id) && (exists t :: t in teachers && t.id == id) ==>
      exists t :: t in teachers && t.id == id && t.name == UserName(students, teachers, id)
    ensures (forall p :: p in students + teachers ==> p.id != id) ==> UserName(students, teachers, id) == Anonymous
  {
    var n := UserName(students, teachers, id);
    if exists s :: s in students && s.id == id {
      var i :| FirstWith(students, id, i) && students[i].name == n;
      assert students[i] in students;
    }
    if (forall s :: s in students ==> s.id != id) && (exists t :: t in teachers && t.id == id) {
      var i :| FirstWith(teachers, id, i) && teachers[i].name == n;
      assert teachers[i] in teachers;
    }
    if forall p :: p in students + teachers ==> p.id != id {
      forall s | s in students ensures s.id != id {
        assert s in students + teachers;
      }
      forall t | t in teachers ensures t.id != id {
        assert t in students + teachers;
      }
    }
  }

  // ---------------------------------------------------------------------
  // Stars

  /** The star row of a comment: `rating` filled stars and `5 - rating`
      empty ones; an array of negative length is a range error, so a rating
      outside 0..5 breaks the render. */
  function StarRow(rating: int): (r: Result<(nat, nat), string>)
    ensures r.Ok? <==> 0 <= rating <= StarCount
    ensures r.Ok? ==> r.value.0 == rating && r.value.0 + r.value.1 == StarCount
  {
    if rating < 0 || StarCount - rating < 0 then Err("RangeError")
    else Ok((rating, StarCount - rating))
  }

  // ---------------------------------------------------------------------
  // The page

  class CourseDetailPage {
    const courseId: string
    /** The id of the open module; at most one is open. */
    var openModule: Option<string>
    var rating: int
    var newComment: string
    var comments: seq<Comment>

    /** Ratings the form can hold: 0 (none picked) to five stars. */
    ghost predicate Valid()
      reads this
    {
      0 <= rating <= StarCount
    }

    constructor (courseId: string, all: seq<Comment>)
      ensures this.courseId == courseId && comments == CourseComments(all, courseId)
      ensures openModule == None && rating == 0 && newComment == ""
      ensures Valid()
    {
      this.courseId := courseId;
      comments := CourseComments(all, courseId);
      openModule, rating, newComment := None, 0, "";
    }

    /** `toggleModule`: the open module closes, any other opens in its
        place; so the clicked module is open afterwards iff it was closed,
        and no other module is. */
    method ToggleModule(moduleId: string)
      modifies this
      ensures openModule == (if old(openModule) == Some(moduleId) then None else Some(moduleId))
      ensures openModule == Some(moduleId) <==> old(openModule) != Some(moduleId)
      ensures forall other :: other != moduleId ==> openModule != Some(other)
      ensures rating == old(rating) && newComment == old(newComment) && comments == old(comments)
    {
      if openModule == Some(moduleId) {
        openModule := None;
      } else {
        openModule := Some(moduleId);
      }
    }

    /** A click on one of the five stars. */
    method Rate(star: int)
      requires 1 <= star <= StarCount
      modifies this
      ensures rating == star && Valid()
      ensures openModule == old(openModule) && newComment == old(newComment) && comments == old(comments)
    {
      rating := star;
    }

    method TypeComment(text: string)
      modifies this
      ensures newComment == text
      ensures openModule == old(openModule) && rating == old(rating) && comments == old(comments)
    {
      newComment := text;
    }

    /** `handleAddComment`: a blank comment changes nothing; otherwise the
        new comment goes in front of the list, with the author and the
        current rating, and the form is reset. */
    method AddComment(now: int, userId: Option<string>) returns (added: bool)
      requires Valid()
      modifies this
      ensures Valid()
      ensures added <==> Trim(old(newComment)) != ""
      ensures added ==>
        && comments == [Comment(now, courseId, Author(userId), old(newComment), old(rating))] + old(comments)
        && newComment == "" && rating == 0
      ensures added ==> StarRow(comments[0].rating).Ok?
      ensures !added ==> comments == old(comments) && newComment == old(newComment) && rating == old(rating)
      ensures openModule == old(openModule)
    {
      if Trim(newComment) == "" {
        return false;
      }
      var entry := Comment(now, courseId, Author(userId), newComment, rating);
      comments := [entry] + comments;
      newComment, rating := "", 0;
      added := true;
    }
  }
}
