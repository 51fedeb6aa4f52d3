/** The course read handlers: the listing (filter on the title, ascending
    order on the chosen column) and the lookup by id. The courses table is
    only read here. */
module Courses {
  import opened Wrappers
  import opened Text
  import opened Ordering
  import opened Schema
  import opened Http
  import opened Validation

  /** The value of the `orderBy` column of a listed course. */
  function Key(c: CourseSummary, col: Column): string
  {
    if col == ById then c.id else c.title
  }

  /** Ascending on `col` (`asc(courses[orderBy])`); equal keys may come in
      either order. */
  predicate SortedOn(s: seq<CourseSummary>, col: Column)
  {
    forall i, j | 0 <= i < j < |s| :: NotAbove(Key(s[i], col), Key(s[j], col))
  }

  /** No course is listed twice. */
  predicate DistinctIds(s: seq<CourseSummary>)
  {
    forall i, j | 0 <= i < j < |s| :: s[i].id != s[j].id
  }

  /** Putting in front an element no later than everything keeps the order. */
  lemma SortedCons(x: CourseSummary, s: seq<CourseSummary>, col: Column)
    requires SortedOn(s, col)
    requires forall y | y in s :: NotAbove(Key(x, col), Key(y, col))
    ensures SortedOn([x] + s, col)
  {
    forall i, j | 0 <= i < j < |[x] + s|
      ensures NotAbove(Key(([x] + s)[i], col), Key(([x] + s)[j], col))
    {
      if i == 0 {
        assert ([x] + s)[j] == s[j - 1];
      } else {
        assert ([x] + s)[i] == s[i - 1] && ([x] + s)[j] == s[j - 1];
      }
    }
  }

  lemma DistinctCons(x: CourseSummary, s: seq<CourseSummary>)
    requires DistinctIds(s)
    requires forall y | y in s :: y.id != x.id
    ensures DistinctIds([x] + s)
  {
    forall i, j | 0 <= i < j < |[x] + s|
      ensures ([x] + s)[i].id != ([x] + s)[j].id
    {
      assert ([x] + s)[j] == s[j - 1];
      if i > 0 {
        assert ([x] + s)[i] == s[i - 1];
      }
    }
  }

  /** An element no later than the head of a sorted listing is no later
      than any of its elements. */
  lemma NoLaterThanHead(c: CourseSummary, s: seq<CourseSummary>, col: Column)
    requires s != [] && SortedOn(s, col) && NotAbove(Key(c, col), Key(s[0], col))
    ensures forall y | y in s :: NotAbove(Key(c, col), Key(y, col))
  {
    forall y | y in s
      ensures NotAbove(Key(c, col), Key(y, col))
    {
      var k :| 0 <= k < |s| && s[k] == y;
      NotAboveTransitive(Key(c, col), Key(s[0], col), Key(y, col));
    }
  }

  /** Inserts `c` into a sorted listing. */
  function Insert(c: CourseSummary, s: seq<CourseSummary>, col: Column): (r: seq<CourseSummary>)
    requires SortedOn(s, col)
    ensures SortedOn(r, col)
    ensures multiset(r) == multiset(s) + multiset{c}
    ensures forall y | y in r :: y in s || y == c
    ensures c in r && forall y | y in s :: y in r
  {
    if s == [] then [c]
    else if NotAbove(Key(c, col), Key(s[0], col)) then
      NoLaterThanHead(c, s, col);
      SortedCons(c, s, col);
      [c] + s
    else
      var rest := Insert(c, s[1..], col);
      assert s == [s[0]] + s[1..];
      NotAboveTotal(Key(c, col), Key(s[0], col));
      assert forall y | y in rest :: NotAbove(Key(s[0], col), Key(y, col));
      SortedCons(s[0], rest, col);
      [s[0]] + rest
  }

  /** Inserting a course whose id is not yet listed keeps the ids distinct. */
  lemma {:induction false} InsertKeepsDistinct(c: CourseSummary, s: seq<CourseSummary>, col: Column)
    requires SortedOn(s, col) && DistinctIds(s)
    requires forall y | y in s :: y.id != c.id
    ensures DistinctIds(Insert(c, s, col))
  {
    if s == [] {
    } else if NotAbove(Key(c, col), Key(s[0], col)) {
      DistinctCons(c, s);
    } else {
      DistinctTail(s);
      InsertKeepsDistinct(c, s[1..], col);
      DistinctCons(s[0], Insert(c, s[1..], col));
    }
  }

  /** Insertion sort on `col`: the same courses, in ascending order. */
  function Sort(s: seq<CourseSummary>, col: Column): (r: seq<CourseSummary>)
    ensures SortedOn(r, col)
    ensures multiset(r) == multiset(s)
    ensures forall y | y in r :: y in s
    ensures forall y | y in s :: y in r
    ensures DistinctIds(s) ==> DistinctIds(r)
  {
    if s == [] then []
    else
      assert s == [s[0]] + s[1..];
      var rest := Sort(s[1..], col);
      if DistinctIds(s) then
        DistinctTail(s);
        InsertKeepsDistinct(s[0], rest, col);
        Insert(s[0], rest, col)
      else
        Insert(s[0], rest, col)
  }

  /** The tail of a listing without duplicates has none, and none with the
      head's id. */
  lemma DistinctTail(s: seq<CourseSummary>)
    requires s != [] && DistinctIds(s)
    ensures DistinctIds(s[1..])
    ensures forall y | y in s[1..] :: y.id != s[0].id
  {
    forall y | y in s[1..]
      ensures y.id != s[0].id
    {
      var k :| 0 <= k < |s[1..]| && s[1..][k] == y;
      assert s[k + 1] == y;
    }
  }

  /** The id and title of the courses listed in `ids` whose title matches
      the search, in the order of `ids`. */
  function Summaries(table: CourseTable, ids: seq<CourseId>, search: Option<string>): (r: seq<CourseSummary>)
    requires forall i | 0 <= i < |ids| :: ids[i] in table
    requires forall i, j | 0 <= i < j < |ids| :: Below(ids[i], ids[j])
    ensures forall c | c in r :: c.id in ids && c.title == table[c.id].title && Matches(c.title, search)
    ensures forall i | 0 <= i < |ids| && Matches(table[ids[i]].title, search) ::
      CourseSummary(ids[i], table[ids[i]].title) in r
    ensures forall i, j | 0 <= i < j < |r| :: Below(r[i].id, r[j].id)
  {
    if ids == [] then []
    else
      var rest := Summaries(table, ids[1..], search);
      assert forall c | c in rest :: c.id in ids[1..];
      if Matches(table[ids[0]].title, search) then [CourseSummary(ids[0], table[ids[0]].title)] + rest
      else rest
  }

  lemma AscendingIdsAreDistinct(s: seq<CourseSummary>)
    requires forall i, j | 0 <= i < j < |s| :: Below(s[i].id, s[j].id)
    ensures DistinctIds(s)
  {
    forall i, j | 0 <= i < j < |s|
      ensures s[i].id != s[j].id
    {
      BelowIrreflexive(s[i].id);
    }
  }

  /** GET /courses (get-courses.ts:32-42): the courses whose title matches
      the search, each once, ascending on the chosen column. `page` is not
      read. */
  function GetCourses(table: CourseTable, query: CoursesQuery): (r: seq<CourseSummary>)
    ensures SortedOn(r, query.orderBy)
    ensures DistinctIds(r)
    ensures forall c | c in r :: c.id in table && c.title == table[c.id].title && Matches(c.title, query.search)
    ensures forall id | id in table && Matches(table[id].title, query.search) ::
      CourseSummary(id, table[id].title) in r
  {
    var ids := SortedKeys(table.Keys);
    assert forall id | id in table :: id in ids;
    var found := Summaries(table, ids, query.search);
    AscendingIdsAreDistinct(found);
    Sort(found, query.orderBy)
  }

  /** With no search, or an empty one, every course is listed. */
  lemma GetCoursesWithoutSearchListsAll(table: CourseTable, query: CoursesQuery)
    requires !Truthy(query.search)
    ensures forall id | id in table :: CourseSummary(id, table[id].title) in GetCourses(table, query)
  {
  }

  /** A search no title matches gives the empty listing, not an error. */
  lemma NoMatchIsEmptyListing(table: CourseTable, query: CoursesQuery)
    requires forall id | id in table :: !Matches(table[id].title, query.search)
    ensures GetCourses(table, query) == []
  {
  }

  /** The page number has no effect on the listing. */
  lemma PageIsIgnored(table: CourseTable, search: Option<string>, orderBy: Column, p1: int, p2: int)
    ensures GetCourses(table, CoursesQuery(search, orderBy, p1)) == GetCourses(table, CoursesQuery(search, orderBy, p2))
  {
  }

  /** GET /courses/:id (get-course-by-id.ts:30-43): the stored course, or
      404 with a bare string body. */
  function GetCourseById(table: CourseTable, id: CourseId): (r: Reply)
    ensures r.status == 200 <==> id in table
    ensures id in table ==> r.body == CourseBody(Course(id, table[id].title, table[id].description))
    ensures id !in table ==> r == CourseNotFound && r.body.PlainText?
  {
    if id in table then Reply(200, CourseBody(Course(id, table[id].title, table[id].description)))
    else CourseNotFound
  }

  /** A course whose description is null is returned with a null
      description. */
  lemma NullDescriptionIsReturned(table: CourseTable, id: CourseId)
    requires id in table && table[id].description.None?
    ensures GetCourseById(table, id).body.course.description.None?
  {
  }
}
