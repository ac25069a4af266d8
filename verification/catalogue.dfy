/** The course catalogue page's search: a course is listed when the query,
    lower-cased, occurs in its lower-cased title, description or category. */
module Catalogue {
  import opened Text
  import opened Sequences

  datatype CatalogueCourse = CatalogueCourse(
    id: string,
    title: string,
    description: string,
    instructor: string,
    level: string,
    category: string)

  predicate Matches(c: CatalogueCourse, query: string) {
    var q := Lower(query);
    Contains(Lower(c.title), q) || Contains(Lower(c.description), q) || Contains(Lower(c.category), q)
  }

  /** `filteredCourses`. */
  function FilterCourses(courses: seq<CatalogueCourse>, query: string): (r: seq<CatalogueCourse>)
    ensures forall i :: 0 <= i < |r| ==> r[i] in courses && Matches(r[i], query)
    ensures forall i :: 0 <= i < |courses| && Matches(courses[i], query) ==> courses[i] in r
  {
    Filter(courses, (c: CatalogueCourse) => Matches(c, query))
  }

  /** The result lists catalogue courses in catalogue order. */
  lemma FilterKeepsOrder(courses: seq<CatalogueCourse>, query: string)
    ensures IsSubsequence(FilterCourses(courses, query), courses)
  {
    FilterIsSubsequence(courses, (c: CatalogueCourse) => Matches(c, query));
  }

  /** An empty search box lists every course. */
  lemma EmptyQueryKeepsAll(courses: seq<CatalogueCourse>)
    ensures FilterCourses(courses, "") == courses
  {
  }

  /** Queries that differ only in letter case list the same courses. */
  lemma CaseInsensitive(courses: seq<CatalogueCourse>, q1: string, q2: string)
    requires Lower(q1) == Lower(q2)
    ensures FilterCourses(courses, q1) == FilterCourses(courses, q2)
  {
    FilterCongruent(courses, (c: CatalogueCourse) => Matches(c, q1), (c: CatalogueCourse) => Matches(c, q2));
  }

  /** Typing more narrows the list: if the longer query contains the
      shorter one, every course it lists is listed for the shorter one. */
  lemma LongerQueryNarrows(courses: seq<CatalogueCourse>, q: string, longer: string)
    requires Contains(longer, q)
    ensures forall i :: 0 <= i < |FilterCourses(courses, longer)| ==>
      FilterCourses(courses, longer)[i] in FilterCourses(courses, q)
  {
    var r := FilterCourses(courses, longer);
    LowerKeepsContains(longer, q);
    forall i | 0 <= i < |r|
      ensures r[i] in FilterCourses(courses, q)
    {
      var c := r[i];
      assert Matches(c, longer);
      if Contains(Lower(c.title), Lower(longer)) {
        ContainsTransitive(Lower(c.title), Lower(longer), Lower(q));
      } else if Contains(Lower(c.description), Lower(longer)) {
        ContainsTransitive(Lower(c.description), Lower(longer), Lower(q));
      } else {
        ContainsTransitive(Lower(c.category), Lower(longer), Lower(q));
      }
      assert Matches(c, q);
      var k :| 0 <= k < |courses| && courses[k] == c;
    }
  }
}
