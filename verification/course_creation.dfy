/** The payloads of the course creation service: the `courses` row
    `createCourse` inserts and the publish-status update. */
module CourseCreation {
  import opened Wrappers
  import opened CourseTypes

  datatype CourseInsert = CourseInsert(
    title: string,
    description: Option<string>,
    instructorId: string,
    category: string,
    level: string,
    isPublished: bool,
    status: string)

  datatype PublishUpdate = PublishUpdate(isPublished: bool, status: string)

  function StatusFor(published: bool): string {
    if published then "published" else "draft"
  }

  /** The row's `status` agrees with its `is_published` flag. */
  predicate StatusConsistent(isPublished: bool, status: string) {
    (status == "published" <==> isPublished) && (status == "draft" <==> !isPublished)
  }

  /** `createCourse`: title, description, category and level copied, the
      instructor given, and a status that agrees with the publish flag. The
      featured image is not sent. */
  function CreateCoursePayload(details: CourseDetails, instructorId: string): (r: CourseInsert)
    ensures r.title == details.title && r.description == details.description
    ensures r.category == details.category && r.level == details.level
    ensures r.instructorId == instructorId
    ensures r.isPublished == details.published
    ensures StatusConsistent(r.isPublished, r.status)
  {
    CourseInsert(details.title, details.description, instructorId, details.category, details.level,
                 details.published, StatusFor(details.published))
  }

  /** Two course details that differ only in the featured image give the
      same row: the image is not part of the insert. */
  lemma FeaturedImageNotSent(details: CourseDetails, image: Option<string>, instructorId: string)
    ensures CreateCoursePayload(details.(featuredImage := image), instructorId)
         == CreateCoursePayload(details, instructorId)
  {
  }

  /** `updateCoursePublishStatus`: flag and status agree the same way. */
  function PublishStatusUpdate(isPublished: bool): (r: PublishUpdate)
    ensures r.isPublished == isPublished
    ensures StatusConsistent(r.isPublished, r.status)
  {
    PublishUpdate(isPublished, StatusFor(isPublished))
  }

  /** Both writes give a course the same status for the same flag. */
  lemma CreateAndPublishAgree(details: CourseDetails, instructorId: string)
    ensures CreateCoursePayload(details, instructorId).status == PublishStatusUpdate(details.published).status
  {
  }
}
