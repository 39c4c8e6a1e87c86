/** A content-library record as the matcher and the admin forms see it. */
module Content {
  import opened Wrappers

  datatype ContentType = Text | Image | Audio | Video | Pdf

  datatype DifficultyLevel = Beginner | Intermediate | Advanced

  /** `tags` holds the parsed tag list (an absent list reads as empty);
      `description` is absent or a possibly empty string. */
  datatype ContentItem = ContentItem(
    id: string,
    title: string,
    contentType: ContentType,
    content: string,
    description: Option<string>,
    tags: seq<string>,
    category: string,
    difficulty: Option<DifficultyLevel>,
    source: Option<string>,
    active: bool)

  predicate IsActive(item: ContentItem) {
    item.active
  }
}
