/**
 * The work records the frontend receives from `GET /works`. The three lists
 * are optional because a response may omit them; `description` and
 * `thumbnail_image_id` may be null.
 */
module WorkTypes {
  import opened Wrappers

  datatype WorkImage = WorkImage(id: string, imageId: string, displayOrder: int)

  datatype WorkUrl = WorkUrl(id: string, url: string, labelText: string, displayOrder: int)

  datatype WorkTechStack = WorkTechStack(id: string, techStackId: string)

  datatype Work = Work(
    id: string,
    slug: string,
    title: string,
    comment: string,
    createdAt: string,
    accentColor: string,
    description: Option<string>,
    isPublic: bool,
    thumbnailImageId: Option<string>,
    images: Option<seq<WorkImage>>,
    urls: Option<seq<WorkUrl>>,
    techStacks: Option<seq<WorkTechStack>>)

  /** A tech stack as the tech-stack list provides it. */
  datatype TechStack = TechStack(id: string, name: string)
}
