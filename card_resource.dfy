/** The resource card: its prop defaults, the type label and the type icon. */
module CardResource {
  import opened Common

  /** The four values of the card's `type` union. */
  predicate IsCardType(kind: string)
  {
    kind == "pdf" || kind == "video" || kind == "article" || kind == "other"
  }

  /** The three icons the card can show. */
  datatype Icon = FileTextIcon | VideoIcon | BookOpenIcon

  /** `getIcon`: pdf and video have their own icons; every other type shows the book icon. */
  function IconFor(kind: string): (i: Icon)
    ensures i == FileTextIcon <==> kind == "pdf"
    ensures i == VideoIcon <==> kind == "video"
  {
    if kind == "pdf" then FileTextIcon
    else if kind == "video" then VideoIcon
    else BookOpenIcon
  }

  /** `getTypeLabel`: pdf, video and article get their own labels; every other type is a "Resource". */
  function TypeLabel(kind: string): (name: string)
    ensures name == "PDF" || name == "Video" || name == "Article" || name == "Resource"
    ensures name == "Resource" <==> kind != "pdf" && kind != "video" && kind != "article"
    ensures kind == "pdf" ==> name == "PDF"
    ensures kind == "video" ==> name == "Video"
    ensures kind == "article" ==> name == "Article"
  {
    if kind == "pdf" then "PDF"
    else if kind == "video" then "Video"
    else if kind == "article" then "Article"
    else "Resource"
  }

  /** The three named types get three different labels, none of them "Resource". */
  lemma LabelsAreDistinct(a: string, b: string)
    requires IsCardType(a) && IsCardType(b) && a != "other" && b != "other" && a != b
    ensures TypeLabel(a) != TypeLabel(b)
  {
  }

  /** "article" and "other" share the book icon; the icon shows the book exactly when the label is
      "Article" or "Resource". */
  lemma IconFollowsLabel(kind: string)
    ensures IconFor("article") == IconFor("other")
    ensures IconFor(kind) == BookOpenIcon <==> TypeLabel(kind) == "Article" || TypeLabel(kind) == "Resource"
  {
  }

  /** The card's props; optional ones are `None` when the caller leaves them out. */
  datatype ResourceCardProps = ResourceCardProps(
    id: string,
    title: string,
    kind: string,
    subject: Option<string>,
    description: string,
    uploadedBy: Option<string>,
    uploadDate: Option<string>,
    likes: Option<int>,
    downloads: Option<int>,
    thumbnailUrl: Option<string>)

  /** The values the card displays once the defaults are applied. */
  datatype CardView = CardView(
    uploadedBy: string, uploadDate: string, likes: int, downloads: int, typeLabel: string, icon: Icon)

  function OrDefault<T>(o: Option<T>, d: T): T
  {
    match o
    case None => d
    case Some(v) => v
  }

  /** Destructuring with defaults: "Admin", "2 days ago", 0 likes and 0 downloads stand in for
      absent props; given props are shown as they are. */
  function View(p: ResourceCardProps): (v: CardView)
    ensures p.uploadedBy.None? ==> v.uploadedBy == "Admin"
    ensures p.uploadDate.None? ==> v.uploadDate == "2 days ago"
    ensures p.likes.None? ==> v.likes == 0
    ensures p.downloads.None? ==> v.downloads == 0
    ensures p.uploadedBy.Some? ==> v.uploadedBy == p.uploadedBy.value
    ensures p.uploadDate.Some? ==> v.uploadDate == p.uploadDate.value
    ensures p.likes.Some? ==> v.likes == p.likes.value
    ensures p.downloads.Some? ==> v.downloads == p.downloads.value
    ensures v.typeLabel == TypeLabel(p.kind) && v.icon == IconFor(p.kind)
  {
    CardView(OrDefault(p.uploadedBy, "Admin"), OrDefault(p.uploadDate, "2 days ago"),
             OrDefault(p.likes, 0), OrDefault(p.downloads, 0), TypeLabel(p.kind), IconFor(p.kind))
  }
}
