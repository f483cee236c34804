/** The shared record types of the portal's data layer. */
module Types {
  import opened Common

  /** A registered user of the portal. */
  datatype User = User(
    id: string,
    name: string,
    email: string,
    enrollmentNumber: Option<string>,
    yearOfStudy: Option<string>,
    department: Option<string>,
    isAdmin: Option<bool>,
    isVerified: Option<bool>)

  /** The kinds of study material held in the catalogue. */
  datatype ResourceType = PDF | Video | Article

  /** One entry of the resource catalogue; `likes` and `downloads` are its counters. */
  datatype Resource = Resource(
    id: string,
    title: string,
    description: string,
    kind: ResourceType,
    url: string,
    uploadedBy: User,
    subject: string,
    uploadDate: string,
    likes: int,
    downloads: int)
}
