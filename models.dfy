/** The documents of the three collections the core writes (the Contact,
    Admin and Blog schemas of server.js), the token claims, and the
    request bodies the handlers read.  Timestamps (`createdAt`,
    `updatedAt`) are not modelled.  A document's `_id` is a natural number
    handed out by its store.
 */
module Models {
  import opened Js

  /** A contact-form submission; `new Contact(req.body)` keeps these fields. */
  datatype ContactForm = ContactForm(
    fullName: Option<string>,
    businessName: Option<string>,
    email: Option<string>,
    phone: Option<string>,
    projectDetails: Option<string>,
    services: Option<seq<string>>)

  /** A stored admin account; `password` holds the bcrypt digest. */
  datatype Admin = Admin(id: nat, username: string, email: string, password: string, role: string)

  /** The `admin` object a successful login returns: no password field. */
  datatype AdminView = AdminView(id: nat, username: string, email: string, role: string)

  const DefaultRole: string := "admin"

  /** A stored blog post. */
  datatype Blog = Blog(
    id: nat,
    title: string,
    slug: string,
    description: string,
    content: string,
    image: Option<string>,
    category: Option<string>,
    status: string)

  /** The values the `status` enum admits, and its default. */
  const BlogStatuses: set<string> := {"draft", "publish"}
  const DefaultStatus: string := "publish"

  /** The fields of a blog request body that the schema knows, including a
      client-supplied `slug`. */
  datatype BlogBody = BlogBody(
    title: Option<string>,
    slug: Option<string>,
    description: Option<string>,
    content: Option<string>,
    image: Option<string>,
    category: Option<string>,
    status: Option<string>)

  /** The claims a login token carries: `{ id, role, username }`. */
  datatype Claims = Claims(id: nat, role: string, username: string)

  /** What `jwt.verify` decodes from a valid token: the claims plus the
      issue and expiry times (seconds) the library adds. */
  datatype Decoded = Decoded(claims: Claims, iat: int, exp: int)
}
