# rankupbackend request core, in Dafny

This project models the sequential core of the marketing-site backend in
`server.js`: the contact-form validators and their ordered checks, the
bearer-token gate `authenticateToken`, the admin create and login routes over
the Admin collection, and the blog create and update routes with their slug
handling. Each route is one synchronous step. It takes the request body and
the collection it touches, and it yields the status and JSON body it sends
together with the new collection.

Modules, one file each:

- `Js` (js.dfy): a request-body field is either absent (`undefined`) or a
  string. This module defines JavaScript truthiness for such a field, and
  the `a || b` default.
- `Models` (models.dfy): the Contact, Admin and Blog documents, the login
  claims and the decoded token.
- `Http` (http.dfy): replies as a status code and a body.
- `Validators` (validators.dfy): `emailRegex` and `phoneRegex`. Each is a
  predicate that follows the pattern piece by piece. A lemma proves each one
  equal to a direct description of the strings it accepts.
- `Contact` (contact.dfy): POST /api/contact, over a `ContactStore` object.
- `Auth` (auth.dfy): JavaScript `split(' ')`, token extraction, the gate
  decision, and the `authenticateToken` method, which writes `req.user`.
- `Admins` (admin.dfy): the `AdminStore` object (unique usernames and
  emails), and the create and login routes.
- `Sessions` (sessions.dfy): what the gate does with a token that login
  issued.
- `Blogs` (blog.dfy): the `BlogStore` object (unique slugs), and the create
  and update routes.

The foreign libraries are function-valued parameters: `bcrypt.hash`,
`bcrypt.compare`, `jwt.sign`, `jwt.verify` and `slugify`. What a proof needs
from them is a named predicate, and a lemma lists it as a precondition:

- `HashesMatch`: a password matches its own digest.
- `OnlySigningSecretVerifies`: a token verifies under no secret but its own.
- `FreshTokensVerify`: a token verifies under its own secret until it
  expires.
- `TokensAreSpaceFree`: a token is a non-empty string without spaces.

The clock read by `jwt.sign` and `jwt.verify` is a parameter. So is the
salt that bcrypt draws. Each store hands out document ids from a counter.

Login signs with `JWT_SECRET || 'secret'` but the gate verifies with
`JWT_SECRET || 'your-secret-key'`. `Sessions.DefaultSecretsRejectLoginTokens`
proves the consequence: when the variable is unset or empty, every token
login issues is refused by the gate with 403.

Three behaviours of the code worth stating plainly, since a reader might
expect otherwise:

- A wrong username or a wrong password gets 401 'Invalid login', never 403.
- A login with no password gets 500 when the username exists and 401 when
  it does not, so such a request reveals whether an account exists.
- On update, the slug is recomputed whenever the new title is truthy, even
  when the title did not change.
- Slug collisions are not handled. A create or update whose slug is already
  taken fails at the unique index, and the handler answers a generic 500.

## Model

| member | source | states |
|---|---|---|
| `Validators.EmailRegexIff` | server.js:141 | `emailRegex` accepts a string exactly when it has no whitespace, exactly one '@', a non-empty part before the '@', and a part after it with a '.' that is neither its first nor its last character |
| `Validators.PhoneRegexIff` | server.js:142 | `phoneRegex` accepts a string exactly when its last ten characters are ASCII digits and what precedes them is empty or, after an optional leading '+' and an optional trailing '-' or whitespace, one to three digits |
| `Validators.TenDigitsAccepted` | server.js:142 | every string of exactly ten ASCII digits is an accepted phone number |
| `Validators.PhoneLength` | server.js:142 | every accepted phone number has 10 to 15 characters |
| `Contact.ContactReply` | server.js:178-196 | a missing fullName, email or phone gives 400 'Missing fields'; otherwise a malformed email gives 400 'Invalid email'; otherwise a malformed phone gives 400 'Invalid phone'; 201 'Contact saved' exactly when all three checks pass |
| `Contact.MissingFieldsBeforePatterns` | server.js:180-182 | a submission missing a required field gets 'Missing fields' whatever its email and phone strings are, so neither pattern is consulted |
| `Contact.EmailBeforePhone` | server.js:184-190 | a malformed email is reported whatever the phone is |
| `Contact.SavedPhoneLength` | server.js:188-196 | a saved submission's phone has 10 to 15 characters, and a submission with valid fields and a ten-digit phone is saved |
| `Contact.ContactStore.Save` | server.js:192-194 | saving appends the submission to the collection |
| `Contact.SubmitContact` | server.js:174-196 | the handler replies as ContactReply and appends the submission to the store exactly when it replies 201 |
| `Auth.SplitJoin` | server.js:119 | joining the fields of `split(' ')` restores the header, and no field contains a space |
| `Auth.ExtractToken` | server.js:119-121 | an extracted token is non-empty, contains no space, and comes from a header that contains a space |
| `Auth.TokenAfterFirstSpace` | server.js:119 | the token is the text after the first space, up to the next space or the end; the scheme word before it is never checked |
| `Auth.NoSpaceNoToken` | server.js:119-121 | a header without a space yields no token |
| `Auth.EmptySecondFieldNoToken` | server.js:119-121 | a space after the scheme followed by nothing or by another space (`"Bearer "`, `"Bearer  x"`) makes the second field empty, so no token and a 401 |
| `Auth.Gate` | server.js:115-135 | 401 'Token required' exactly when no token is extracted; 403 'Invalid token' exactly when verify fails with the gate secret; otherwise the request passes on with the decoded payload |
| `Auth.TokenRequiredWithoutVerify` | server.js:121-124 | without a token the outcome is 401 whatever the verifier is, so verify is never called |
| `Auth.AuthenticateToken` | server.js:115-135 | the middleware acts as Gate, sets `req.user` to the decoded payload when it calls next, and leaves `req.user` alone otherwise |
| `Admins.FindByUsername` | server.js:343 | the lookup returns an account with that username, or none exactly when no account has it |
| `Admins.FindByUsernameOrEmail` | server.js:258-260 | the lookup returns an account with that username or that email, or none exactly when no account has either |
| `Admins.CreateAdminOutcome` | server.js:252-276 | 400 'Missing fields' exactly when a field is missing; 400 'Admin exists' exactly when some account holds the username or the email, and then the collection is unchanged; 201 'Admin created' exactly when all fields are present and no account holds either, and then exactly one account is appended, holding the bcrypt digest and role 'admin'; unique usernames, emails and ids are preserved |
| `Admins.AdminStore.Insert` | server.js:268-274 | the new account takes the next id and the default role 'admin' |
| `Admins.CreateAdmin` | server.js:248-276 | the handler replies and updates the store as CreateAdminOutcome and keeps the store's uniqueness invariant |
| `Admins.LoginReply` | server.js:341-376 | 200 exactly when the username is found and bcrypt.compare accepts the password; then the token signs exactly {id, role, username} with the login secret and a 24h expiry, and the `admin` projection is {id, username, email, role}; 500 exactly when the username is found and the password is missing; every other outcome is 401 'Invalid login' |
| `Admins.Login` | server.js:337-376 | the handler replies as LoginReply and changes nothing |
| `Admins.LoginFailuresIndistinguishable` | server.js:345-353 | an unknown username and a wrong password get the identical 401 'Invalid login' reply |
| `Admins.MissingPasswordRevealsUsername` | server.js:343-383 | with no password, a known username gets 500 'Server error' and an unknown one 401 'Invalid login' |
| `Admins.CreatedAdminCanLogIn` | server.js:266-376 | if bcrypt.compare accepts a password against its own digest, an admin just created logs in with its password and receives its own claims and projection |
| `Sessions.ConfiguredSecretAcceptsLoginTokens` | server.js:355-363 | with JWT_SECRET set, a login token presented before it expires passes the gate, which hands on exactly the admin's {id, role, username} |
| `Sessions.DefaultSecretsRejectLoginTokens` | server.js:124-129 | with JWT_SECRET unset, login signs with 'secret' but the gate verifies with 'your-secret-key', so every login token is refused with 403 |
| `Blogs.IndexOfId` | server.js:494-498 | the lookup returns the position of the post with that id, or none exactly when no post has it |
| `Blogs.CreateBlogOutcome` | server.js:396-414 | 400 exactly when the title, description or content is missing; success exactly when the status is absent or in the enum and the slug is new; the stored post takes the next id and the body's title, description, content, image and category, its slug is slugify(title), and its status is the body's or 'publish' and is in the enum; unique slugs and ids are preserved |
| `Blogs.CreateIgnoresClientSlug` | server.js:402-407 | a slug in the request body has no effect on create |
| `Blogs.BlogStore.Insert` | server.js:404-409 | saving appends the post and advances the id counter |
| `Blogs.CreateBlog` | server.js:392-414 | the handler replies and updates the store as CreateBlogOutcome and keeps the store's invariant |
| `Blogs.UpdateFields` | server.js:478-492 | `updateData` holds exactly the body's title, description, content, image, category and status, and carries a slug exactly when the request's title is truthy, that slug being slugify of the request's title |
| `Blogs.ApplyUpdate` | server.js:494-498 | an update never changes the post's id, and changes its slug only when it carries one |
| `Blogs.UpdateBlogOutcome` | server.js:478-504 | an unknown id replies 200 with a null blog and changes nothing; for a known id, 500 exactly when the update carries a slug another post already has, and otherwise the post is replaced by its updated version and the reply carries that version; the status is 200 or 500; unique slugs and ids are preserved |
| `Blogs.UpdateSlugFollowsTitle` | server.js:478-498 | after an update the post keeps its id; each field the body carries replaces the stored one and each absent one is kept; its slug is slugify(new title) when the title is truthy and the old slug otherwise; a client slug plays no part; no other post changes |
| `Blogs.BlogStore.Replace` | server.js:494-498 | the write replaces one post and nothing else |
| `Blogs.UpdateBlog` | server.js:474-504 | the handler builds updateData, adds the slug when the title is truthy, and replies and updates the store as UpdateBlogOutcome |

## Left out

- Express routing, `app.listen`, the JSON body parser and all `console.log` output. Each handler is one synchronous step; async/await ordering is not modelled.
- The other handlers are not modelled: GET /api/contacts, GET /api/advices, GET /api/blog, GET /api/blog/:slug, GET /api/blog/id/:id (with its 404 'Blog not found'), DELETE /api/blog/:id, POST /api/advice, the stats counts behind `authenticateToken`, and /health. Their logic is a single query, or the gate already modelled. Also the commented-out routes and the two admin maintenance scripts.
- Non-string JSON values in request bodies (numbers, booleans, null, arrays, objects). JavaScript would coerce them for truthiness and for the regex tests, and Mongoose would cast them at save. A field is modelled as absent or a string.
- Object-valued `username` or `email` in the admin routes. A body such as `{"username": {"$ne": null}}` reaches `Admin.findOne` as a query operator. Create then answers 'Admin exists' whenever any admin exists, and login finds the first admin. The model's lookups compare strings only.
- A client-supplied `_id` in the blog create body, which `...req.body` passes into the new post. The model's posts always take the store's next counter id.
- Library internals: bcrypt's cost and salting, JWT encoding and signing, the clock-based expiry check, and slugify's character tables. These are function parameters, and their properties are the named assumptions above.
- Storage failures other than the schema's unique indexes and the blog `status` enum, and MongoDB id casting (a malformed `:id` would give 500). ObjectIds are a counter.
- Timestamps: `createdAt` and `updatedAt`.
- Login with no `username` is modelled as finding no account. This assumes the driver sends `undefined` as null, which matches no stored admin.
- `Blogs.ApplyUpdate`: a field absent from the body leaves the stored field unchanged. Current Mongoose drops undefined keys from an update; older versions sent them as null, which would clear the field.
- `Admins.CreateAdminOutcome`: states that the stored password is bcrypt's digest of the plaintext. That the digest never equals the plaintext is bcrypt's own property and is not assumed.
- `Contact.ContactStore.Save`: appends the body as given. Mongoose's dropping of fields outside the schema and its casting are not modelled.
