/** The Blog collection and its create and update routes: POST
    /api/blog/create (server.js:392-422) and PUT /api/blog/:id
    (server.js:474-512).

    `slugify(title, { lower: true })` is foreign and enters as a function
    value.  The store keeps the schema's unique index on `slug` (a save or
    update that would repeat a slug fails, and the handler's catch answers
    500) and its `status` enum, which a save checks and an update, run
    without validators, does not.
 */
module Blogs {
  import opened Js
  import opened Models
  import opened Http

  /** `slugify(title, { lower: true })` */
  type Slugifier = string -> string

  const BlogCreatedReply: Reply := Reply(200, BlogCreated(true, "Blog created"))

  /** The unique index on `slug`. */
  ghost predicate UniqueSlugs(blogs: seq<Blog>) {
    forall a, b | 0 <= a < b < |blogs| :: blogs[a].slug != blogs[b].slug
  }

  /** No two posts share an id. */
  ghost predicate DistinctIds(blogs: seq<Blog>) {
    forall a, b | 0 <= a < b < |blogs| :: blogs[a].id != blogs[b].id
  }

  /** Every id is below the next one to hand out. */
  ghost predicate IdsBelow(blogs: seq<Blog>, nextId: nat) {
    forall k | 0 <= k < |blogs| :: blogs[k].id < nextId
  }

  ghost predicate ValidBlogs(blogs: seq<Blog>, nextId: nat) {
    UniqueSlugs(blogs) && DistinctIds(blogs) && IdsBelow(blogs, nextId)
  }

  /** Some post other than the one at `except` already has `slug`. */
  predicate SlugTaken(blogs: seq<Blog>, slug: string, except: int) {
    exists k | 0 <= k < |blogs| :: k != except && blogs[k].slug == slug
  }

  /** `Blog.findById(id)`: the position of the post with that id. */
  function IndexOfId(blogs: seq<Blog>, id: nat): (r: Option<nat>)
    ensures r.Some? ==> r.value < |blogs| && blogs[r.value].id == id
    ensures r.None? <==> forall k | 0 <= k < |blogs| :: blogs[k].id != id
  {
    if blogs == [] then None
    else if blogs[0].id == id then Some(0)
    else
      var r := IndexOfId(blogs[1..], id);
      if r.None? then None else Some(r.value + 1)
  }

  // ---------------------------------------------------------------------
  // Create

  /** `title && description && content` */
  predicate HasRequiredFields(body: BlogBody) {
    Truthy(body.title) && Truthy(body.description) && Truthy(body.content)
  }

  /** `new Blog({ ...req.body, slug })`: the body's fields, the slug derived
      from the title in place of any slug the body carried, and the default
      status when none is given. */
  function NewBlog(id: nat, body: BlogBody, slugify: Slugifier): Blog
    requires HasRequiredFields(body)
  {
    Blog(id, body.title.value, slugify(body.title.value), body.description.value, body.content.value,
         body.image, body.category, body.status.GetOr(DefaultStatus))
  }

  datatype Outcome = Outcome(reply: Reply, blogs: seq<Blog>, nextId: nat)

  function CreateBlogOutcome(blogs: seq<Blog>, nextId: nat, body: BlogBody, slugify: Slugifier): (r: Outcome)
    ensures r.reply == MissingFields <==> !HasRequiredFields(body)
    ensures r.reply == BlogCreatedReply <==>
      && HasRequiredFields(body)
      && (body.status.None? || body.status.value in BlogStatuses)
      && !SlugTaken(blogs, slugify(body.title.value), -1)
    ensures r.reply == BlogCreatedReply ==>
      && r.blogs == blogs + [NewBlog(nextId, body, slugify)]
      && r.blogs[|blogs|].id == nextId
      && r.blogs[|blogs|].title == body.title.value
      && r.blogs[|blogs|].slug == slugify(body.title.value)
      && r.blogs[|blogs|].description == body.description.value
      && r.blogs[|blogs|].content == body.content.value
      && r.blogs[|blogs|].image == body.image
      && r.blogs[|blogs|].category == body.category
      && r.blogs[|blogs|].status == body.status.GetOr(DefaultStatus)
      && r.blogs[|blogs|].status in BlogStatuses
      && r.nextId == nextId + 1
    ensures r.reply != BlogCreatedReply ==> r.blogs == blogs && r.nextId == nextId
    ensures r.reply in {MissingFields, ServerError, BlogCreatedReply}
    ensures ValidBlogs(blogs, nextId) ==> ValidBlogs(r.blogs, r.nextId)
  {
    if !HasRequiredFields(body) then Outcome(MissingFields, blogs, nextId)
    else
      var blog := NewBlog(nextId, body, slugify);
      // save(): the enum validator, then the unique index
      if blog.status !in BlogStatuses then Outcome(ServerError, blogs, nextId)
      else if SlugTaken(blogs, blog.slug, -1) then Outcome(ServerError, blogs, nextId)
      else Outcome(BlogCreatedReply, blogs + [blog], nextId + 1)
  }

  /** A slug in the body has no effect on create: the outcome is the same
      whatever it is. */
  lemma CreateIgnoresClientSlug(blogs: seq<Blog>, nextId: nat, body: BlogBody, slug: Option<string>, slugify: Slugifier)
    ensures CreateBlogOutcome(blogs, nextId, body, slugify) == CreateBlogOutcome(blogs, nextId, body.(slug := slug), slugify)
  {
  }

  // ---------------------------------------------------------------------
  // Update

  /** `updateData`: the six whitelisted fields of the body, and `slug` when
      the title is truthy. */
  datatype UpdateData = UpdateData(
    title: Option<string>,
    description: Option<string>,
    content: Option<string>,
    image: Option<string>,
    category: Option<string>,
    status: Option<string>,
    slug: Option<string>)

  function UpdateFields(body: BlogBody, slugify: Slugifier): (d: UpdateData)
    ensures d.title == body.title && d.description == body.description && d.content == body.content
    ensures d.image == body.image && d.category == body.category && d.status == body.status
    ensures d.slug.Some? <==> Truthy(body.title)
    ensures d.slug.Some? ==> d.slug.value == slugify(body.title.value)
  {
    var d := UpdateData(body.title, body.description, body.content, body.image, body.category, body.status, None);
    if Truthy(body.title) then d.(slug := Some(slugify(body.title.value))) else d
  }

  /** `findByIdAndUpdate` on one post: every field the update carries
      replaces the stored one; absent fields leave it alone. */
  function ApplyUpdate(b: Blog, d: UpdateData): (r: Blog)
    ensures r.id == b.id
    ensures d.slug.None? ==> r.slug == b.slug
  {
    Blog(b.id,
         d.title.GetOr(b.title),
         d.slug.GetOr(b.slug),
         d.description.GetOr(b.description),
         d.content.GetOr(b.content),
         if d.image.Some? then d.image else b.image,
         if d.category.Some? then d.category else b.category,
         d.status.GetOr(b.status))
  }

  function Updated(blog: Option<Blog>): Reply {
    Reply(200, BlogUpdated(true, "Blog updated", blog))
  }

  function UpdateBlogOutcome(blogs: seq<Blog>, nextId: nat, id: nat, body: BlogBody, slugify: Slugifier): (r: Outcome)
    ensures r.nextId == nextId
    ensures IndexOfId(blogs, id).None? ==> r.reply == Updated(None) && r.blogs == blogs
    ensures r.reply == ServerError || r.blogs == blogs ||
      var k := IndexOfId(blogs, id).value;
      r.blogs == blogs[k := ApplyUpdate(blogs[k], UpdateFields(body, slugify))]
    ensures IndexOfId(blogs, id).Some? ==>
      var k := IndexOfId(blogs, id).value;
      var data := UpdateFields(body, slugify);
      && (r.reply == ServerError <==> data.slug.Some? && SlugTaken(blogs, data.slug.value, k))
      && (r.reply != ServerError ==>
            && r.blogs == blogs[k := ApplyUpdate(blogs[k], data)]
            && r.reply == Updated(Some(r.blogs[k])))
    ensures r.reply == ServerError ==> r.blogs == blogs
    ensures r.reply == ServerError || r.reply.status == 200
    ensures ValidBlogs(blogs, nextId) ==> ValidBlogs(r.blogs, r.nextId)
  {
    var data := UpdateFields(body, slugify);
    var k := IndexOfId(blogs, id);
    if k.None? then Outcome(Updated(None), blogs, nextId)
    else
      var b := ApplyUpdate(blogs[k.value], data);
      // the unique index on `slug`
      if data.slug.Some? && SlugTaken(blogs, data.slug.value, k.value) then Outcome(ServerError, blogs, nextId)
      else Outcome(Updated(Some(b)), blogs[k.value := b], nextId)
  }

  /** After a successful update the post keeps its id; each field the body
      carries replaces the stored one and each absent field is kept; its slug
      is the slugified new title when the title is truthy and the old slug
      otherwise; a slug in the body plays no part; no other post changes. */
  lemma UpdateSlugFollowsTitle(blogs: seq<Blog>, nextId: nat, id: nat, body: BlogBody, slug: Option<string>,
                               slugify: Slugifier)
    requires IndexOfId(blogs, id).Some?
    requires UpdateBlogOutcome(blogs, nextId, id, body, slugify).reply != ServerError
    ensures
      var k := IndexOfId(blogs, id).value;
      var after := UpdateBlogOutcome(blogs, nextId, id, body, slugify).blogs;
      && |after| == |blogs|
      && after[k].id == id
      && after[k].slug == (if Truthy(body.title) then slugify(body.title.value) else blogs[k].slug)
      && after[k].title == body.title.GetOr(blogs[k].title)
      && after[k].description == body.description.GetOr(blogs[k].description)
      && after[k].content == body.content.GetOr(blogs[k].content)
      && after[k].image == (if body.image.Some? then body.image else blogs[k].image)
      && after[k].category == (if body.category.Some? then body.category else blogs[k].category)
      && after[k].status == body.status.GetOr(blogs[k].status)
      && (forall j | 0 <= j < |blogs| && j != k :: after[j] == blogs[j])
      && UpdateBlogOutcome(blogs, nextId, id, body.(slug := slug), slugify)
         == UpdateBlogOutcome(blogs, nextId, id, body, slugify)
  {
  }

  // ---------------------------------------------------------------------
  // The collection and the handlers

  class BlogStore {
    var blogs: seq<Blog>
    var nextId: nat

    ghost predicate Valid()
      reads this
    {
      ValidBlogs(blogs, nextId)
    }

    constructor ()
      ensures Valid() && blogs == []
    {
      blogs := [];
      nextId := 0;
    }

    /** `blog.save()` of a new post, which takes the next id. */
    method Insert(b: Blog)
      requires b.id == nextId
      modifies this
      ensures blogs == old(blogs) + [b] && nextId == old(nextId) + 1
    {
      blogs := blogs + [b];
      nextId := nextId + 1;
    }

    /** The write of `findByIdAndUpdate`. */
    method Replace(k: nat, b: Blog)
      requires k < |blogs|
      modifies this
      ensures blogs == old(blogs)[k := b] && nextId == old(nextId)
    {
      blogs := blogs[k := b];
    }
  }

  /** The create handler. */
  method CreateBlog(store: BlogStore, body: BlogBody, slugify: Slugifier) returns (reply: Reply)
    requires store.Valid()
    modifies store
    ensures store.Valid()
    ensures var r := CreateBlogOutcome(old(store.blogs), old(store.nextId), body, slugify);
            reply == r.reply && store.blogs == r.blogs && store.nextId == r.nextId
  {
    if !Truthy(body.title) || !Truthy(body.description) || !Truthy(body.content) {
      return MissingFields;
    }
    var blog := NewBlog(store.nextId, body, slugify);
    if blog.status !in BlogStatuses || SlugTaken(store.blogs, blog.slug, -1) {
      return ServerError;
    }
    store.Insert(blog);
    reply := BlogCreatedReply;
  }

  /** The update handler: it builds `updateData`, adds the slug when the
      title is truthy, and writes the post if there is one. */
  method UpdateBlog(store: BlogStore, id: nat, body: BlogBody, slugify: Slugifier) returns (reply: Reply)
    requires store.Valid()
    modifies store
    ensures store.Valid()
    ensures var r := UpdateBlogOutcome(old(store.blogs), old(store.nextId), id, body, slugify);
            reply == r.reply && store.blogs == r.blogs && store.nextId == r.nextId
  {
    var updateData := UpdateData(body.title, body.description, body.content, body.image, body.category, body.status, None);
    if Truthy(body.title) {
      updateData := updateData.(slug := Some(slugify(body.title.value)));
    }
    var k := IndexOfId(store.blogs, id);
    if k.None? {
      return Updated(None);
    }
    if updateData.slug.Some? && SlugTaken(store.blogs, updateData.slug.value, k.value) {
      return ServerError;
    }
    var b := ApplyUpdate(store.blogs[k.value], updateData);
    store.Replace(k.value, b);
    reply := Updated(Some(b));
  }
}
