/** The vlog routes: projection of request bodies into store payloads, the author links
    (UserId, ArticleId) the create handler writes one by one, and the 404 mapping of update
    and delete. The stores are abstract: a created vlog is known by its ArticleId. */
module VlogRoutes {
  import opened Wrappers
  import Json
  import ServiceErrors

  datatype VideoFile = VideoFile(videoFileUrl: string)

  /** A validated request body for one vlog (UserIds and Tags are optional). */
  datatype VlogInput = VlogInput(
    title: string, excerpt: string, content: string, slug: string,
    tags: Option<seq<string>>, userIds: Option<seq<int>>, videoFile: VideoFile)

  /** The object handed to the vlog store: the request fields without UserIds. */
  datatype VlogPayload = VlogPayload(
    title: string, excerpt: string, content: string, slug: string,
    tags: Option<seq<string>>, videoFile: VideoFile)

  /** One `userArticleDao.create` call. */
  datatype Link = Link(userId: int, articleId: int)

  /** The body of `PUT /vlogs/:id`: every field optional, and no VideoFile field. */
  datatype VlogUpdate = VlogUpdate(
    title: Option<string>, excerpt: Option<string>, content: Option<string>,
    slug: Option<string>, tags: Option<seq<string>>)

  /** The object handed to `vlogDao.update`: it has no VideoFile member. */
  datatype UpdatePayload = UpdatePayload(
    title: Option<string>, excerpt: Option<string>, content: Option<string>,
    slug: Option<string>, tags: Option<seq<string>>)

  // ---------------------------------------------------------------------------
  // Projection
  // ---------------------------------------------------------------------------

  /** The payload carries exactly Title, Excerpt, Content, Slug, Tags and VideoFile of the
      input; by its type, UserIds never reaches the vlog store. */
  function Project(v: VlogInput): (p: VlogPayload)
    ensures p.title == v.title && p.excerpt == v.excerpt && p.content == v.content
    ensures p.slug == v.slug && p.tags == v.tags && p.videoFile == v.videoFile
  {
    VlogPayload(v.title, v.excerpt, v.content, v.slug, v.tags, v.videoFile)
  }

  /** `req.body.map(...)` of a bulk create: one payload per element, in order. */
  function ProjectAll(vs: seq<VlogInput>): (ps: seq<VlogPayload>)
    ensures |ps| == |vs|
    ensures forall i :: 0 <= i < |vs| ==> ps[i] == Project(vs[i])
  {
    seq(|vs|, i requires 0 <= i < |vs| => Project(vs[i]))
  }

  // ---------------------------------------------------------------------------
  // Author links
  // ---------------------------------------------------------------------------

  /** The links written for one vlog: one per entry of `userids || []`, in order. */
  function LinksFor(userIds: Option<seq<int>>, articleId: int): seq<Link>
  {
    var uids := userIds.GetOr([]);
    seq(|uids|, k requires 0 <= k < |uids| => Link(uids[k], articleId))
  }

  /** The links written by a bulk create: vlog i's links, for i in order. */
  function AllLinks(vs: seq<VlogInput>, saved: seq<int>): seq<Link>
    requires |saved| <= |vs|
    decreases |saved|
  {
    if saved == [] then []
    else
      var n := |saved| - 1;
      AllLinks(vs, saved[..n]) + LinksFor(vs[n].userIds, saved[n])
  }

  /** The number of user ids of the first `n` inputs. */
  function UserIdTotal(vs: seq<VlogInput>, n: nat): nat
    requires n <= |vs|
  {
    if n == 0 then 0 else UserIdTotal(vs, n - 1) + |vs[n - 1].userIds.GetOr([])|
  }

  /** The loop `for (const uid of userids || [])` issuing one create per id. */
  method WriteLinks(userIds: Option<seq<int>>, articleId: int) returns (links: seq<Link>)
    ensures |links| == |userIds.GetOr([])|
    ensures forall k :: 0 <= k < |links| ==> links[k] == Link(userIds.GetOr([])[k], articleId)
  {
    var uids := userIds.GetOr([]);
    links := [];
    var k := 0;
    while k < |uids|
      invariant 0 <= k <= |uids|
      invariant |links| == k
      invariant forall j :: 0 <= j < k ==> links[j] == Link(uids[j], articleId)
    {
      links := links + [Link(uids[k], articleId)];
      k := k + 1;
    }
  }

  /** A single create: the vlog is stored, then one link per user id, all with its ArticleId. */
  method CreateSingle(v: VlogInput, createdId: int) returns (payload: VlogPayload, links: seq<Link>)
    ensures payload == Project(v)
    ensures links == LinksFor(v.userIds, createdId)
  {
    payload := Project(v);
    links := WriteLinks(v.userIds, createdId);
  }

  /** A bulk create: after `createBulk`, element i's links use `saved[i]` with the i-th body's
      UserIds, for each saved vlog in order. */
  method CreateBulk(vs: seq<VlogInput>, saved: seq<int>) returns (payloads: seq<VlogPayload>, links: seq<Link>)
    requires |saved| <= |vs|
    ensures payloads == ProjectAll(vs)
    ensures links == AllLinks(vs, saved)
    ensures |links| == UserIdTotal(vs, |saved|)
  {
    payloads := ProjectAll(vs);
    links := [];
    var i := 0;
    while i < |saved|
      invariant 0 <= i <= |saved|
      invariant links == AllLinks(vs, saved[..i])
      invariant |links| == UserIdTotal(vs, i)
    {
      var forVlog := WriteLinks(vs[i].userIds, saved[i]);
      assert forVlog == LinksFor(vs[i].userIds, saved[i]);
      assert saved[..i + 1][..i] == saved[..i];
      links := links + forVlog;
      i := i + 1;
    }
    assert saved[..|saved|] == saved;
  }

  /** A link (u, a) is written exactly when some vlog i was saved as `a` and lists `u`. */
  lemma {:induction false} AllLinksMembership(vs: seq<VlogInput>, saved: seq<int>, u: int, a: int)
    requires |saved| <= |vs|
    ensures Link(u, a) in AllLinks(vs, saved) <==>
      exists i :: 0 <= i < |saved| && saved[i] == a && u in vs[i].userIds.GetOr([])
    decreases |saved|
  {
    if saved != [] {
      var n := |saved| - 1;
      AllLinksMembership(vs, saved[..n], u, a);
      var uids := vs[n].userIds.GetOr([]);
      var last := LinksFor(vs[n].userIds, saved[n]);
      assert Link(u, a) in last <==> (saved[n] == a && u in uids) by {
        if Link(u, a) in last {
          var k :| 0 <= k < |last| && last[k] == Link(u, a);
          assert uids[k] == u;
        }
        if saved[n] == a && u in uids {
          var k :| 0 <= k < |uids| && uids[k] == u;
          assert last[k] == Link(u, a);
        }
      }
      forall i | 0 <= i < n ensures saved[..n][i] == saved[i] { }
    }
  }

  /** Repeated ids are not merged: each occurrence of `u` in UserIds writes its own link. */
  lemma {:induction false} RepeatsKept(uids: seq<int>, articleId: int, u: int)
    ensures multiset(LinksFor(Some(uids), articleId))[Link(u, articleId)] == multiset(uids)[u]
    decreases |uids|
  {
    if uids != [] {
      var n := |uids| - 1;
      RepeatsKept(uids[..n], articleId, u);
      assert LinksFor(Some(uids), articleId) == LinksFor(Some(uids[..n]), articleId) + [Link(uids[n], articleId)];
      assert uids == uids[..n] + [uids[n]];
    }
  }

  /** Without UserIds nothing is linked. */
  lemma NoUserIdsNoLinks(articleId: int)
    ensures LinksFor(None, articleId) == []
  {
  }

  // ---------------------------------------------------------------------------
  // Update and delete
  // ---------------------------------------------------------------------------

  /** `updateVlog`'s payload: the five editable fields, never a VideoFile. */
  function UpdatePayloadOf(u: VlogUpdate): (p: UpdatePayload)
    ensures p.title == u.title && p.excerpt == u.excerpt && p.content == u.content
    ensures p.slug == u.slug && p.tags == u.tags
  {
    UpdatePayload(u.title, u.excerpt, u.content, u.slug, u.tags)
  }

  /** `updateVlog` after the store call: a null result is a 404 NOT_FOUND. */
  function UpdateVlogReply<V>(id: int, updated: Option<V>): (r: ServiceErrors.Reply<V>)
    ensures updated.None? <==> r.Raise?
    ensures r.Raise? ==> ServiceErrors.IsNotFound(r.error) && r.error.statusCode == 404
    ensures r.Raise? ==> r.error.message == "Vlog not found" && r.error.details == ServiceErrors.IdDetails(id)
    ensures r.Respond? ==> r.status == 200 && Some(r.body) == updated
  {
    ServiceErrors.NotFoundReply("Vlog not found", id, updated, 200)
  }

  /** `deleteVlog` after the store call: `false` is a 404 NOT_FOUND, `true` a 204. */
  function DeleteVlogReply(id: int, deleted: bool): (r: ServiceErrors.Reply<()>)
    ensures !deleted <==> r.Raise?
    ensures r.Raise? ==> ServiceErrors.IsNotFound(r.error) && r.error.statusCode == 404
    ensures r.Raise? ==> r.error.message == "Vlog not found" && r.error.details == ServiceErrors.IdDetails(id)
    ensures r.Respond? ==> r.status == 204
  {
    ServiceErrors.NotFoundReply("Vlog not found", id, if deleted then Some(()) else None, 204)
  }
}
