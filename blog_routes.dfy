/** The blog routes: the read-time estimate (words at 200 per minute) and the payloads the
    create and update handlers hand to the blog store. */
module BlogRoutes {
  import opened Wrappers
  import opened Text
  import Json
  import ServiceErrors

  const WORDS_PER_MINUTE: nat := 200

  // ---------------------------------------------------------------------------
  // content.split(/\s+/).filter(word => word.length > 0).length
  // ---------------------------------------------------------------------------

  /** The longest prefix of `s` without a space. */
  function TakeWord(s: string): (w: string)
    ensures |w| <= |s| && w == s[..|w|] && NoSpace(w)
    ensures |w| < |s| ==> IsSpace(s[|w|])
    decreases |s|
  {
    if s == [] || IsSpace(s[0]) then []
    else
      var w := TakeWord(s[1..]);
      assert s[1..][..|w|] == s[1..|w| + 1];
      [s[0]] + w
  }

  /** `s` without its leading spaces. */
  function SkipSpaces(s: string): (r: string)
    ensures |r| <= |s| && r == s[|s| - |r|..] && AllSpace(s[..|s| - |r|])
    ensures r == [] || !IsSpace(r[0])
    decreases |s|
  {
    if s != [] && IsSpace(s[0]) then
      var r := SkipSpaces(s[1..]);
      assert s[1..][..|s| - 1 - |r|] == s[1..|s| - |r|];
      r
    else s
  }

  /** `s.split(/\s+/)`: the pieces left between maximal runs of spaces. A leading (trailing)
      run leaves an empty first (last) piece; the empty string splits into one empty piece. */
  function SplitOnSpaces(s: string): (pieces: seq<string>)
    ensures |pieces| >= 1
    decreases |s|
  {
    var w := TakeWord(s);
    var rest := s[|w|..];
    if rest == [] then [w] else [w] + SplitOnSpaces(SkipSpaces(rest))
  }

  /** `.split(/\s+/).filter(word => word.length > 0)` */
  function Words(s: string): seq<string> {
    DropEmpty(SplitOnSpaces(s))
  }

  function WordCount(s: string): nat {
    |Words(s)|
  }

  /** Reference definition: the number of maximal runs of non-space characters, counted by a
      left-to-right scan that skips a space, or skips a whole run and counts it. */
  function Runs(s: string): nat
    decreases |s|
  {
    if s == [] then 0
    else if IsSpace(s[0]) then Runs(s[1..])
    else 1 + Runs(s[|TakeWord(s)|..])
  }

  /** Every word is non-empty and contains no space. */
  lemma {:induction false} WordsAreRuns(s: string)
    ensures forall k :: 0 <= k < |Words(s)| ==> Words(s)[k] != [] && NoSpace(Words(s)[k])
    decreases |s|
  {
    var w := TakeWord(s);
    var rest := s[|w|..];
    if rest != [] {
      var next := SkipSpaces(rest);
      WordsAreRuns(next);
      DropEmptyAppend([w], SplitOnSpaces(next));
      assert Words(s) == DropEmpty([w]) + Words(next);
    } else {
      assert Words(s) == DropEmpty([w]);
    }
  }

  lemma {:induction false} RunsSkipSpaces(s: string)
    ensures Runs(SkipSpaces(s)) == Runs(s)
    decreases |s|
  {
    if s != [] && IsSpace(s[0]) {
      RunsSkipSpaces(s[1..]);
    }
  }

  /** The split-and-filter count equals the number of maximal non-space runs. */
  lemma {:induction false} WordCountIsRuns(s: string)
    ensures WordCount(s) == Runs(s)
    decreases |s|
  {
    var w := TakeWord(s);
    var rest := s[|w|..];
    if rest == [] {
      if w != [] {
        assert s[|w|..] == [];
      }
    } else {
      var next := SkipSpaces(rest);
      WordCountIsRuns(next);
      RunsSkipSpaces(rest);
      DropEmptyAppend([w], SplitOnSpaces(next));
      if w == [] {
        assert rest == s;
        assert IsSpace(s[0]);
        RunsSkipSpaces(s[1..]);
        assert SkipSpaces(s) == SkipSpaces(s[1..]);
      }
    }
  }

  lemma {:induction false} RunsZeroIffAllSpace(s: string)
    ensures Runs(s) == 0 <==> AllSpace(s)
    decreases |s|
  {
    if s != [] {
      if IsSpace(s[0]) {
        RunsZeroIffAllSpace(s[1..]);
        assert AllSpace(s) <==> AllSpace(s[1..]);
      }
    }
  }

  /** Content made only of spaces (which the schema's `min(1)` admits) has no words. */
  lemma WhitespaceOnlyHasNoWords(s: string)
    ensures WordCount(s) == 0 <==> AllSpace(s)
  {
    WordCountIsRuns(s);
    RunsZeroIffAllSpace(s);
  }

  lemma {:induction false} RunsLeadingSpaces(sp: string, s: string)
    requires AllSpace(sp)
    ensures Runs(sp + s) == Runs(s)
    decreases |sp|
  {
    if sp == [] {
      assert sp + s == s;
    } else {
      var t := sp + s;
      assert t[0] == sp[0] && IsSpace(t[0]);
      assert t[1..] == sp[1..] + s;
      assert Runs(t) == Runs(t[1..]);
      RunsLeadingSpaces(sp[1..], s);
    }
  }

  lemma {:induction false} TakeWordAppend(s: string, sp: string)
    requires AllSpace(sp)
    ensures TakeWord(s + sp) == TakeWord(s)
    decreases |s|
  {
    if s == [] {
      assert s + sp == sp;
    } else if !IsSpace(s[0]) {
      assert (s + sp)[1..] == s[1..] + sp;
      TakeWordAppend(s[1..], sp);
    }
  }

  lemma {:induction false} RunsTrailingSpaces(s: string, sp: string)
    requires AllSpace(sp)
    ensures Runs(s + sp) == Runs(s)
    decreases |s|
  {
    if s == [] {
      assert s + sp == sp;
      assert sp + [] == sp;
      RunsLeadingSpaces(sp, []);
    } else if IsSpace(s[0]) {
      assert (s + sp)[1..] == s[1..] + sp;
      RunsTrailingSpaces(s[1..], sp);
    } else {
      var w := TakeWord(s);
      TakeWordAppend(s, sp);
      assert (s + sp)[|w|..] == s[|w|..] + sp;
      RunsTrailingSpaces(s[|w|..], sp);
    }
  }

  /** Leading and trailing spaces do not change the word count. */
  lemma SurroundingSpacesIgnored(before: string, s: string, after: string)
    requires AllSpace(before) && AllSpace(after)
    ensures WordCount(before + s + after) == WordCount(s)
  {
    var tail := s + after;
    var whole := before + s + after;
    assert whole == before + tail;
    RunsLeadingSpaces(before, tail);
    RunsTrailingSpaces(s, after);
    assert Runs(whole) == Runs(s);
    WordCountIsRuns(whole);
    WordCountIsRuns(s);
  }

  // ---------------------------------------------------------------------------
  // Math.ceil(wordCount / 200)
  // ---------------------------------------------------------------------------

  /** The read time in minutes for `words` words: the least r with 200 * r >= words. */
  function ReadTime(words: nat): (minutes: nat)
    ensures WORDS_PER_MINUTE * minutes >= words
    ensures minutes == 0 || WORDS_PER_MINUTE * (minutes - 1) < words
  {
    (words + WORDS_PER_MINUTE - 1) / WORDS_PER_MINUTE
  }

  /** The read time grows with the word count and never exceeds it; 1 to 200 words read in
      one minute and 201 words in two. */
  lemma ReadTimeBounds(m: nat, n: nat)
    ensures m <= n ==> ReadTime(m) <= ReadTime(n)
    ensures ReadTime(n) <= n
    ensures 1 <= n <= 200 ==> ReadTime(n) == 1
    ensures ReadTime(201) == 2
    ensures ReadTime(0) == 0
  {
  }

  /** The rule shared by single create, bulk create and update. */
  function ReadTimeOf(content: string): nat {
    ReadTime(WordCount(content))
  }

  // ---------------------------------------------------------------------------
  // Payloads
  // ---------------------------------------------------------------------------

  /** A validated request body for one blog (Tags is optional). */
  datatype BlogInput = BlogInput(title: string, excerpt: string, content: string, slug: string, tags: Option<seq<string>>)

  /** The object handed to the blog store. */
  datatype BlogPayload = BlogPayload(title: string, excerpt: string, content: string, slug: string, tags: Option<seq<string>>, readtime: nat)

  /** The body of `POST /blogs`: one blog object, or an array of them. */
  datatype CreateBody = Single(blog: BlogInput) | Bulk(blogs: seq<BlogInput>)

  /** The store call `createBlog` issues. */
  datatype StoreCall = Create(payload: BlogPayload) | CreateBulk(payloads: seq<BlogPayload>)

  predicate SameFields(b: BlogInput, p: BlogPayload) {
    p.title == b.title && p.excerpt == b.excerpt && p.content == b.content && p.slug == b.slug
  }

  /** Payload of a single create, also of an update: Tags forwarded as given. */
  function SinglePayload(b: BlogInput): (p: BlogPayload)
    ensures SameFields(b, p) && p.tags == b.tags
    ensures p.readtime == ReadTime(|Words(b.content)|)
  {
    BlogPayload(b.title, b.excerpt, b.content, b.slug, b.tags, ReadTimeOf(b.content))
  }

  /** Payload of one element of a bulk create: missing Tags become the empty list. */
  function BulkElementPayload(b: BlogInput): (p: BlogPayload)
    ensures SameFields(b, p) && p.tags.Some?
    ensures b.tags.None? ==> p.tags == Some([])
    ensures b.tags.Some? ==> p.tags == b.tags
    ensures p.readtime == ReadTime(|Words(b.content)|)
  {
    BlogPayload(b.title, b.excerpt, b.content, b.slug, Some(b.tags.GetOr([])), ReadTimeOf(b.content))
  }

  /** `req.body.map(...)`: one payload per element, in order. */
  function BulkPayloads(blogs: seq<BlogInput>): (ps: seq<BlogPayload>)
    ensures |ps| == |blogs|
    ensures forall i :: 0 <= i < |blogs| ==> ps[i] == BulkElementPayload(blogs[i])
  {
    seq(|blogs|, i requires 0 <= i < |blogs| => BulkElementPayload(blogs[i]))
  }

  /** `createBlog`: an array body goes to `createBulk`, an object body to `create`. */
  function CreateBlog(body: CreateBody): (call: StoreCall)
    ensures body.Bulk? <==> call.CreateBulk?
    ensures body.Bulk? ==> |call.payloads| == |body.blogs|
    ensures body.Bulk? ==> forall i :: 0 <= i < |body.blogs| ==>
              (SameFields(body.blogs[i], call.payloads[i])
               && call.payloads[i].readtime == ReadTimeOf(body.blogs[i].content)
               && call.payloads[i].tags == Some(body.blogs[i].tags.GetOr([])))
    ensures body.Single? ==> SameFields(body.blog, call.payload) && call.payload.tags == body.blog.tags
    ensures body.Single? ==> call.payload.readtime == ReadTimeOf(body.blog.content)
  {
    match body
    case Single(b) => Create(SinglePayload(b))
    case Bulk(bs) => CreateBulk(BulkPayloads(bs))
  }

  /** `updateBlog` builds the same payload as a single create. */
  function UpdatePayload(b: BlogInput): (p: BlogPayload)
    ensures SameFields(b, p) && p.tags == b.tags
  {
    SinglePayload(b)
  }

  /** The update payload's read time is a function of the submitted content alone. */
  lemma UpdateReadtimeFromContent(a: BlogInput, b: BlogInput)
    requires a.content == b.content
    ensures UpdatePayload(a).readtime == UpdatePayload(b).readtime == ReadTime(WordCount(a.content))
  {
  }

  /** `updateBlog` after the store call: a missing blog is a 404 NOT_FOUND. */
  function UpdateBlogReply<B>(id: int, updated: Option<B>): (r: ServiceErrors.Reply<B>)
    ensures updated.None? <==> r.Raise?
    ensures r.Raise? ==> ServiceErrors.IsNotFound(r.error) && r.error.statusCode == 404
    ensures r.Raise? ==> r.error.message == "Blog not found" && r.error.details == ServiceErrors.IdDetails(id)
    ensures r.Respond? ==> r.status == 200 && Some(r.body) == updated
  {
    ServiceErrors.NotFoundReply("Blog not found", id, updated, 200)
  }

  /** `deleteBlog` after the store call: `false` is a 404 NOT_FOUND, `true` a 204. */
  function DeleteBlogReply(id: int, deleted: bool): (r: ServiceErrors.Reply<()>)
    ensures !deleted <==> r.Raise?
    ensures r.Raise? ==> ServiceErrors.IsNotFound(r.error) && r.error.statusCode == 404
    ensures r.Raise? ==> r.error.message == "Blog not found" && r.error.details == ServiceErrors.IdDetails(id)
    ensures r.Respond? ==> r.status == 204
  {
    ServiceErrors.NotFoundReply("Blog not found", id, if deleted then Some(()) else None, 204)
  }
}
