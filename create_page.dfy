/** The browser script of the create page: the selected content type and mode with the parts
    of the page they show or hide, the tags field, and what each submission posts. The page
    state is an object whose fields the two select handlers update. */
module CreatePage {
  import opened Wrappers
  import Text
  import Json

  const API_BASE_URL := "/api"

  // ---------------------------------------------------------------------------
  // The tags field
  // ---------------------------------------------------------------------------

  function TrimAll(pieces: seq<string>): (r: seq<string>)
    ensures |r| == |pieces|
    ensures forall k :: 0 <= k < |r| ==> r[k] == Text.Trim(pieces[k]) && Text.Trimmed(r[k])
  {
    seq(|pieces|, k requires 0 <= k < |pieces| => Text.Trim(pieces[k]))
  }

  /** The tags of a comma-separated input: an empty input has none; otherwise each piece
      between commas is trimmed and the empty ones are dropped. */
  function ParseTags(input: string): (tags: seq<string>)
    ensures input == "" ==> tags == []
    ensures forall k :: 0 <= k < |tags| ==> tags[k] != "" && Text.Trimmed(tags[k])
    ensures |tags| <= Text.Occurrences(input, ',') + 1
  {
    if input == "" then []
    else
      var pieces := TrimAll(Text.Split(input, ','));
      Text.SplitCount(input, ',');
      DropEmptyTrimmed(pieces);
      Text.DropEmpty(pieces)
  }

  lemma {:induction false} DropEmptyTrimmed(pieces: seq<string>)
    requires forall k :: 0 <= k < |pieces| ==> Text.Trimmed(pieces[k])
    ensures forall k :: 0 <= k < |Text.DropEmpty(pieces)| ==> Text.Trimmed(Text.DropEmpty(pieces)[k])
    decreases |pieces|
  {
    if pieces != [] {
      DropEmptyTrimmed(pieces[1..]);
    }
  }

  /** Tags written back as a comma-joined list are read back unchanged, in order, when each
      is non-empty, trimmed and free of commas. */
  lemma ParseTagsRoundTrip(tags: seq<string>)
    requires forall k :: 0 <= k < |tags| ==> tags[k] != "" && Text.Trimmed(tags[k]) && ',' !in tags[k]
    ensures ParseTags(Text.Join(tags, ',')) == tags
  {
    if tags != [] {
      var input := Text.Join(tags, ',');
      assert input != "" by {
        if |tags| > 1 {
          assert |input| >= |tags[0]|;
        }
      }
      Text.SplitJoin(tags, ',');
      forall k | 0 <= k < |tags| ensures Text.Trim(tags[k]) == tags[k] {
        Text.TrimFixpoint(tags[k]);
      }
      assert TrimAll(tags) == tags;
      Text.DropEmptyKeepsNonEmpty(tags);
    }
  }

  /** Every input, the empty one included, is read as the trimmed non-empty pieces between
      its commas. */
  lemma ParseTagsPieces(input: string)
    ensures ParseTags(input) == Text.DropEmpty(TrimAll(Text.Split(input, ',')))
  {
    if input == "" {
      assert TrimAll(Text.Split(input, ',')) == [""];
    }
  }

  /** The tags of two inputs joined by a comma are the tags of the first followed by the tags
      of the second. */
  lemma ParseTagsAppend(a: string, b: string)
    ensures ParseTags(a + "," + b) == ParseTags(a) + ParseTags(b)
  {
    var pa := TrimAll(Text.Split(a, ','));
    var pb := TrimAll(Text.Split(b, ','));
    ParseTagsPieces(a);
    ParseTagsPieces(b);
    ParseTagsPieces(a + "," + b);
    Text.SplitAppend(a, ',', b);
    TrimAllAppend(Text.Split(a, ','), Text.Split(b, ','));
    Text.DropEmptyAppend(pa, pb);
  }

  lemma TrimAllAppend(x: seq<string>, y: seq<string>)
    ensures TrimAll(x + y) == TrimAll(x) + TrimAll(y)
  {
  }

  /** An input without commas holds one tag, itself trimmed, unless it is blank. */
  lemma ParseTagsPiece(p: string)
    requires ',' !in p
    ensures ParseTags(p) == if Text.Trim(p) == "" then [] else [Text.Trim(p)]
  {
    Text.SplitNoSeparator(p, ',');
    ParseTagsPieces(p);
    assert TrimAll([p]) == [Text.Trim(p)];
  }

  // ---------------------------------------------------------------------------
  // Page state
  // ---------------------------------------------------------------------------

  /** The contents of the fields of the single-item form. */
  datatype Form = Form(title: string, excerpt: string, content: string, slug: string,
                       tagsInput: string, videoUrl: string)

  /** The body posted for one item; a VideoFile member is present only for a vlog. */
  datatype SinglePayload = SinglePayload(
    title: string, excerpt: string, content: string, slug: string,
    tags: seq<string>, videoFile: Option<string>)

  /** What a submission does: post a payload to a url, or show an error and post nothing. */
  datatype Submission<P> = Post(url: string, payload: P) | ShowError(message: string)

  class Page {
    var currentType: string
    var currentMode: string
    var formTitle: string
    var bulkFormTitle: string
    var vlogFieldsHidden: bool
    var videoUrlRequired: bool
    var singleFormHidden: bool
    var bulkFormHidden: bool

    /** The script's start: a blog in single mode. The page elements keep the state the
        template gives them, passed in here. */
    constructor (formTitle: string, bulkFormTitle: string, vlogFieldsHidden: bool, videoUrlRequired: bool,
                 singleFormHidden: bool, bulkFormHidden: bool)
      ensures currentType == "blog" && currentMode == "single"
      ensures this.formTitle == formTitle && this.bulkFormTitle == bulkFormTitle
      ensures this.vlogFieldsHidden == vlogFieldsHidden && this.videoUrlRequired == videoUrlRequired
      ensures this.singleFormHidden == singleFormHidden && this.bulkFormHidden == bulkFormHidden
    {
      currentType := "blog";
      currentMode := "single";
      this.formTitle := formTitle;
      this.bulkFormTitle := bulkFormTitle;
      this.vlogFieldsHidden := vlogFieldsHidden;
      this.videoUrlRequired := videoUrlRequired;
      this.singleFormHidden := singleFormHidden;
      this.bulkFormHidden := bulkFormHidden;
    }

    /** The type-dependent parts of the page agree with the selected type: the vlog fields
        are shown, and the video url required, exactly for a vlog. */
    predicate TypeShown()
      reads this
    {
      && formTitle == (if currentType == "blog" then "Create Blog" else "Create Vlog")
      && bulkFormTitle == (if currentType == "blog" then "Create Multiple Blogs" else "Create Multiple Vlogs")
      && videoUrlRequired == (currentType == "vlog")
      && vlogFieldsHidden == (currentType != "vlog")
    }

    /** The form of the selected mode is the one shown. */
    predicate ModeShown()
      reads this
    {
      singleFormHidden == (currentMode != "single") && bulkFormHidden == (currentMode != "bulk")
    }

    method SelectType(t: string)
      modifies this
      ensures currentType == t && TypeShown()
      ensures currentMode == old(currentMode)
      ensures singleFormHidden == old(singleFormHidden) && bulkFormHidden == old(bulkFormHidden)
    {
      currentType := t;
      formTitle := "Create " + (if t == "blog" then "Blog" else "Vlog");
      bulkFormTitle := "Create Multiple " + (if t == "blog" then "Blogs" else "Vlogs");
      if t == "vlog" {
        vlogFieldsHidden := false;
        videoUrlRequired := true;
      } else {
        vlogFieldsHidden := true;
        videoUrlRequired := false;
      }
    }

    method SelectMode(mode: string)
      modifies this
      ensures currentMode == mode && ModeShown()
      ensures currentType == old(currentType) && formTitle == old(formTitle)
      ensures bulkFormTitle == old(bulkFormTitle) && vlogFieldsHidden == old(vlogFieldsHidden)
      ensures videoUrlRequired == old(videoUrlRequired)
    {
      currentMode := mode;
      singleFormHidden := mode != "single";
      bulkFormHidden := mode != "bulk";
    }

    /** The collection the page posts to: blogs for the type "blog", vlogs for any other. */
    function Endpoint(): (e: string)
      reads this
      ensures e == "/blogs" <==> currentType == "blog"
      ensures e == "/blogs" || e == "/vlogs"
    {
      if currentType == "blog" then "/blogs" else "/vlogs"
    }

    /** The single form's submission. A vlog without a video url posts nothing; otherwise the
        form's fields and parsed tags go to the selected collection, with a VideoFile exactly
        when the type is "vlog". */
    function SubmitSingle(form: Form): (s: Submission<SinglePayload>)
      reads this
      ensures s.ShowError? <==> currentType == "vlog" && form.videoUrl == ""
      ensures s.ShowError? ==> s.message == "Please provide a valid Video URL"
      ensures s.Post? ==> s.url == API_BASE_URL + Endpoint()
      ensures s.Post? ==> s.payload.title == form.title && s.payload.excerpt == form.excerpt
      ensures s.Post? ==> s.payload.content == form.content && s.payload.slug == form.slug
      ensures s.Post? ==> s.payload.tags == ParseTags(form.tagsInput)
      ensures s.Post? ==> (s.payload.videoFile.Some? <==> currentType == "vlog")
      ensures s.Post? && s.payload.videoFile.Some? ==> s.payload.videoFile.value == form.videoUrl
    {
      var payload := SinglePayload(form.title, form.excerpt, form.content, form.slug, ParseTags(form.tagsInput), None);
      if currentType == "vlog" then
        if form.videoUrl == "" then ShowError("Please provide a valid Video URL")
        else Post(API_BASE_URL + Endpoint(), payload.(videoFile := Some(form.videoUrl)))
      else Post(API_BASE_URL + Endpoint(), payload)
    }

    /** The bulk submission: text that is not JSON (None here) or JSON that is not an array
        posts nothing; an array is posted unchanged to the selected collection. */
    function SubmitBulk(parsed: Option<Json.Value>): (s: Submission<seq<Json.Value>>)
      reads this
      ensures parsed.None? ==> s == ShowError("Invalid JSON format")
      ensures parsed.Some? && !parsed.value.Arr? ==> s == ShowError("Please provide a valid JSON array")
      ensures s.Post? <==> parsed.Some? && parsed.value.Arr?
      ensures s.Post? ==> s.url == API_BASE_URL + Endpoint() && s.payload == parsed.value.items
    {
      match parsed
      case None => ShowError("Invalid JSON format")
      case Some(data) =>
        if data.Arr? then Post(API_BASE_URL + Endpoint(), data.items)
        else ShowError("Please provide a valid JSON array")
    }

    /** The success notice of a single submission. */
    function SingleCreated(): (m: string)
      reads this
      ensures m == (if Endpoint() == "/blogs" then "Blog" else "Vlog") + " created successfully!"
    {
      (if currentType == "blog" then "Blog" else "Vlog") + " created successfully!"
    }

    /** The success notice of a bulk submission of `n` items. */
    function BulkCreated(n: nat): (m: string)
      reads this
      ensures m == Text.NatToString(n) + " " + (if Endpoint() == "/blogs" then "blogs" else "vlogs")
                   + " created successfully!"
    {
      Text.NatToString(n) + (if currentType == "blog" then " blogs" else " vlogs") + " created successfully!"
    }
  }

  /** The notice of a failed post: the server's error message when it sent a non-empty one,
      a fixed notice otherwise. */
  function FailureMessage(serverMessage: Option<string>): (m: string)
    ensures m != ""
    ensures serverMessage.Some? && serverMessage.value != "" ==> m == serverMessage.value
    ensures !(serverMessage.Some? && serverMessage.value != "") ==> m == "Failed to create content"
  {
    if serverMessage.Some? && serverMessage.value != "" then serverMessage.value
    else "Failed to create content"
  }

  /** Whatever mode is selected, at most one of the two forms is shown. */
  lemma AtMostOneForm(page: Page)
    requires page.ModeShown()
    ensures page.singleFormHidden || page.bulkFormHidden
  {
  }
}
