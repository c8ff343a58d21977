# A verified model of the blog/vlog API's decision logic

The repository is an Express + TypeORM API for blogs and vlogs. It also has a browser page for
creating content and seed scripts for the database. This project models, in Dafny, the parts
of it that decide something, and proves what they promise:

- **Blog routes** (`blog_routes.dfy`): the word count `split(/\s+/).filter(...)`, the read time
  `Math.ceil(words / 200)`, the payloads of single, bulk and update, and the 404 mapping.
- **Vlog routes** (`vlog_routes.dfy`): projection of request bodies into store payloads; the author
  links (UserId, ArticleId) written one by one after a single or bulk create; the update payload;
  the 404 mapping.
- **Validation middleware** (`validation.dfy`): `cleanupJoiError`, which groups Joi's error details
  by dotted path and throws a TypeError when a path names a member every object inherits
  (`constructor`, `toString`, …); and `validate`, which chooses the section to throw (body, then
  params, then query), picks the message and rewrites the request.
- **ServiceError** (`service_error.dfy`): the constructor's defaults, the seven factories and
  the seven `is*` getters.
- **Server rules** (`server.dfy`): the CORS origin callback, the log's status emoji and the global
  error handler.
- **Create page** (`create_page.dfy`): the tag parser, the type/mode state with the page
  elements it drives, and what each submission posts.
- **Seeds** (`seed_user_article.dfy`, `seed_user.dfy`): the bounded loop that collects distinct
  user–article pairs, and the per-user role draw.

Shared helpers: `Wrappers` (Option), `Json` (a JSON value with objects as ordered member
lists), `Seqs` (first-occurrence de-duplication) and `Text` (JavaScript's whitespace class,
`split`/`join` on one character, `trim`, decimal number text).

Conventions of the model:

- JavaScript objects are member sequences in property-creation order. When JavaScript
  enumerates or serializes an object (`Object.values`, `JSON.stringify`), array-index keys come
  first in ascending numeric order and the other keys follow in creation order. `FirstValue`
  models that order; the member sequence built by `ToDetails` keeps creation order.
- An optional property is an `Option`.
- Truthiness is written out (`0` and `""` are falsy).
- Random choices, store answers and Joi's verdicts are inputs.
- Whitespace is the concrete ECMAScript set that `\s` and `trim` use: the WhiteSpace and
  LineTerminator code points. This set is fixed by the language standard, so it is written out
  rather than left abstract.

## Model

| member | source | states |
|---|---|---|
| BlogRoutes.WordsAreRuns | src/routes/blog.ts:136-138 | every counted word is non-empty and contains no whitespace |
| BlogRoutes.WordCountIsRuns | src/routes/blog.ts:136-138 | the split-and-filter count equals the number of maximal non-whitespace runs (an independent left-to-right scan) |
| BlogRoutes.WhitespaceOnlyHasNoWords | src/routes/blog.ts:136-139 | the word count is 0 exactly when the content is all whitespace, so whitespace-only content gets read time 0 |
| BlogRoutes.SurroundingSpacesIgnored | src/routes/blog.ts:155-157 | leading and trailing whitespace do not change the word count |
| BlogRoutes.ReadTime | src/routes/blog.ts:139 | the read time is the least r with 200·r ≥ words, i.e. the ceiling of words/200 |
| BlogRoutes.ReadTimeBounds | src/routes/blog.ts:158 | read time is monotone in the word count and never exceeds it; 1–200 words give 1, 201 give 2, 0 give 0 |
| BlogRoutes.SinglePayload | src/routes/blog.ts:160-167 | a single create copies the four text fields, forwards Tags unchanged and derives Readtime from Content |
| BlogRoutes.BulkElementPayload | src/routes/blog.ts:135-149 | a bulk element copies the text fields, turns missing Tags into [] and derives Readtime from Content |
| BlogRoutes.BulkPayloads | src/routes/blog.ts:135-150 | a bulk create yields exactly one payload per input element, in input order |
| BlogRoutes.CreateBlog | src/routes/blog.ts:131-169 | an array body goes to createBulk and an object body to create, with the payloads above |
| BlogRoutes.UpdatePayload | src/routes/blog.ts:274-281 | the update payload copies the fields and forwards Tags unchanged |
| BlogRoutes.UpdateReadtimeFromContent | src/routes/blog.ts:269-280 | the update's Readtime depends on the submitted Content alone and is its read time |
| BlogRoutes.UpdateBlogReply | src/routes/blog.ts:283-289 | a missing blog raises NOT_FOUND 404 "Blog not found" with details {id}; a found one is returned with 200 |
| BlogRoutes.DeleteBlogReply | src/routes/blog.ts:335-342 | a failed delete raises NOT_FOUND 404 with details {id}; a successful one answers 204 |
| VlogRoutes.Project | src/routes/vlog.ts:179-186 | the vlog payload carries exactly Title, Excerpt, Content, Slug, Tags and VideoFile; UserIds is not among them |
| VlogRoutes.ProjectAll | src/routes/vlog.ts:153-160 | bulk payloads are one projection per body, in order |
| VlogRoutes.WriteLinks | src/routes/vlog.ts:190-196 | one link (uid, ArticleId) per entry of `UserIds \|\| []`, in order |
| VlogRoutes.CreateSingle | src/routes/vlog.ts:177-197 | a single create stores the projection and then the links of its UserIds with the new ArticleId |
| VlogRoutes.CreateBulk | src/routes/vlog.ts:151-175 | the nested loops write, for each saved vlog i in order, the links of body i's UserIds with saved i's ArticleId; their number is the sum of the UserIds lengths |
| VlogRoutes.AllLinksMembership | src/routes/vlog.ts:163-174 | a link (u, a) is written exactly when some saved vlog i has ArticleId a and body i lists u |
| VlogRoutes.RepeatsKept | src/routes/vlog.ts:167-173 | a user id listed k times gives k links; nothing is de-duplicated |
| VlogRoutes.NoUserIdsNoLinks | src/routes/vlog.ts:190 | without UserIds no link is written |
| VlogRoutes.UpdatePayloadOf | src/routes/vlog.ts:299-305 | the update payload holds the five editable fields and never a VideoFile |
| VlogRoutes.UpdateVlogReply | src/routes/vlog.ts:307-313 | a null update result raises NOT_FOUND 404 "Vlog not found" with details {id}; otherwise 200 |
| VlogRoutes.DeleteVlogReply | src/routes/vlog.ts:360-366 | a false delete result raises NOT_FOUND 404 with details {id}; true answers 204 |
| Validation.GroupKey | src/core/validation.ts:29 | the key is never empty, and an empty path gives "value" |
| Validation.Find | src/core/validation.ts:30 | the own-property lookup finds the first group with the key, or reports that none has it |
| Validation.Lookup | src/core/validation.ts:30 | reading `resultObj[key]` gives the key's own group when one was created, a truthy member inherited from `Object.prototype` when the key is one of its names ("constructor", "toString", …), and undefined otherwise |
| Validation.CleanupJoiError | src/core/validation.ts:27-39 | the reduce throws a TypeError exactly when some detail's key is an inherited prototype name (no array is created there and `push` is not a function); otherwise the accumulator loop (create the array if missing, then push) builds the fold Grouped of the details |
| Validation.GroupedEntries | src/core/validation.ts:27-39 | each key's group holds exactly the (type, message) of the details with that key, in the details' order |
| Validation.GroupedWellFormed | src/core/validation.ts:30-32 | no key occurs twice and no group is empty |
| Validation.GroupedKeys | src/core/validation.ts:29-32 | a key is present exactly when some detail has that key |
| Validation.GroupedTotal | src/core/validation.ts:28-39 | the groups hold as many entries as there were details |
| Validation.GroupedNonEmpty | src/core/validation.ts:28-39 | the errors object has a property exactly when Joi reported a detail |
| Validation.EmptyPathIsValue | src/core/validation.ts:29 | a detail with an empty path is found under "value" |
| Validation.IndexPathKey | src/core/validation.ts:29 | a detail at array position n is grouped under the decimal text of n, which is an array-index key |
| Validation.MinArrayIndex | src/core/validation.ts:117 | finds the array-index key of least numeric value, or reports that there is none |
| Validation.FirstValue | src/core/validation.ts:117 | `Object.values(errors)[0]` is the least array-index key's group when there is one, otherwise the first group created |
| Validation.FirstValueCreationOrder | src/core/validation.ts:117 | without array-index keys the first value is the first group created |
| Validation.FindMessage | src/core/validation.ts:117 | `find(e => e.message)` returns the first entry with a non-empty message, or none |
| Validation.ErrorMessage | src/core/validation.ts:116-118 | the thrown message is never empty |
| Validation.ThrownMessage | src/core/validation.ts:116-129 | the thrown error is a 400 VALIDATION_FAILED carrying the section's groups, with the first non-empty message of the first value, or "Validation failed" |
| Validation.Effective | src/core/validation.ts:42-48 | a missing schema validates query, body and params against empty schemas |
| Validation.SectionFails | src/core/validation.ts:58-111 | a section fails exactly when it is validated and Joi reported a detail for it |
| Validation.SectionPriority | src/core/validation.ts:114-130 | the chosen error is the body's even when params or query fail too, then the params', then the query's; when no section's grouping throws, that error is how the middleware ends |
| Validation.PassesIffNoDetails | src/core/validation.ts:114-133 | no error is chosen, and the middleware ends with `next()`, exactly when no validated section has an error |
| Validation.Validate | src/core/validation.ts:41-134 | the middleware ends with a TypeError as soon as grouping a validated section's details throws (query, then body, then params), otherwise with the chosen section's error or `next()`; body and params are replaced by Joi's values when they pass and no earlier section's grouping threw, and query is never reassigned |
| Validation.InheritedFieldCrashes | src/core/validation.ts:29-33 | a body detail whose path is one prototype name such as "constructor" makes the middleware throw a TypeError instead of a 400, whatever the other sections hold |
| ServiceErrors.New | src/core/serviceError.ts:14-25 | status defaults to 500 and details to {}; code and message are stored as given; name is "ServiceError" |
| ServiceErrors.NotFound | src/core/serviceError.ts:27-32 | code NOT_FOUND, status 404, missing details become {} |
| ServiceErrors.ValidationFailed | src/core/serviceError.ts:34-39 | code VALIDATION_FAILED, status 400 |
| ServiceErrors.Unauthorized | src/core/serviceError.ts:41-46 | code UNAUTHORIZED, status 401 |
| ServiceErrors.Forbidden | src/core/serviceError.ts:48-53 | code FORBIDDEN, status 403 |
| ServiceErrors.BadRequest | src/core/serviceError.ts:55-60 | code BAD_REQUEST, status 400 |
| ServiceErrors.VerificationRequired | src/core/serviceError.ts:62-67 | code VERIFICATION_REQUIRED, status 403 |
| ServiceErrors.RateLimitExceeded | src/core/serviceError.ts:69-74 | code RATE_LIMIT_EXCEEDED, status 429 |
| ServiceErrors.GettersExclusive | src/core/serviceError.ts:76-102 | at most one `is*` getter holds of any error, and exactly one when its code is one of the seven constants |
| ServiceErrors.NotFoundReply | src/routes/blog.ts:283-289 | a missing record raises NOT_FOUND 404 with the given message and details {id}; a found one is answered with the given status and itself |
| ServiceErrors.FactoryOfCode | src/core/serviceError.ts:1-7 | recovers a factory from a code, for exactly the seven known codes |
| ServiceErrors.FactoryTable | src/core/serviceError.ts:27-102 | an error built by a factory satisfies its own getter and no other; its status follows the table; name, message and defaulted details are as given |
| ServiceErrors.ValidationFailedAndBadRequestDiffer | src/core/serviceError.ts:34-60 | validationFailed and badRequest share status 400 but differ in code and getter |
| Json.SetMember | src/createServer.ts:155-157 | assigning a property makes it present with the new value, keeps every other property, and adds a member only when the key was absent |
| Server.AllowedOrigins | src/createServer.ts:18 | no list when CORS_ORIGINS is unset; otherwise one entry more than there are commas |
| Server.CorsOrigin | src/createServer.ts:44-56 | a rejection names the origin in "Origin … not allowed by CORS" |
| Server.CorsDecision | src/createServer.ts:46-55 | a missing or empty origin is allowed; any other is allowed exactly when the list exists and contains it |
| Server.CommaOriginRejected | src/createServer.ts:18 | an origin containing a comma is never allowed, because the list is split on commas |
| Server.ConfiguredListAllowed | src/createServer.ts:18 | configuring the comma-joined list of comma-free origins allows exactly those origins |
| Server.GetStatusEmoji | src/createServer.ts:77-83 | the emoji is the one whose status band contains the status |
| Server.BandsPartition | src/createServer.ts:77-83 | the five bands are disjoint and cover every status |
| Server.HandleError | src/createServer.ts:124-170 | status: JWT gives 401, else a ServiceError's own status, else the first truthy statusCode/status, else 500; code defaults to INTERNAL_SERVER_ERROR; details default to {} and gain jwtOriginalError under JWT; stack only outside production; HTML keeps url and JSON drops it |
| CreatePage.ParseTags | public/js/create.js:56 | empty input gives no tags; every tag is trimmed and non-empty; there are at most commas + 1 tags |
| CreatePage.ParseTagsAppend | public/js/create.js:56 | the tags of two inputs joined by a comma are the first input's tags followed by the second's |
| CreatePage.ParseTagsPiece | public/js/create.js:56 | an input without commas gives no tag when it is blank and otherwise exactly one tag, itself trimmed |
| Text.SplitAppend | public/js/create.js:56 | `split` of two texts joined by the separator is the pieces of the first followed by the pieces of the second |
| CreatePage.ParseTagsRoundTrip | public/js/create.js:56 | comma-joined trimmed, non-empty, comma-free tags are parsed back unchanged and in order |
| CreatePage.Page.constructor | public/js/create.js:4-5 | the page starts as a blog in single mode |
| CreatePage.Page.SelectType | public/js/create.js:21-37 | sets the type; titles follow it; the vlog fields are shown and the video url required exactly for "vlog"; the mode is untouched |
| CreatePage.Page.SelectMode | public/js/create.js:39-45 | sets the mode; only the form of the selected mode is shown; the rest is untouched |
| CreatePage.AtMostOneForm | public/js/create.js:43-44 | after a mode is selected at most one of the two forms is shown |
| CreatePage.Page.Endpoint | public/js/create.js:79 | "/blogs" exactly when the type is "blog", "/vlogs" otherwise |
| CreatePage.Page.SubmitSingle | public/js/create.js:48-80 | a vlog without a video url shows an error and posts nothing; otherwise the fields and parsed tags are posted to the type's collection, with a VideoFile exactly for "vlog" |
| CreatePage.Page.SubmitBulk | public/js/create.js:91-103 | unparseable text and non-array JSON show their errors and post nothing; an array is posted unchanged |
| CreatePage.Page.SingleCreated | public/js/create.js:82 | the success notice names Blog or Vlog as the endpoint does |
| CreatePage.Page.BulkCreated | public/js/create.js:105 | the bulk notice gives the count and names blogs or vlogs as the endpoint does |
| CreatePage.FailureMessage | public/js/create.js:86 | a failed post shows the server's message when it is non-empty, otherwise "Failed to create content" |
| SeedUserArticle.PairKeyInjective | src/seeds/seedUserArticle.ts:46 | the key `${UserId}-${ArticleId}` is equal for two pairs exactly when the pairs are equal (non-negative ids) |
| SeedUserArticle.Draws | src/seeds/seedUserArticle.ts:44-45 | every drawn pair takes its user and its article from the loaded lists |
| SeedUserArticle.GeneratedProperties | src/seeds/seedUserArticle.ts:36-56 | the generated links have no duplicate pair, number at most count (exactly count when the draws allow it), and use loaded ids only |
| SeedUserArticle.Generate | src/seeds/seedUserArticle.ts:35-56 | the loop keeps the first count distinct pairs of the first 3·count draws; it stops after at most 3·count attempts, with count links or all attempts spent |
| SeedUserArticle.SeedUserArticles | src/seeds/seedUserArticle.ts:6-61 | existing rows are returned unchanged; no users or no articles gives []; otherwise the generated links |
| SeedUser.PickRoles | src/data/seeds/seedUser.ts:27-34 | the inner loop keeps the first occurrence of each drawn role: between 1 and numRoles ≤ 3 distinct roles from the four |
| SeedUser.MakeUserWellRoled | src/data/seeds/seedUser.ts:26-34 | every seeded user has one to three distinct roles from the four-role list, at most numRoles of them |
| SeedUser.EveryWellRoledReachable | src/data/seeds/seedUser.ts:18-34 | conversely, every non-empty duplicate-free list of at most three of the four roles is produced by some draw |
| SeedUser.SeedUsers | src/data/seeds/seedUser.ts:5-41 | existing users are returned unchanged; otherwise exactly count users, the i-th from the i-th draw, each with well-formed roles |

## Left out

- Data access objects, TypeORM entities and the database are not modelled. Store answers are inputs: the saved ArticleIds, update results as `Option`, delete results as `bool`, and existing rows.
- Joi is not modelled. Each section's verdict (a converted value, or error details) is an input, so the effect of `abortEarly`, `convert` and `presence` is not modelled.
- Socket.IO, logging, the Swagger documentation, views and the other routes and seed scripts are outside this core.
- The `201` status and JSON send of the create handlers are not modelled; only the store calls they issue are.
- The GET-by-id handlers raise the same 404 as update. `UpdateBlogReply`/`UpdateVlogReply` model that mapping once.
- Randomness is an input. `Math.random()` becomes a sequence of index picks, and faker's usernames and emails are given strings.
- Numbers are mathematical integers. `Math.ceil(words / 200)` is the integer `(words + 199) / 200`. Non-integer or negative `count` arguments of the seed functions are not modelled (`count` is a `nat`).
- Identifiers are `nat` in the seeds, where injectivity of the pair key needs non-negative ids. In the routes they are `int`.
- Server.HandleError: under JWT the source writes `jwtOriginalError` into the object it got from `error.details`, so the thrown error's own details object is changed too. The model returns the new details and does not model that aliasing.
- Server.HandleError: `req.accepts("html")` is an input, and `process.env.NODE_ENV` is an optional string.
- The HTML rendering of errors and results, `showResult`, form reset, the DOM event wiring and the axios transport of the create page are not modelled. A page element's initial state comes from the view template, which is not part of this model, so it is a constructor parameter.
- CreatePage.Page.SubmitBulk: `JSON.parse` is not modelled. Its outcome is an input: `None` for a SyntaxError.
- VlogRoutes.CreateBulk: requires at most one saved vlog per request body. A store answering with more vlogs than bodies makes `req.body[i]` undefined at src/routes/vlog.ts:164, a TypeError the model does not follow. Also, src/dao/VlogDao.ts defines no `createBulk`, so the source's bulk branch throws at src/routes/vlog.ts:162 before any link is written; the model assumes a store that has the method, as BlogDao does.
- SeedUserArticle.SeedUserArticles: the final `save` and the console output are not modelled.
