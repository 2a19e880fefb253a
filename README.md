# Community board — a verified model

This project models the deterministic core of a small community board. The
board has two React clients, `src/` and `Front/`, and a Flask post service,
`Post-master/`. It is a Dafny model: each core source file becomes one Dafny
module, and the modules share a few support modules.

- **Main board** (`board.dfy`, module `MainBoard`). The list controller of
  `src/components/MainBoardPage.js`: a class holding `posts`, `allPosts`,
  `filteredPosts`, `activeCategory`, `searchTerm` and `sortBy`, with one
  method per handler. A category change recomputes from `allPosts` by category
  alone. A search change recomputes category and search together. A sort
  reorders the list currently shown, using a stable in-place insertion sort on
  an array (`sorting.dfy`). The sort is proved equal to a functional stable
  sort, as section 22.1.3.27 of ECMA-262 (2019) requires of `Array.prototype.sort`.
- **Post service** (`post_routes.dfy`, `post_models.dfy`). The routes of
  `Post-master/post/routes.py` over a `PostStore` class. The database is
  abstracted as a map of posts, a table scan order, a set of (post id, user id)
  likes, and the view cache. The store invariant is that every post's
  `like_count` equals the number of likes recorded for it. Every route
  preserves it. The module also covers:
  - the response envelopes;
  - `allowed_file`;
  - Python `int()` on query arguments;
  - SQLite `LIKE` search;
  - PUT/PATCH updates, soft delete and create-time validation.

  `models.py` contributes `generate_id`, `User.to_dict`, the Post column
  defaults and the category seeding loop.
- **Forms.** The signup validator and Cognito result mapping (`signup.dfy`).
  The post editor's guard chain, payload and cancel dialog (`write_post.dfy`).
  Both sign-in pages (`front_login.dfy`, `board_login.dfy`).
- **Client session.** `Front/src/App.js` (`front_app.dfy`) and the mock
  `src/services/AuthService.js` (`auth_service.dfy`). Both work over a
  `LocalStorage` class whose state is a `map<string, string>` (`browser.dfy`).
- **Helpers.** `buildApiUrl`, `getApiConfig` and the status tables
  (`api_config.dfy`). `retryRequest`, `handleResponse`, `handleError` and the
  storage cleanup in `logout` (`api_service.dfy`). The display-name chain and
  button dispatch of `CommonLayout.js` (`common_layout.dfy`).
- **Cross-part properties** (`flows.dfy`). What the `Front/` sign-in page hands
  to `App`, and whether a post that passes the editor's guards passes the
  server's required-field check.

The support modules are:
- `json.dfy`: JSON values with `JSON.stringify`/`JSON.parse`, proved to round-trip;
- `text.dfy`: JavaScript and Python whitespace trimming, case maps and substring search;
- `lists.dfy`: order-preserving filtering;
- `wrappers.dfy`: `Option`.

Strings are sequences of Unicode characters. JavaScript's `length` counts
UTF-16 code units, so every length rule of the clients counts them too
(`Text.Utf16Length`: two units for a character outside the Basic Multilingual
Plane). Python's `int()` reads the decimal digits of every script (general
category Nd of Unicode 15.0), and refuses more than 4300 of them, the default
limit of CPython 3.11 and later. The database is SQLite, the default of
`Post-master/config.py` when `DATABASE_URL` is unset, as the comment on the
search filter of `routes.py` also assumes.

Time (`Date.now()`, `datetime.utcnow()`) and randomness (`uuid4`) are
parameters. Network replies (fetch, Cognito) are inputs described by
datatypes. Timestamps are integers; on the server they are microseconds, so
the 120-second view window is `120_000_000`.

Where the system's written description and its code differ, the model
follows the code:
- Sorting reorders the list currently shown, so latest, then popular, then
  latest again need not reproduce the first order when two posts share a
  `created_at`. `SortViewIdempotent` holds only for the same key applied twice.
- `App.handleLogin` copies `access_token`/`refresh_token`. The `Front/`
  sign-in page supplies `accessToken`/`refreshToken`, so the stored session
  keeps only the id token (`Flows.SignInKeepsOnlyIdToken`).
- In `src/components/LoginPage.js` the empty-field guard runs before
  `AuthService.login`. That login rejects only empty credentials, so the
  page's error-code mapping is never reached with the mock service
  (`BoardLogin.LoginPage.HandleLogin`).

## Model

| member | source | states |
|---|---|---|
| MainBoard.ShownWereLoaded | src/components/MainBoardPage.js:74-129 | Under the page invariant every post on screen is a loaded post, and the list on screen is never longer than allPosts. |
| MainBoard.MainBoardPage.constructor | src/components/MainBoardPage.js:5-17 | The page starts with three empty lists, loading, no error, category "전체", an empty search term and sort "최신순". |
| MainBoard.LoadedPosts | src/components/MainBoardPage.js:49 | The loaded list is `data.posts` when present, else `data.data`, else empty. |
| MainBoard.MainBoardPage.LoadPosts | src/components/MainBoardPage.js:41-66 | On a body, posts, allPosts and filteredPosts all become the same loaded list. On a non-ok reply or a thrown error all three become empty and the error message is set. Loading ends on every path and category, search and sort are untouched. |
| MainBoard.MainBoardPage.CheckUrlCategory | src/components/MainBoardPage.js:27-39 | A URL category is applied (and the list filtered by it) only when it is non-empty and one of the five fixed categories; otherwise nothing changes. |
| MainBoard.MainBoardPage.HandleCategoryChange | src/components/MainBoardPage.js:68-72 | Sets the active category and shows the category view of allPosts, whatever the current search term. |
| MainBoard.MainBoardPage.FilterPostsByCategory | src/components/MainBoardPage.js:74-83 | filteredPosts becomes the category view of allPosts; nothing else changes. |
| MainBoard.MainBoardPage.HandleSearchChange | src/components/MainBoardPage.js:85-89 | Records the term and shows allPosts filtered by the active category and the term, discarding any sort. |
| MainBoard.MainBoardPage.FilterPostsBySearch | src/components/MainBoardPage.js:91-110 | filteredPosts becomes the search view of allPosts under the active category; nothing else changes. |
| MainBoard.MainBoardPage.HandleSortChange | src/components/MainBoardPage.js:112-116 | Records the sort key and reorders the list currently shown by it. |
| MainBoard.MainBoardPage.SortPosts | src/components/MainBoardPage.js:118-129 | The list shown becomes its sorted view by the given key (sorted in place on a copied array); allPosts and every other field are unchanged. |
| MainBoard.CategoryAllShowsEverything | src/components/MainBoardPage.js:75-77 | Category "전체" shows allPosts exactly. |
| MainBoard.CategoryViewExact | src/components/MainBoardPage.js:78-81 | Any other category keeps exactly the posts whose category equals it, case-sensitively, each as often as in allPosts (others not at all), as a subsequence of allPosts. |
| MainBoard.SearchViewExact | src/components/MainBoardPage.js:91-107 | A post is shown iff it is in allPosts, passes the category filter, and the term is blank or matches title, content or author case-insensitively (case folding as in `Text.LowerChar`, see Left out). |
| MainBoard.SearchViewCount | src/components/MainBoardPage.js:91-107 | A post that passes the category filter and the term occurs in the search view as often as in allPosts; any other post occurs 0 times. |
| MainBoard.SearchViewOrder | src/components/MainBoardPage.js:93-107 | The search view is a subsequence of allPosts (original order kept). |
| MainBoard.BlankSearchIsCategoryView | src/components/MainBoardPage.js:101 | A whitespace-only term leaves just the category filter. |
| MainBoard.MissingFieldsNeverMatch | src/components/MainBoardPage.js:102-106 | A post without title, content and author never matches a term (and evaluating the match does not fail). |
| MainBoard.UntrimmedTermExample | src/components/MainBoardPage.js:101-106 | The term is matched untrimmed: " news" does not find a post titled "news". |
| MainBoard.CaseInsensitiveExample | src/components/MainBoardPage.js:102-106 | Matching lower-cases both sides: "TRAVEL" finds a post whose content is "travel". |
| MainBoard.SortViewMeaning | src/components/MainBoardPage.js:118-129 | Sorting is a permutation; "최신순" orders by created_at descending and "인기순" by like_count (missing = 0) descending, each stably (equal keys keep their order); any other key leaves the list as it is. |
| MainBoard.SortViewIdempotent | src/components/MainBoardPage.js:118-129 | Sorting twice by the same key equals sorting once. |
| Sorting.SortInPlace | src/components/MainBoardPage.js:120-125 | The array after the in-place insertion sort equals the stable descending sort of its old contents. |
| Sorting.SortDescSorted | src/components/MainBoardPage.js:122-125 | The sort's result is in descending rank order. |
| Sorting.SortDescPermutes | src/components/MainBoardPage.js:122-125 | The sort's result has the same multiset of elements as its input. |
| Sorting.SortDescStable | src/components/MainBoardPage.js:122-125 | Elements of equal rank keep their relative order. |
| Sorting.SortDescOfSorted | src/components/MainBoardPage.js:122-125 | An input already in order is returned unchanged. |
| PostRoutes.ApiResponse | Post-master/post/routes.py:158-169 | The response carries the given status code; what its body holds is stated by `ApiResponseFields`. |
| PostRoutes.ApiResponseFields | Post-master/post/routes.py:158-169 | The body has distinct keys; `success` is status < 400, `message` and `data` are as given, and `meta` is present iff it is truthy (and then equals it). |
| PostRoutes.ApiError | Post-master/post/routes.py:171-182 | The error response carries the given status code; what its body holds is stated by `ApiErrorFields`. |
| PostRoutes.ApiErrorFields | Post-master/post/routes.py:171-182 | The body has `success` false, the message, and `error.code` equal to the status with the given details. |
| PostRoutes.AllowedFileIff | Post-master/post/routes.py:118-122 | A filename is allowed iff it has a last '.' and the lower-cased text after it is png, jpg, jpeg, gif or webp. |
| PostRoutes.PyIntOfString | Post-master/post/routes.py:250-251 | Python `int()` reads back every integer written in decimal with at most 4300 digits, and refuses (ValueError) every longer one. |
| PostRoutes.PyIntDigits | Post-master/post/routes.py:250-251 | A string of ASCII decimal digits parses to its usual value when it has at most 4300 digits (`MaxStrDigits`, the default limit of `sys.set_int_max_str_digits`), and is refused otherwise. |
| PostRoutes.PyIntNegative | Post-master/post/routes.py:250-251 | A minus sign followed by at most 4300 digits parses to the negated value; with more digits it is refused. |
| PostRoutes.PyIntFullwidth | Post-master/post/routes.py:250-251 | `int("３")` is 3: a digit of another script (here fullwidth) parses to its value. |
| PostRoutes.LikeContains | Post-master/post/routes.py:264-271 | For a term without wildcards, LIKE '%q%' holds iff the ASCII-lower-cased text contains the lower-cased term. |
| PostRoutes.LikePrefix | Post-master/post/routes.py:264-271 | For a term without wildcards, LIKE 'q%' holds iff the text starts with the term up to ASCII case. |
| PostRoutes.UnderscoreMatchesAnything | Post-master/post/routes.py:268 | The search term is not escaped: q = "_" matches every non-empty title. |
| PostRoutes.ReadListArgs | Post-master/post/routes.py:250-256 | Reading fails iff page or per_page is present and not an integer as `int()` reads it (white space, a sign, at most 4300 decimal digits of any script with single underscores); per_page is min(requested, 50) (10 by default); q is stripped; the popular ordering is chosen iff sort == "popular". |
| PostRoutes.FullwidthPageArgument | Post-master/post/routes.py:250 | `?page=３` (a fullwidth three) is read as page 3 rather than refused. |
| PostRoutes.SelectionMeaning | Post-master/post/routes.py:258-277 | The listing is a permutation of the filtered rows, holds exactly the rows passing the visibility/status/category/search filters, is ordered by (like_count, created_at) or created_at descending, and keeps table scan order among equal keys (see Left out). |
| PostRoutes.ListPostsMeaning | Post-master/post/routes.py:249-310 | The list route answers 500 iff the arguments cannot be read or a selected row holds a visibility or status outside its Enum (loading it raises LookupError); otherwise it answers the query read and its selection. On a table of loadable rows it fails only on unreadable arguments. |
| PostRoutes.DefaultListing | Post-master/post/routes.py:250-262 | With no arguments: page 1, 10 per page, PUBLIC, no status or category filter, latest first; a post is listed iff it is PUBLIC. |
| PostRoutes.PutRequiresTitleAndAuthor | Post-master/post/routes.py:488-496 | PUT answers 400 with the fixed message iff the stripped title is empty or author_id is falsy. |
| PostRoutes.PutAccepted | Post-master/post/routes.py:487-503 | An accepted PUT stores the stripped non-empty title and a truthy author_id, stores an empty content_md or content_s3url as None, and defaults visibility to PUBLIC and status to DRAFT. |
| PostRoutes.PatchKeepsAbsent | Post-master/post/routes.py:504-516 | PATCH leaves every column whose key is absent from the body unchanged. |
| PostRoutes.PatchWritesPresent | Post-master/post/routes.py:504-516 | PATCH writes each present key: a null author_id clears it, and title and content_md are stored stripped (null as ""). |
| PostRoutes.LookUp | Post-master/post/models.py:75-76 | A post id is missing iff it is not in the table, and a row loads iff its visibility and status are members of the two Enum types. |
| PostRoutes.PatchUnknownStatus | Post-master/post/routes.py:504-516 | PATCH {"status": "FOO"} is accepted and writes "FOO", leaving a row that can no longer be loaded. |
| PostRoutes.UpdateWritesColumns | Post-master/post/routes.py:487-516 | An accepted update changes only the six editable columns of the post. |
| PostRoutes.UpdateRefusals | Post-master/post/routes.py:481-524 | An update is refused only with 400 or 500, and 400 only for PUT, with the required-field message. |
| PostRoutes.FirstMissingMeaning | Post-master/post/routes.py:404-407 | The field reported missing is the first falsy one in order, and none is reported iff all are truthy. |
| PostRoutes.RequiredPresentIff | Post-master/post/routes.py:404-407 | The required-field check passes iff title, content and category are all truthy. |
| PostRoutes.CreateRowDefaults | Post-master/post/routes.py:410-418 | A body with the three fields and no author yields a new row with author "Anonymous", status PUBLISHED and no likes. |
| PostRoutes.CreateOutcomeMeaning | Post-master/post/routes.py:397-418 | A falsy body gets 400 "no data"; a missing required field gets 400; an accepted body has all three fields, and the row has the generated id, the current time, PUBLIC/PUBLISHED, zero likes and author "Anonymous" when none was sent. |
| PostRoutes.ViewKeyInjective | Post-master/post/routes.py:317 | For post ids without '_', equal cache keys mean the same post and the same client IP. |
| PostRoutes.GeneratedIdViewKeys | Post-master/post/routes.py:317 | Ids made by generate_id never share a cache key unless the post and the IP are the same. |
| PostRoutes.ViewKeyCollision | Post-master/post/routes.py:317 | With ids that do contain '_', two different (post, IP) pairs can share a cache key. |
| PostRoutes.LikeUser | Post-master/post/routes.py:597-612 | A like is accepted only for an existing, loadable post and a JSON object body with a truthy user_id, which becomes the liking user; a falsy user_id on a loadable post gets 400; a row that cannot be loaded is refused with 400 or 500. |
| PostRoutes.LikeRoutesAgree | Post-master/post/routes.py:1036-1055 | For an existing, loadable post both like routes accept the same bodies, for the same user, and refuse the rest with the same status. |
| PostRoutes.LikeRoutesDisagree | Post-master/post/routes.py:1039-1055 | For a body without user_id, like_post answers 404 for a missing post and 500 for an unloadable one, while toggle_like answers 400 to both: the checks run in opposite order. |
| PostRoutes.LikersAdd | Post-master/post/routes.py:623-625 | Adding a new like adds exactly that user to that post's likers. |
| PostRoutes.LikersRemove | Post-master/post/routes.py:618-619 | Removing a like removes exactly that user from that post's likers. |
| PostRoutes.Toggled | Post-master/post/routes.py:615-626 | Toggling flips the pair's membership in the like set and leaves every other pair as it was. |
| PostRoutes.ToggledTwice | Post-master/post/routes.py:615-626 | Toggling the same pair twice restores the like set. |
| PostRoutes.RowUpdateConsistent | Post-master/post/routes.py:498-516 | An update that keeps like_count preserves the store invariant (like_count equals the number of likes). |
| PostRoutes.InsertConsistent | Post-master/post/routes.py:413-421 | Inserting a new row with no likes preserves the store invariant. |
| PostRoutes.ToggleConsistent | Post-master/post/routes.py:615-626 | Under the invariant, `max(0, c - 1)` is exactly c - 1 when a like exists; the toggled count and like set keep the invariant. |
| PostRoutes.LikesChangeConsistent | Post-master/post/models.py:116-119 | Any change of the like set that fixes one post's count to its likers and leaves the other posts' likers alone keeps the invariant. |
| PostRoutes.PostStore.constructor | Post-master/post/routes.py:313 | The store starts with no posts, no likes and an empty view cache. |
| PostRoutes.PostStore.ShouldIncrementView | Post-master/post/routes.py:315-329 | Returns false and leaves the cache unchanged iff the same post/IP key was seen less than 120 s before; otherwise stores the time and returns true. |
| PostRoutes.PostStore.CountView | Post-master/post/routes.py:359-363 | view_count grows by exactly 1 in the counted case and is unchanged otherwise. |
| PostRoutes.PostStore.GetPost | Post-master/post/routes.py:352-387 | An unknown id gets 404 and a row that cannot be loaded gets 500, both with nothing changed; otherwise the view is counted as above (client IP from remote_addr, else X-Forwarded-For, else "unknown") and the post is returned with 200. |
| PostRoutes.PostStore.CreatePost | Post-master/post/routes.py:397-440 | The required fields are checked in a loop; a refusal changes nothing; an accepted post is added under the generated id at the end of the table and answered with 201. |
| PostRoutes.PostStore.UpdatePost | Post-master/post/routes.py:481-524 | Unknown id: 404. A row that cannot be loaded: 500, nothing changed. A refused PUT/PATCH changes nothing; an accepted one writes its columns and the update time and answers 200. |
| PostRoutes.PostStore.DeletePost | Post-master/post/routes.py:545-556 | Deletion is soft: the post stays under its id with status DELETED; unknown ids get 404 and a row that cannot be loaded gets 500, with nothing changed. |
| PostRoutes.PostStore.LikePost | Post-master/post/routes.py:594-639 | A refused request (including one on a row that cannot be loaded) changes nothing; otherwise the (post, user) like is toggled, like_count goes down by 1 (removed) or up by 1 (added), no count is ever negative, and the reply reports the count and action. |
| PostRoutes.PostStore.ToggleLike | Post-master/post/routes.py:1065-1080 | Toggles one like and returns the new count, which is the old count minus or plus one; the invariant and non-negative counts are kept. |
| PostModels.GenerateIdShape | Post-master/post/models.py:13-15 | An id is the 32 lower-case hex digits of a version-4 UUID with the dashes removed: no '-', and a '4' at position 12. |
| PostModels.UserToDict | Post-master/post/models.py:40-52 | The dictionary has exactly the nine listed keys, in order. |
| PostModels.UserDictKeysShape | Post-master/post/models.py:40-52 | The keys are distinct and password_hash is never among them. |
| PostModels.UserDictKeysDistinct | Post-master/post/models.py:42-52 | The listed keys are pairwise different and exclude password_hash. |
| PostModels.UserDictFields | Post-master/post/models.py:43-51 | id and username are copied; created_at and updated_at are None exactly when the timestamp is missing. |
| PostModels.InitCategories | Post-master/post/models.py:129-146 | The seeding loop yields the table with every missing default name added. |
| PostModels.SeededContents | Post-master/post/models.py:141-145 | After seeding every default name exists, no other names appear, and existing rows are untouched. |
| PostModels.SeededNoop | Post-master/post/models.py:141-145 | Seeding a table that already has every default name changes nothing. |
| PostModels.InitCategoriesIdempotent | Post-master/post/models.py:129-146 | All 7 defaults exist after one run, and a second run gives the same table. |
| PostModels.NewPost | Post-master/post/models.py:62-81 | A new post defaults to category '일반', PUBLIC, PUBLISHED, zero view/like/comment counts, no optional columns, and creation time = update time = now. |
| Signup.EmailShapedIff | src/components/SignupPage.js:45 | The e-mail predicate holds iff the text contains, somewhere, non-space characters, '@', non-space characters, '.', and a non-space character. |
| Signup.IdAccepted | src/components/SignupPage.js:35-41 | The id is accepted iff it has at least 4 characters and only [A-Za-z0-9_]; a non-blank id of at least 4 UTF-16 units with another character gets the charset message. Length and charset are checked untrimmed. |
| Signup.AstralIdCharset | src/components/SignupPage.js:37-40 | Two emoji are 4 UTF-16 units: the id passes the length rule and gets the charset message. |
| Text.Utf16LengthBmp | src/components/SignupPage.js:37 | JavaScript's `length` equals the character count iff every character lies in the Basic Multilingual Plane. |
| Signup.EmailAccepted | src/components/SignupPage.js:43-47 | The e-mail is accepted iff it has the \S+@\S+\.\S+ shape. |
| Signup.PasswordsAccepted | src/components/SignupPage.js:49-59 | The password is accepted iff it is at least 6 UTF-16 units long (6 characters when all lie in the Basic Multilingual Plane); the confirmation iff it is non-empty and equal to the password. |
| Signup.AstralPasswordAccepted | src/components/SignupPage.js:51 | Three emoji are 6 UTF-16 units, so that three-character password is long enough. |
| Signup.Recorded | src/components/SignupPage.js:33-61 | The error map has a key exactly for each field with a message and is empty iff no field failed. |
| Signup.FormValidIff | src/components/SignupPage.js:32-62 | The form is valid iff the id has at least 4 characters of [A-Za-z0-9_], the e-mail matches the pattern, the password has at least 6 UTF-16 units and the confirmation equals it. |
| Signup.CheckId | src/components/SignupPage.js:35-41 | The message is the first id rule broken, in order: required iff the trimmed id is blank; too short iff non-blank and under 4 UTF-16 units; charset iff non-blank, at least 4 units and not only [A-Za-z0-9_]; none iff at least 4 characters of [A-Za-z0-9_]. |
| Signup.CheckEmail | src/components/SignupPage.js:43-47 | The message is required iff the trimmed e-mail is blank, malformed iff it is non-blank and the pattern matches nowhere, and none iff the pattern matches. |
| Signup.CheckPassword | src/components/SignupPage.js:49-53 | The message is required iff the password is empty, too short iff it is non-empty with fewer than 6 UTF-16 units, and none iff it has at least 6. |
| Signup.CheckConfirm | src/components/SignupPage.js:55-59 | The message is required iff the confirmation is empty, mismatch iff it is non-empty and differs from the password, and none iff it is non-empty and equal. |
| Signup.ReplyError | src/components/SignupPage.js:99-133 | There is no error iff the reply is ok and carries a non-empty UserSub. |
| Signup.UnknownErrorCarriesMessage | src/components/SignupPage.js:127-129 | An unlisted error type gives a message that contains the server's message. |
| Signup.SignupPage.constructor | src/components/SignupPage.js:6-15 | The form starts with four empty fields, no errors and not loading. |
| Signup.SignupPage.HandleChange | src/components/SignupPage.js:17-30 | Only the named field changes, and its error is cleared only when one was set. |
| Signup.SignupPage.ValidateForm | src/components/SignupPage.js:32-63 | The recorded errors are the form's rule results, and the result is true iff none was recorded. |
| Signup.SignupPage.HandleSubmit | src/components/SignupPage.js:65-137 | An invalid form records its errors and sends nothing; a reply with UserSub signs up the user (id, sub, e-mail) and goes to /login; any other reply sets only the general error; loading ends. |
| WritePost.Body | Front/src/components/WritePostPage.js:61-66 | The request body is an object of exactly four members; their values are stated by `BodyFields`. |
| WritePost.GuardsIff | Front/src/components/WritePostPage.js:27-40 | A draft passes iff the trimmed title is non-empty and the trimmed content has at least 5 UTF-16 units (5 characters when all lie in the Basic Multilingual Plane); the title guard comes first, then the empty-content guard. |
| WritePost.AstralContentAccepted | Front/src/components/WritePostPage.js:37 | Three emoji are 6 UTF-16 units, so that three-character content passes the length guard. |
| WritePost.AuthorFallback | Front/src/components/WritePostPage.js:64 | The author is profile.name, else profile.username, else "Anonymous", and never empty. |
| WritePost.BodyFields | Front/src/components/WritePostPage.js:61-66 | The body is well-formed JSON carrying the title, content, author and category given. |
| WritePost.BodyRoundTrip | Front/src/components/WritePostPage.js:61 | Parsing the sent JSON gives back the body. |
| WritePost.ReplyFailureMeaning | Front/src/components/WritePostPage.js:69-80 | The reply counts as success iff it is ok with `success` true; a failure message is never empty. |
| WritePost.WritePostPage.constructor | Front/src/components/WritePostPage.js:9-15 | The editor starts empty, with category "전체", not loading and without error. |
| WritePost.WritePostPage.HandleInputChange | Front/src/components/WritePostPage.js:19-21 | Only the given field changes. |
| WritePost.WritePostPage.HandleSubmit | Front/src/components/WritePostPage.js:23-87 | A failing guard alerts and sends nothing; otherwise no token means an error and no request, a request sends the trimmed payload, success alerts and goes home, a failure sets the error; loading is false on every path. The copy in src/components/WritePostPage.js (lines 24-88) has the same handler and differs only in the endpoint. |
| WritePost.WritePostPage.HandleCancel | Front/src/components/WritePostPage.js:89-97 | The page asks for confirmation iff the trimmed title or content is non-empty, and goes home unless the user declines. The src/ copy's cancel (lines 90-98) is the same. |
| FrontApp.WithTokensFields | Front/src/App.js:89-94 | The stored user is the input with idToken, accessToken and refreshToken taken from id_token, access_token and refresh_token; every other key is kept. |
| FrontApp.TokensOfFields | Front/src/App.js:105-109 | The token record holds the same three tokens and nothing else. |
| FrontApp.StoredWellFormed | Front/src/App.js:102-110 | Both stored records are well-formed JSON when the input is. |
| FrontApp.LoginThenRestore | Front/src/App.js:102-110 | What a successful login stores is restored, on reload, as the same user record. |
| FrontApp.RestoreParsed | Front/src/App.js:52-62 | Two non-empty parseable entries whose tokens hold a truthy idToken restore the parsed user. |
| FrontApp.RestoreOutcomeMeaning | Front/src/App.js:47-75 | Nothing happens iff either entry is absent or empty; a restore means both parse and a token is truthy; unparseable tokens clear both entries. |
| FrontApp.App.constructor | Front/src/App.js:32-38 | The app starts with no user and logged out. |
| FrontApp.App.RestoreLoginState | Front/src/App.js:47-75 | Restores the user and logs in, or removes both keys and keeps the state, or changes nothing, as the restore outcome says. |
| FrontApp.App.HandleLogin | Front/src/App.js:77-113 | Without a truthy id_token: an alert and no change. Otherwise: logged in with the user-with-tokens, and exactly `currentUser` and `cognitoTokens` written. |
| FrontApp.App.HandleSignup | Front/src/App.js:115-121 | Logs the user in without touching storage. |
| FrontApp.App.HandleLogout | Front/src/App.js:123-138 | Removes exactly the two keys, logs out and alerts. |
| FrontApp.LoginSurvivesReload | Front/src/App.js:102-110 | A fresh App restoring from storage after a successful login is logged in with the same user. |
| FrontLogin.UserDataFields | Front/src/components/LoginPage.js:61-74 | The user record has distinct keys, the username, the derived e-mail, id_token = IdToken, accessToken = AccessToken and profile {name, username}; it has no access_token or refresh_token key. |
| FrontLogin.EmailRule | Front/src/components/LoginPage.js:66 | The e-mail is the username when it contains '@', and otherwise the username + "@cognito.local". |
| FrontLogin.OutcomeMeaning | Front/src/components/LoginPage.js:58-102 | Sign-in succeeds iff the reply is ok with a truthy AuthenticationResult; otherwise the challenge message, the error-type message or the network message. |
| FrontLogin.ChallengeMessageMeaning | Front/src/components/LoginPage.js:79-85 | NEW_PASSWORD_REQUIRED and SMS_MFA each get their own message, and everything else gets the generic failure, in both directions. |
| FrontLogin.ErrorTypeMessageMeaning | Front/src/components/LoginPage.js:90-98 | Each of the three known error types gets its fixed message, in both directions. |
| FrontLogin.UnknownTypeCarriesMessage | Front/src/components/LoginPage.js:96-98 | Any other type gets a message containing the server's message. |
| FrontLogin.LoginPage.constructor | Front/src/components/LoginPage.js:9-15 | The form starts empty, hidden password, not loading, no error. |
| FrontLogin.LoginPage.HandleInputChange | Front/src/components/LoginPage.js:18-21 | Only the named field changes. |
| FrontLogin.LoginPage.TogglePasswordVisibility | Front/src/components/LoginPage.js:23-25 | The visibility flag flips and nothing else changes (so twice restores it). |
| FrontLogin.LoginPage.HandleLogin | Front/src/components/LoginPage.js:27-106 | Empty credentials: error, no request. Otherwise the outcome decides: success hands the user record to onLogin and goes home, failure sets its message; loading is false on every path. |
| BoardLogin.OnLoginRecordFields | src/components/LoginPage.js:30-34 | onLogin gets exactly username, accessToken and idToken from the result, and no e-mail. |
| BoardLogin.CodeMessage | src/components/LoginPage.js:40-49 | The three known codes get their fixed messages; any other code, or none, gets "로그인에 실패했습니다.". |
| BoardLogin.LoginPage.constructor | src/components/LoginPage.js:8-13 | The form starts empty, not loading, with no message. |
| BoardLogin.LoginPage.HandleLogin | src/components/LoginPage.js:16-53 | Empty credentials: the input error, no call to the service. Otherwise the service stores the session, onLogin gets the record, the page goes home, and loading ends. |
| AuthService.UserJsonWellFormed | src/services/AuthService.js:8-16 | The stored user record is well-formed JSON. |
| AuthService.MadeUpTokens | src/services/AuthService.js:8-13 | Both tokens are non-empty and the e-mail is username + "@example.com". |
| AuthService.CurrentUserParsed | src/services/AuthService.js:41-43 | A non-empty stored user is returned parsed. |
| AuthService.LoginThenCurrentUser | src/services/AuthService.js:8-18 | After a login the current user is that login's record and the token is valid. |
| AuthService.LogoutThenNoUser | src/services/AuthService.js:29-35 | After logout there is no current user and the token is not valid. |
| AuthService.Service.constructor | src/services/AuthService.js:65 | The service works on the given storage. |
| AuthService.Service.Login | src/services/AuthService.js:3-25 | Login succeeds iff both username and password are non-empty; success writes user, accessToken and idToken; failure rejects and leaves storage untouched. |
| AuthService.Service.Logout | src/services/AuthService.js:28-36 | Removes exactly user, accessToken and idToken. |
| AuthService.Service.GetCurrentUser | src/services/AuthService.js:39-48 | No user iff the key is absent or empty; otherwise the parse of the stored text. |
| AuthService.Service.IsTokenValid | src/services/AuthService.js:51-54 | Holds iff a non-empty accessToken is stored. |
| AuthService.Service.GetStoredTokens | src/services/AuthService.js:57-62 | Each token is present iff its key is stored, with the stored value. |
| ApiConfig.ReplaceFirstMeaning | src/config/api-config.js:78 | `replace` changes nothing when the placeholder does not occur; otherwise only its first occurrence is replaced, and a value without '$' goes in verbatim. |
| ApiConfig.BuildApiUrl | src/config/api-config.js:73-82 | The loop yields base URL + endpoint with each parameter's placeholder substituted in turn; with no parameters it is base URL + endpoint. |
| ApiConfig.AbsentPlaceholdersStay | src/config/api-config.js:77-79 | Parameters whose placeholders do not occur leave the URL unchanged. |
| ApiConfig.OneParameter | src/config/api-config.js:77-79 | One parameter replaces exactly the first occurrence of its placeholder. |
| ApiConfig.GetApiConfig | src/config/api-config.js:69 | As written, the lookup returns an inherited Object.prototype member exactly for the inherited names. |
| ApiConfig.InheritedNameIsNoConfig | src/config/api-config.js:69 | "toString" yields the inherited member, not a configuration. |
| ApiConfig.GetApiConfigOwnMeaning | src/config/api-config.js:50-70 | staging and production get their entries, every other name (and undefined) gets development, and this agrees with the code whenever the code yields an entry. |
| ApiConfig.ErrorMessage | src/config/api-config.js:85-96 | A message exists exactly for the ten listed codes, and none is empty. |
| ApiConfig.RetryableCodes | src/config/api-config.js:99 | The retryable codes are exactly 408, 429, 500, 502, 503 and 504; of these only 408 and 429 have no message. |
| ApiService.FirstSuccess | src/services/ApiService.js:113-116 | The first succeeding attempt below the bound, with every earlier one failed, or none when all fail. |
| ApiService.Waits | src/services/ApiService.js:120 | The i-th wait is delay × (i + 1). |
| ApiService.RetryRequest | src/services/ApiService.js:112-123 | The loop's result and number of calls are those of the specification, and it waits once before each retry (none after the last attempt). |
| ApiService.RetryMeaning | src/services/ApiService.js:112-123 | At most maxRetries calls; maxRetries ≤ 0 gives undefined without calling; a return is the first success; a throw follows maxRetries failures and rethrows the last error. |
| ApiService.HandleResponseMeaning | src/services/ApiService.js:98-109 | An ok response returns its body; a non-ok one throws {status, statusText, data, message} with message = errorData.message or "<service> 요청 실패". |
| ApiService.Service.constructor | src/services/ApiService.js:6-10 | The service works on the given storage. |
| ApiService.Service.Logout | src/services/ApiService.js:76-95 | Removes exactly accessToken, backendAccessToken, idToken and refreshToken, and returns true. |
| ApiService.Service.HandleError | src/services/ApiService.js:51-60 | Always rethrows the error (a missing one throws a TypeError); a 401 starts the refresh, whose failure logs out; nothing else changes storage. |
| CommonLayout.DisplayUsernameMeaning | Front/src/components/CommonLayout.js:40 | The name is a truthy username, else a truthy sub, else the e-mail's text before its first '@' if non-empty, else "사용자"; it is never empty, and for string fields it never throws. |
| CommonLayout.DisplayInitialMeaning | Front/src/components/CommonLayout.js:41 | The initial is the display name's first character, upper-cased with the one-character case map of `Text.UpperChar` (see Left out). |
| CommonLayout.WriteAction | Front/src/components/CommonLayout.js:25-31 | Calls onWritePost iff it is provided, otherwise navigates to /write. |
| CommonLayout.LogoutAction | Front/src/components/CommonLayout.js:33-37 | Calls onLogout iff it is provided, and never navigates by itself. |
| CommonLayout.OneActiveCategory | Front/src/components/CommonLayout.js:132 | At most one button is active, and one is iff the active category is one of the five names. |
| Flows.SignInKeepsOnlyIdToken | Front/src/App.js:89-110 | After a Front sign-in, the stored user and tokens keep the id token and username but lose the access and refresh tokens. |
| Flows.WrittenPostAccepted | Post-master/post/routes.py:404-407 | A draft that passes the editor's guards, in a non-empty category, passes the server's required-field check. |
| Json.SurrogatePairEscape | Front/src/App.js:53-54 | JSON.parse reads the escaped UTF-16 pair `\uD83D\uDE00` as the one character U+1F600. |
| Json.DecodeEncode | Front/src/App.js:53-54 | JSON.parse gives back every well-formed value JSON.stringify wrote. |

## Left out

- Network I/O: fetch calls, the Cognito HTTP API, `call_user_service`, `notify_user_activity` and boto3. Their outcomes are input parameters.
- SQLAlchemy queries, `paginate`, and commit/rollback. The database is maps, a scan order and a like set; the page slice of a listing is not modelled (`ListPosts` returns the whole ordered selection).
- `save_image_locally`, werkzeug password hashing and `User.check_password`: filesystem, image probing and a foreign library.
- Date parsing and formatting: timestamps are integers, and the `isoformat()` strings of the JSON replies are integers too.
- `Promise.allSettled` health checks, the dynamic import in `refreshCognitoToken`, the `setTimeout` in `checkUrlCategory`, and asynchronous `setState`. Every update is treated as sequential and immediate.
- The PostReaction table is not modelled; it is not used by the modelled routes. The Like table's `(post_id, user_id)` uniqueness is built into the model: likes are a set of pairs.
- PostRoutes.PostStore.LikePost: like_post and toggle_like are registered for the same URL, and Flask dispatches to the first. The model covers both handlers through its `route` argument: the checks through `LikeUser`, the replies through `LikeResponse`, and the shared toggle through `PostStore.ToggleLike`. It does not model the dispatch itself.
- PostRoutes.SelectionMeaning: `order_by` leaves the order of rows with equal sort keys to the database. The model fixes it to the table scan order.
- PostRoutes.LikeContains: the search is SQLite's `LIKE`, which folds ASCII case only. The collation-dependent `LIKE` of MySQL, used when `DATABASE_URL` is set, is not modelled.
- MainBoard.SearchViewExact: `toLowerCase` is modelled by a one-character map of the ASCII and Latin-1 capitals (`Text.LowerChar`). Other case pairs, such as "Σ" and "σ", match in JavaScript but not in the model.
- CommonLayout.DisplayInitialMeaning: `toUpperCase` is modelled by the ASCII and Latin-1 one-character map, so "ßeta" gives "ß" where JavaScript gives "SS". `charAt(0)` takes the whole first character, where JavaScript takes its first UTF-16 unit. For a character outside the Basic Multilingual Plane that unit is a lone surrogate, which a Dafny string cannot hold.
- PostRoutes.PostStore.UpdatePost: a list or object for author_id, or a non-string visibility or status, is answered with 500, standing in for the database error at commit. The Enum columns follow SQLAlchemy 1.4 and later: any string is written, and every later load of that row raises LookupError, answered with 500 (`Loadable`). SQLAlchemy 1.3, whose CHECK constraint refuses the update itself, is not modelled.
- PostRoutes.ListPostsMeaning: the model answers 500 when any selected row cannot be loaded. The source loads only the rows of the requested page, so a bad row on another page does not fail it; pagination is not modelled.
- Json.ParseChar: a `\u` escape of a lone surrogate is refused. JSON.parse accepts it, but the string it yields cannot be held in a Dafny string. Escaped surrogate pairs are combined.
- AuthService.Service.Login: both tokens use one reading of the clock, where the source calls `Date.now()` twice.
- ApiService.Service.HandleError: the refresh runs to completion before the rethrow. In the source it is started asynchronously and finishes later.
- JSON numbers are integers; floating point is not modelled.
- JSX rendering, CSS, routing, the thin service wrappers (PostService, CommentService, UserService), `aws-config.js`, `config.py`, and the views that only fetch and render (MyPage, PostDetail, ProfilePopup, Front/App.js).

## Findings

| source | as written | input that shows it | evidently intended | confidence | as-written member | corrected member |
|---|---|---|---|---|---|---|
| src/config/api-config.js:69 | `configs[environment] \|\| configs.development` also reads properties inherited from Object.prototype | `getApiConfig("toString")` returns the `toString` function, which is truthy, so the fallback is skipped | only development, staging and production have entries; every other name falls back to development | high, not executed | ApiConfig.InheritedNameIsNoConfig | ApiConfig.GetApiConfigOwnMeaning |
