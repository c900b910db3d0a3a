# Post domain of the surge-social backend, modelled in Dafny

This project models the post domain of the backend of a small social
network: the Post model's queries and its like toggle, the post service that
paginates and shapes posts for the client, the post and auth request DTOs,
the request validation middleware and the controllers' response envelope.

The document store is replaced by an in-memory collection. `PostCollection`
is a class whose field `posts` holds the stored posts in insertion order.
Queries are functions that read it. Creating a post and toggling a like are
methods that change it. Populating a post's `user` reference is a lookup in
a `Directory` that stands for the user collection.

Modules, one per source file:

- `Wrappers` (`wrappers.dfy`): `Option` and `Result`.
- `PostModel` (`post_model.dfy`): `backend/src/models/Post.ts`.
- `PostService` (`post_service.dfy`): `backend/src/services/post.service.ts`.
- `PostDto` (`post_dto.dfy`): `backend/src/dtos/post.dto.ts`.
- `AuthDto` (`auth_dto.dfy`): `backend/src/dtos/auth.dto.ts`.
- `Constraints` (`constraints.dfy`): the class-validator decorators used by
  the two DTO files. A request property is `Undefined`, `Null`, a string or
  something else. The rule messages are the library's default texts.
- `ValidationMiddleware` (`validation_middleware.dfy`):
  `backend/src/middleware/validation.middleware.ts`.
- `BaseController` (`base_controller.dfy`):
  `backend/src/controllers/base.controller.ts`.

Points where the code behaves differently from what one might expect, and
the model follows the code:

- A create request with empty content passes the DTO, because
  `@MaxLength(1000)` is the only length rule on `content`. The schema's
  `required: true` on `content` rejects the empty string instead, so the
  store refuses the post and stores nothing (`PostCollection.CreatePost`).
- `hasMore == total > page * limit` holds only for `limit >= 1`. The store
  passes `limit` to the document store, where a limit of 0 means "no limit".
  So with `limit == 0` every post is on the page and `hasMore` is false
  (`PostService.HasMoreBeyondPage`).
- `toggleLike` removes only the first occurrence of the user. It keeps
  "no duplicate likes" only because every post the model creates starts
  with no likes and each toggle keeps the property (`PostCollection.Valid`).
- The length limits of the request DTOs do not count the presentation
  selectors U+FE0E and U+FE0F, and count a character outside the Basic
  Multilingual Plane once. So they count code points other than those two
  (`Constraints.ValidatorLength`).
- The sort on `createdAt` has no tie-break. The contracts say only "a
  newest-first order of the user's posts" (`IsNewestFirstPage`). The
  insertion sort in the model is one such order and nothing relies on which
  one it picks.
- `typeof document.user === "object"` in `fromDocument` is true for a bare
  ObjectId and for a populated user alike. So the branch depends only on
  whether a populated user is passed.

## Model

| member | source | states |
|---|---|---|
| `PostModel.FirstIndexOf` | backend/src/models/Post.ts:103-105 | the index of the first occurrence, and -1 exactly when the value is absent |
| `PostModel.FindIndex` | backend/src/models/Post.ts:103-107 | the `findIndex` loop returns the first index of the user in the likes, or -1 |
| `PostModel.ByUser` | backend/src/models/Post.ts:72 | the filter keeps every post of the user with its multiplicity, and nothing else |
| `PostModel.SortNewestFirst` | backend/src/models/Post.ts:73 | the result is ordered non-increasing by `createdAt` and is a permutation of the input |
| `PostModel.Window` | backend/src/models/Post.ts:74-75 | element i of the window is element skip+i of the input; a non-zero limit caps the length; the window runs to the end unless the limit stops it |
| `PostModel.WindowLength` | backend/src/models/Post.ts:74-75 | the window holds all elements from `skip` on, capped at `limit` when `limit` is non-zero |
| `PostModel.UserPage` | backend/src/models/Post.ts:72-75 | the returned page is newest first, is the skip/limit window of a newest-first order of the user's posts, and holds only stored posts of the user, whose author is known |
| `PostModel.Populate` | backend/src/models/Post.ts:76 | no contract of its own: `populate("user", "username")` as a directory lookup; its result is stated in `PostCollection.GetPostById`, `GetPostsByUserId` and `CreatePost` |
| `PostModel.PostCollection.FindById` | backend/src/services/post.service.ts:43 | a post is found exactly when its id is stored, and it is the stored post with that id |
| `PostModel.PostCollection.GetPostById` | backend/src/models/Post.ts:84-86 | a document exactly when the id is stored, holding that post with its author populated |
| `PostModel.PostCollection.GetPostsByUserId` | backend/src/models/Post.ts:67-82 | `total` counts all the user's posts; the page is the skip/limit window of a newest-first order of them; every entry is the user's and populated; the page is non-increasing by `createdAt` |
| `PostModel.PostCollection.CreatePost` | backend/src/models/Post.ts:88-93 | empty content is refused by the schema's required `content` (lines 48-51) with nothing stored; any other content appends the new post with no likes, findById then finds it and the returned document is populated; unique ids, non-empty content and duplicate-free likes are kept |
| `PostModel.PostCollection.ToggleLike` | backend/src/models/Post.ts:95-114 | a missing post gives None and changes nothing; otherwise only that post's likes change, to the toggled likes, and the saved post is returned populated; unique ids and duplicate-free likes are kept |
| `PostModel.Toggled` | backend/src/models/Post.ts:107-111 | no contract of its own: push when absent, splice out the first occurrence when present; characterised by `ToggledShape` and `ToggleFlipsMembership` |
| `PostModel.ToggledShape` | backend/src/models/Post.ts:103-111 | an absent user is appended after all prior likes; for a present user exactly the first occurrence is spliced out and the others keep their order |
| `PostModel.ToggleFlipsMembership` | backend/src/models/Post.ts:103-111 | on duplicate-free likes the user's membership flips, nobody else's changes, and the multiset gains or loses exactly that user |
| `PostModel.ToggleKeepsNoDuplicates` | backend/src/models/Post.ts:103-111 | a toggle never introduces a duplicate like |
| `PostModel.ToggleTwiceFromAbsent` | backend/src/models/Post.ts:103-111 | like then unlike restores the exact original likes |
| `PostModel.ToggleTwiceFromPresent` | backend/src/models/Post.ts:103-111 | unlike then like gives the same multiset of likes, with the user moved to the end |
| `PostModel.ToggleTimesKeepsNoDuplicates` | backend/src/models/Post.ts:103-111 | any number of toggles by one user keeps the likes duplicate-free |
| `PostModel.ToggleParity` | backend/src/models/Post.ts:103-111 | after n toggles the user is a member exactly when membership before and the parity of n say so |
| `PostModel.ToggleParityFromAbsent` | backend/src/models/Post.ts:103-111 | starting from "absent", an even number of toggles restores the likes exactly and an odd number appends the user |
| `PostModel.LikeThenUnlike` | backend/src/models/Post.ts:95-114 | two store toggles by a user who had not liked the post leave the whole collection unchanged |
| `Constraints.PropertyErrors` | backend/src/middleware/validation.middleware.ts:16 | a property yields no error exactly when it is optional and undefined or null, or meets every rule; otherwise exactly one error, naming it, with at least one message |
| `Constraints.ValidatorLength` | backend/src/dtos/auth.dto.ts:12-15 | the length the @MinLength and @MaxLength checks compare never exceeds the number of code points; presentation selectors are not counted (`ValidatorLengthPlain`, `ValidatorLengthAppendSelector`) |
| `Constraints.ValidatorLengthPlain` | backend/src/dtos/auth.dto.ts:12-15 | the checked length equals the number of code points exactly when the string holds no U+FE0E or U+FE0F |
| `Constraints.ValidatorLengthAppendSelector` | backend/src/dtos/post.dto.ts:8-10 | appending U+FE0E or U+FE0F leaves the checked length unchanged |
| `AuthDto.RegisterErrors` | backend/src/dtos/auth.dto.ts:3-16 | no contract of its own: the decorator lists of `RegisterDto`, in field order; characterised by `RegisterAcceptedIff` and `RegisterErrorPerField` |
| `AuthDto.LoginErrors` | backend/src/dtos/auth.dto.ts:18-24 | no contract of its own: the decorator lists of `LoginDto`; characterised by `LoginAcceptedIff` |
| `AuthDto.RegisterAcceptedIff` | backend/src/dtos/auth.dto.ts:3-16 | a registration body yields no errors exactly when the e-mail is well formed, the username has 3 to 20 characters and the password 8 to 64, counted as the validator counts them |
| `AuthDto.RegisterErrorPerField` | backend/src/dtos/auth.dto.ts:3-16 | one error per failing registration field, each naming email, username or password |
| `AuthDto.LoginAcceptedIff` | backend/src/dtos/auth.dto.ts:18-24 | a login body yields no errors exactly when the e-mail is well formed and the password is a string |
| `AuthDto.LoginPasswordUnbounded` | backend/src/dtos/auth.dto.ts:22-23 | with a valid e-mail, a login password of any length passes |
| `AuthDto.ExampleEmailIsEmail` | backend/src/__tests__/auth.routes.test.ts:24 | the test user's e-mail is well formed |
| `AuthDto.RegisterExampleAccepted` | backend/src/__tests__/auth.routes.test.ts:23-27 | the test user's registration body passes validation |
| `AuthDto.ShortPasswordRejected` | backend/src/__tests__/auth.routes.test.ts:65-75 | password "123" gives exactly one error, the password's minimum-length message |
| `AuthDto.InvalidEmailRejected` | backend/src/__tests__/auth.routes.test.ts:53-63 | e-mail "invalid-email" gives exactly one error, "email must be an email" |
| `AuthDto.SelectorDoesNotLengthenPassword` | backend/src/dtos/auth.dto.ts:12-15 | seven letters followed by U+FE0F are still a password too short to register |
| `PostDto.CreatePostErrors` | backend/src/dtos/post.dto.ts:7-15 | no contract of its own: the decorator lists of `CreatePostDto`; characterised by `CreatePostAcceptedIff` |
| `PostDto.UpdatePostErrors` | backend/src/dtos/post.dto.ts:17-26 | no contract of its own: the decorator lists of `UpdatePostDto`; characterised by `UpdatePostAcceptedIff` |
| `PostDto.SelectorDoesNotLengthenContent` | backend/src/dtos/post.dto.ts:8-10 | content within the limit stays within it with a trailing U+FE0F |
| `PostDto.DisplayName` | backend/src/dtos/post.dto.ts:67 | the name is never empty; it is "Unknown" exactly when the username is missing, empty or itself "Unknown", and otherwise the username |
| `PostDto.CreatePostAcceptedIff` | backend/src/dtos/post.dto.ts:7-15 | a create body yields no errors exactly when content is a string of at most 1000 characters and the image URL is absent, null or a string |
| `PostDto.EmptyContentAccepted` | backend/src/dtos/post.dto.ts:8-10 | empty content with no image URL passes the create DTO |
| `PostDto.UpdatePostAcceptedIff` | backend/src/dtos/post.dto.ts:17-26 | an update body yields no errors exactly when every given field is a string and given content has at most 1000 characters |
| `PostDto.FromDocument` | backend/src/dtos/post.dto.ts:52-78 | id, content, image URL and createdAt are copied; likes keep their length and order; with a populated user its id and username are used, "Unknown" for a missing or empty name; otherwise the bare author id with "Unknown" |
| `PostService.ToResponses` | backend/src/services/post.service.ts:24-26 | one response per document, in the same order, each from `fromDocument` with the populated author |
| `PostService.GetPostsByUserId` | backend/src/services/post.service.ts:15-30 | the store is queried with skip (page-1)*limit; total passes through; the posts are the mapped page; hasMore is total > skip + page length; every entry names the user and the user's display name |
| `PostService.PageSize` | backend/src/models/Post.ts:71-79 | the store's page holds all matching posts from skip on, capped at a non-zero limit |
| `PostService.HasMoreBeyondPage` | backend/src/services/post.service.ts:16-28 | for limit >= 1, hasMore holds exactly when total > page*limit; for limit 0 every post is on the page and hasMore is false |
| `PostService.NoPostsEmptyPage` | backend/src/services/post.service.ts:15-30 | a user with no posts gets `{posts: [], total: 0, hasMore: false}` |
| `PostService.GetPostById` | backend/src/services/post.service.ts:42-49 | a missing id gives "Post not found"; otherwise the stored post's fields, with the bare author id and username "Unknown" |
| `PostService.CreatePost` | backend/src/services/post.service.ts:6-13 | fails, with nothing stored, exactly when the content is empty; otherwise the stored post's author is the caller, not any `user` in the request, and the response carries the new post with no likes and the caller's display name |
| `PostService.ToggleLike` | backend/src/services/post.service.ts:32-40 | "Post not found" exactly when the post is missing, with nothing changed; otherwise the response is the toggled post, whose likes hold the caller exactly when they did not before |
| `ValidationMiddleware.JoinLength` | backend/src/middleware/validation.middleware.ts:7 | a join holds every part and one separator between each two neighbours |
| `ValidationMiddleware.JoinAppend` | backend/src/middleware/validation.middleware.ts:7 | joining one more part appends the separator and that part |
| `ValidationMiddleware.FormatErrors` | backend/src/middleware/validation.middleware.ts:5-9 | one string per error, in the same order, each the error's messages joined with ", " |
| `ValidationMiddleware.FormatErrorsSmallCases` | backend/src/middleware/validation.middleware.ts:7 | an error with no messages formats to "", one with a single message to that message |
| `ValidationMiddleware.ValidateDto` | backend/src/middleware/validation.middleware.ts:12-26 | with errors: status 400 with the formatted errors, body kept, `next` not called; without: the body becomes the instance and `next` is called once |
| `ValidationMiddleware.ValidateRegister` | backend/src/middleware/validation.middleware.ts:12-26 | in front of registration, a valid body calls `next` once and writes no response; any other body is answered 400 with its formatted errors and `next` is not called |
| `BaseController.SendResponse` | backend/src/controllers/base.controller.ts:4-17 | the status is used unchanged; data, message and error pass through; success holds exactly when the error is undefined or empty |
| `BaseController.Success` | backend/src/controllers/base.controller.ts:20-22 | the given status (200 by default), success, the data and no error |
| `BaseController.Error` | backend/src/controllers/base.controller.ts:24-26 | the given status (400 by default), no data or message, the error; success only for an empty error |
| `BaseController.DefaultStatuses` | backend/src/controllers/base.controller.ts:20-26 | defaults of 200 and 400; an empty error string still reads as success |

## Left out

- The ranked ("trending") feed: the controller calls a service method that
  does not exist, no route serves it, and any scoring needs floating-point
  logarithms.
- Document-store mechanics: `save`, `countDocuments`, `Promise.all` and
  connection handling. They are replaced by the in-memory collection. Ids
  are opaque strings, so a malformed id that the store would reject with a
  cast error is not modelled.
- `updatedAt`: a store-managed timestamp that no modelled operation reads.
  The store assigns the id and `createdAt` on insertion; the model takes
  both as inputs to `CreatePost`.
- Populate of a missing author, which yields null in the store: the store
  operations require that every stored post's author is in the directory
  (`AuthorsKnown`). No code path deletes users.
- PostDto.FromDocument: a populated document passed without a populated user
  (the string form of the whole user document would become the id) is
  excluded by its precondition. The service never does this.
- The lost-update race of `toggleLike` between its read and its save:
  toggles are modelled one after another.
- HTTP controllers, routes and query parsing. The service model requires
  `page >= 1` and `limit >= 0`, both integers. The controller's mapping of
  every service error to status 500 is not modelled. That includes the
  store's refusal of empty content, which the service reports as
  `Rejected(ContentRequired)`.
- Password hashing, JWT tokens, Passport strategies, the captcha check,
  configuration, the unmounted error handler, the user DTO and the frontend:
  library calls, network and I/O.
- Constraints.EmailFormat: a simplified stand-in for the library's e-mail
  check (one '@', a non-empty local part, no blanks, a dotted domain). It
  agrees with it on the test inputs.
- Constraints.Broken: the messages of one property are listed in the order
  the rules are declared. The library's own order is not modelled.
- Request properties that a DTO does not declare are kept by the transform.
  Only a stray `user` on a create request is modelled, because the service
  overrides it. Others, such as `likes`, would reach the store; the create
  route is disabled.
- Numbers, booleans, objects and arrays in a request body are all
  `NotString`. The rules in use treat them alike.
