# MERN blog: a Dafny model of its routes and client state

This project models the core of a small MERN blog application in Dafny.

On the server side (Express and Mongoose) it covers:

- the posts router: list, paginated list, get, create, update and delete, and the order in which Express dispatches these routes;
- the `Post` schema, and the upload-aware create and update handlers kept in the model file;
- the categories, comments and auth routers.

On the client side (React) it covers:

- the `BlogContext` provider with its post list, its upsert and delete updaters, the list fetches and the page state;
- the `useApi` hook's `request`, including its optimistic callback and the second call of that callback on failure;
- the pager of `PostList`;
- `PostForm`: its field rules, its multipart body, its submit path and its load effect;
- the `AuthContext` provider.

The database is a `Store.Db` object holding four `Tables.Table` values. A table is a map from id to record plus the insertion order. The model takes that order as the order in which `find()` returns documents; see "## Left out".

Each server handler is a method on `Db` or a function of a table, and it returns an `Http.Response`. A response is either a status with a body or a forward to the error middleware (`next(error)`). Client providers are classes whose fields are the React state variables, and each setter call is a field assignment.

Whatever is outside the program becomes a parameter:

- the network reply (`NetResult`);
- the fresh ObjectId;
- the clock reading;
- the password hash and compare functions;
- the browser's local storage (a map).

Nothing in the model performs I/O.

## What the model shows about the program

- **The paginated list never runs.** The router registers `GET /` twice, and the unpaginated handler comes first. So `GET /api/posts` always returns the bare array (`PostsRoutes.PaginatedListIsShadowed`). The client reads `data.posts` and `data.pages` from that array, and neither field exists.
- **Negative query values pass through.**
  - A negative `page` gives a negative `skip`, which the database server rejects, and the request is forwarded to the error middleware.
  - A negative `limit` is applied through its absolute value, and the reported page count comes out as zero or less (`PostsRoutes.NegativeQueriesPassThrough`).
- **A category name of blanks passes validation.** The presence check runs before the trim, and the model stores the name as `''` (`CategoriesRoutes.BlankNamePassesValidation`). The Category schema, which might refuse it, is not part of this model.
- **A comment can point at a post that does not exist.** Nothing checks the post id, and the comment is listed under it (`CommentsRoutes.CommentOnMissingPostIsListed`).
- **The start-up token check always fails.** `AuthContext` passes a headers object where `request` expects its optimistic callback. Calling that object throws, so the stored token is always removed and the user is never restored (`AuthContext.AuthProvider.Load`).
- **A failed delete does not restore the post.** The post view's delete callback returns the post on screen. On failure `request` calls the callback a second time, which deletes again instead of restoring (`UseApi.FailedDeleteDoesNotRestore`).
- **The optimistic create entry is never removed.**
  - The create form's optimistic entry carries a timestamp id.
  - After a successful create the server's post is added next to it (`PostForm.CreateKeepsOptimisticEntry`).
  - After a failed create the entry stays (`PostForm.FailedCreateGrowsList`).
- **Next can leave the page range.** With `totalPages` 0, Next is enabled on page 1 and moves to page 0 (`PostList.NoPagesLeavesRange`).
- **No request is authenticated.** `request` sends no `Authorization` header with any call (`UseApi.ApiHook.Request`). The comment route (server/routes/comments.js:21) is the registered route behind the auth middleware, so every comment this client submits is refused with 401.

## Model

| member | source | states |
|---|---|---|
| Common.TrimIsSlice | server/routes/posts.js:42 | A trimmed string is a contiguous slice of the input, and its ends are not blank. |
| Common.TrimEmptyIff | server/routes/categories.js:20 | Trimming gives the empty string exactly when the input is all blanks. |
| Common.TrimIdempotent | server/models/Post.js:4-8 | Trimming twice is the same as trimming once. |
| Common.Trim | server/routes/posts.js:42 | `trim()` never lengthens a string, and its result neither starts nor ends with white space. |
| Common.IsMongoId | server/routes/posts.js:20 | `isMongoId`: exactly 24 hexadecimal digits. |
| Common.DecimalString | client/src/components/PostForm.jsx:51 | `toString()` of a non-negative integer is a non-empty string of decimal digits, with no leading zero unless the number is 0. |
| Common.DecimalStringValue | client/src/components/PostForm.jsx:51 | The digits `toString()` writes read back to the number itself. |
| Common.DecimalStringInjective | client/src/components/PostForm.jsx:51 | Two different timestamps never give the same id string. |
| Tables.Table.Values | server/routes/posts.js:10 | `find()` returns one record per stored id, in insertion order. |
| Tables.Table.Insert | server/routes/posts.js:58-59 | Saving adds exactly the new id with its record and keeps the table well formed. |
| Tables.Table.Remove | server/routes/posts.js:115 | `findByIdAndDelete` removes exactly that id from the rows, and the new order is the old one with that id taken out. |
| Tables.Table.Replace | server/routes/posts.js:90-94 | `findByIdAndUpdate` changes only that id's record and leaves the order alone. |
| Tables.Table.FindFirst | server/routes/auth.js:22 | `findOne` returns the first id in insertion order whose record matches, or nothing when no record matches. |
| Tables.Table.Select | server/routes/comments.js:10 | `find(filter)` returns exactly the in-order filter of the stored records: the matching ones, once each, in insertion order. |
| Tables.InsertAppends | server/routes/posts.js:58-59 | After a save, `find()` returns the old list followed by the new record. |
| Tables.InsertThenRemove | server/routes/posts.js:115 | Deleting a freshly saved record gives back the table as it was before the save. |
| PostSchema.NewPost | server/models/Post.js:3-26 | A new document stores the title and author trimmed, keeps its content and category, and its image defaults to `''`. |
| PostSchema.NewPostTrimmed | server/models/Post.js:4-22 | The stored title and author are the inputs with only white space cut from either end, and trimming them again changes nothing. |
| PostSchema.Conforms | server/models/Post.js:3-22 | The schema's `required` checks: title, content, category and author are not `''`. |
| PostSchema.NewPostConformsIff | server/models/Post.js:3-22 | A new document passes the schema's `required` rules exactly when its trimmed title, its content and its trimmed author are all non-empty. |
| PostSchema.ApplyUpdate | server/routes/posts.js:90-94 | Each field the update gives replaces the stored one, with title and author trimmed. Each field it leaves out keeps its stored value. |
| PostSchema.UpdateConforms | server/routes/posts.js:93 | With `runValidators`, only the paths being set are checked, after the trim setters. |
| PostSchema.UpdateKeepsConformance | server/routes/posts.js:90-94 | With `runValidators`, an update that passes the schema rules keeps a conforming document conforming. |
| PostSchema.EmptyUpdateIsIdentity | server/routes/posts.js:92 | An update with every field undefined leaves the document unchanged. |
| PostSchema.UploadPath | server/models/Post.js:62 | The image path is `/uploads/` followed by the stored file name. |
| Store.InsertKeepsUsernamesUnique | server/routes/auth.js:22-27 | Saving a user whose name is not taken keeps usernames unique. |
| Store.InsertKeepsCategoriesSound | server/routes/categories.js:30-35 | Saving a category whose name is not taken keeps names unique, and every post's category reference still resolves. |
| PostsRoutes.IdSegment | server/routes/posts.js:18-19 | `:id` matches only `/<s>` or `/<s>/` for a non-empty segment `s` without a slash, and then gives `s`. |
| PostsRoutes.IdSegmentOf | server/routes/posts.js:18-19 | Every non-empty segment without a slash is matched as `:id`, with or without a trailing slash. |
| PostsRoutes.FirstMatch | server/routes/posts.js:8-126 | Express runs the first registered route that matches the verb and path, and no earlier route matches. |
| PostsRoutes.LaterDuplicateNeverRuns | server/routes/posts.js:126 | A route registered after another with the same verb and pattern is never chosen. |
| PostsRoutes.Dispatch | server/routes/posts.js:8-126 | A request reaches no handler exactly when no route matches it. Otherwise it reaches the handler of the first matching route in registration order. |
| PostsRoutes.PaginatedListIsShadowed | server/routes/posts.js:126-140 | No request reaches the paginated handler, and `GET /` always goes to the unpaginated list. |
| PostsRoutes.ListAllPosts | server/routes/posts.js:8-15 | The reply is 200 with every stored post once, in store order. |
| PostsRoutes.OrDefault | server/routes/posts.js:128-129 | `parseInt(q) || fallback` is the parsed value, or the fallback; it is never 0 when the fallback is not 0. |
| PostsRoutes.QueryDefaults | server/routes/posts.js:128-129 | A missing, unparsable or zero `page` becomes 1 and such a `limit` becomes 6. Any other value is kept, including a negative one. |
| PostsRoutes.CeilDiv | server/routes/posts.js:136 | `Math.ceil(total / limit)` is not negative for a positive limit and not positive for a negative one. |
| PostsRoutes.CeilDivIsCeiling | server/routes/posts.js:136 | For a positive limit, `pages` is the least integer with `pages * limit >= total`. |
| PostsRoutes.Window | server/routes/posts.js:131-134 | `skip(s).limit(n)` returns at most `n` records: the ones from position `s` on, or none once `s` is past the end. |
| PostsRoutes.ListPostsPage | server/routes/posts.js:126-140 | The handler forwards an error exactly when the skip is negative, which means `page < 1` with a positive limit or `page > 1` with a negative limit. Otherwise it replies 200. |
| PostsRoutes.PageAt | server/routes/posts.js:130-136 | A negative skip forwards an error. Otherwise the reply is 200, with `total` the store size, the page echoed, `pages` the ceiling and at most as many posts as the absolute value of `limit`. |
| PostsRoutes.PageAtContents | server/routes/posts.js:130-136 | A page with a non-negative skip holds at most `limit` posts, namely the stored posts from position `skip` on. `total` is the store size and `pages` is the ceiling of `total / limit`. |
| PostsRoutes.WindowOfValues | server/routes/posts.js:131-134 | The page's i-th post is the stored post at position `skip + i`. |
| PostsRoutes.PageContents | server/routes/posts.js:128-136 | Page `p` of size `l` holds the posts at positions `(p-1)*l` up to `p*l`: `Min(l, total-(p-1)*l)` of them, or none past the end. It reports `page == p` and `total` as the store size, and the page count is the ceiling. |
| PostsRoutes.PagePastEndIsEmpty | server/routes/posts.js:130-136 | A page after the last one replies 200 with no posts, and it reports the same total as page 1. |
| PostsRoutes.PositionWithinPages | server/routes/posts.js:136 | The page that holds position `k` is within the page count. |
| PostsRoutes.EntryOnPage | server/routes/posts.js:130-134 | Position `m` of page `q+1` is the stored post at position `q*limit + m`. |
| PostsRoutes.EveryPostOnItsPage | server/routes/posts.js:128-136 | Every stored post appears on page `k/limit + 1`, at offset `k % limit`, and that page is within the page count. |
| PostsRoutes.TenPostsSecondPage | server/routes/posts.js:128-136 | With 10 posts and the default limit of 6, page 2 holds exactly the last 4 stored posts and reports 2 pages. |
| PostsRoutes.NegativeQueriesPassThrough | server/routes/posts.js:128-134 | A negative page forwards an error. A negative limit replies 200 with at most `-limit` posts and a non-positive page count. |
| PostsRoutes.GetPost | server/routes/posts.js:18-36 | 400 with "Invalid post ID" exactly when the id is not an ObjectId, 404 exactly when it is one but unknown, and 200 with the stored post otherwise. |
| PostsRoutes.CreateErrors | server/routes/posts.js:41-46 | There are no validation errors exactly when the title, content and author are present and the category is an ObjectId. Each failing field contributes its own message. |
| PostsRoutes.SaveNewPost | server/routes/posts.js:58-60 | The new post is stored under a fresh id with trimmed fields and appended to the store order. The reply is 201 with it. |
| PostsRoutes.CreatePost | server/routes/posts.js:39-65 | 400 with the field errors, 400 "Category not found" for an unknown category, or 201 with the saved post. Only the posts table changes, and only on 201. |
| PostsRoutes.UpdateErrors | server/routes/posts.js:70-76 | An update passes exactly when the id is an ObjectId and every given field is non-empty (a valid ObjectId for the category). Otherwise the errors hold "Invalid post ID" for a bad id and "Title cannot be empty", "Content cannot be empty", "Valid category ID is required" or "Author cannot be empty" for each failing field. |
| PostsRoutes.UpdateDoc | server/routes/posts.js:83-92 | The update document sets exactly the fields the request gives, with title and author trimmed by the sanitizers. |
| PostsRoutes.UpdateStored | server/routes/posts.js:84-98 | The category is checked only when one is given. A schema failure is forwarded, an unknown id gives 404, and otherwise the stored post becomes the updated one and is returned. |
| PostsRoutes.UpdatePost | server/routes/posts.js:68-103 | Validation errors give 400, then the category check gives 400. A failing update validator is forwarded, an unknown id gives 404, and otherwise the stored post is replaced and returned. The posts table changes only on 200. |
| PostsRoutes.DeletePost | server/routes/posts.js:106-124 | 400 for a malformed id and 404 for an unknown one, each with the store unchanged. Otherwise the post is removed and the reply is "Post deleted successfully". |
| PostUploadRoutes.CreateImage | server/models/Post.js:62 | Without a file the image is `''`. With one it is `/uploads/<filename>`. |
| PostUploadRoutes.UpdateImage | server/models/Post.js:97-100 | The update sets the image exactly when a file was uploaded, to its upload path. |
| PostUploadRoutes.CreateWithImage | server/models/Post.js:36-70 | Without a user the reply is 401 and nothing changes. Otherwise the plain create runs, and the saved post carries the upload path as its image. |
| PostUploadRoutes.UpdateWithImage | server/models/Post.js:73-114 | Without a user the reply is 401. Otherwise the plain update runs, covering the 400, forward, 404 and 200 branches, and an uploaded file also replaces the image. The store changes only on 200. |
| PostUploadRoutes.NoFileSameAsPlainCreate | server/models/Post.js:57-63 | A create without a file stores the same document as the plain create route. |
| PostUploadRoutes.NoFileKeepsImage | server/models/Post.js:97-100 | An update without a file keeps the stored image. |
| CategoriesRoutes.ListCategories | server/routes/categories.js:7-14 | The reply is 200 with every category, in store order. |
| CategoriesRoutes.NameErrors | server/routes/categories.js:20 | The name is rejected exactly when it is empty before trimming. |
| CategoriesRoutes.BlankNamePassesValidation | server/routes/categories.js:20 | A name made only of blanks passes validation, and it is stored as the empty string. |
| CategoriesRoutes.CreateCategory | server/routes/categories.js:17-41 | 400 for an empty name and 400 "Category already exists" for a taken trimmed name, each with no change. Otherwise the category is saved with unique names kept, and 201 is returned. |
| CategoriesRoutes.CreateTwiceFails | server/routes/categories.js:30-35 | Creating the same name twice succeeds once, then answers "Category already exists", and the table grows by exactly one. |
| CommentsRoutes.ListComments | server/routes/comments.js:8-16 | The reply is exactly the in-order filter of the stored comments on the requested post: each matching comment once, in store order. |
| CommentsRoutes.AddComment | server/routes/comments.js:19-41 | 401 without a user and 400 for empty content, each with no change. Otherwise a comment with the trimmed content, the post id and the caller as author is saved, and 201 is returned. |
| CommentsRoutes.CommentOnMissingPostIsListed | server/routes/comments.js:30-35 | A comment saved under any post id, existing or not, is listed for that id. |
| AuthRoutes.RegisterErrors | server/routes/auth.js:11-14 | Registration passes validation exactly when the username is non-empty and the password has at least 6 characters. |
| AuthRoutes.LoginErrors | server/routes/auth.js:39-42 | Login passes validation exactly when the username and password are both non-empty. |
| AuthRoutes.Register | server/routes/auth.js:9-34 | 400 for validation errors or a taken trimmed username, each with no change. Otherwise the user is stored with a hashed password and unique usernames kept, and 201 is returned with the new id and name. |
| AuthRoutes.Login | server/routes/auth.js:37-60 | 400 exactly on validation errors. 401 "Invalid credentials" for an unknown user or a wrong password. 200 only for a stored user whose hash matches the password, and, with usernames unique, every such user gets 200 with its token and descriptor. |
| AuthRoutes.LoginAfterRegister | server/routes/auth.js:22-55 | Right after registering, logging in with the same name and password succeeds as the new user. |
| AuthRoutes.WrongPasswordAfterRegister | server/routes/auth.js:50-53 | Right after registering, a password that does not match the hash is refused with 401. |
| AuthRoutes.NewUserFoundFirst | server/routes/auth.js:50 | When a name is not taken, `findOne` on that name finds the newly saved user. |
| BlogContext.AddOrUpdate | client/src/context/BlogContext.jsx:46-54 | When a post with the id is listed, every element with that id is replaced in place. Otherwise the post is put in front of the unchanged list. |
| BlogContext.Delete | client/src/context/BlogContext.jsx:56-58 | The result has no post with the id and keeps every other post, and it is no longer than the input. |
| BlogContext.DeleteAppend | client/src/context/BlogContext.jsx:57 | The filter works piece by piece over a concatenation, so the other posts keep their order. |
| BlogContext.DeleteAbsent | client/src/context/BlogContext.jsx:57 | Deleting an id that is not listed changes nothing. |
| BlogContext.DeleteIdempotent | client/src/context/BlogContext.jsx:57 | Deleting the same id twice is deleting it once. |
| BlogContext.AddOrUpdateIdempotent | client/src/context/BlogContext.jsx:47-53 | Upserting the same post twice is upserting it once. |
| BlogContext.AddThenDelete | client/src/context/BlogContext.jsx:46-58 | Upserting a post with a new id and then deleting that id gives back the list. |
| BlogContext.BlogProvider.FetchPosts | client/src/context/BlogContext.jsx:15-29 | Success sets the posts and the page count and keeps any earlier error. Failure keeps the list and records the message. Either way loading ends false. |
| BlogContext.BlogProvider.FetchCategories | client/src/context/BlogContext.jsx:31-44 | Success sets the categories and failure records the message. Either way loading ends false and the posts are untouched. |
| BlogContext.BlogProvider.AddOrUpdatePost | client/src/context/BlogContext.jsx:46-54 | The post list becomes the upsert of the old list, and nothing else changes. |
| BlogContext.BlogProvider.DeletePost | client/src/context/BlogContext.jsx:56-58 | The post list becomes the old list without the id, and nothing else changes. |
| BlogContext.BlogProvider.SetPage | client/src/context/BlogContext.jsx:12 | Only the page changes. |
| PostList.PreviousPage | client/src/components/PostList.jsx:38 | Previous moves one page back and never goes below 1. |
| PostList.NextPage | client/src/components/PostList.jsx:46 | Next moves one page forward and never goes above `totalPages`. |
| PostList.PreviousDisabled | client/src/components/PostList.jsx:39 | Previous is disabled exactly on page 1. |
| PostList.NextDisabled | client/src/components/PostList.jsx:47 | Next is disabled exactly on page `totalPages`. |
| PostList.StepsStayInRange | client/src/components/PostList.jsx:38-47 | From a page in `1..totalPages`, both buttons keep the page in that range. |
| PostList.DisabledExactlyWhenNoMove | client/src/components/PostList.jsx:38-47 | On a page in range, a button is disabled exactly when pressing it would not move. |
| PostList.NoPagesLeavesRange | client/src/components/PostList.jsx:46-47 | With `totalPages` 0, Next is enabled on page 1 and moves to page 0. |
| UseApi.Callback.Snapshot | client/src/components/PostDetail.jsx:41-44 | The form's upsert callback returns a falsy value. The view's delete callback returns a truthy value exactly when a post is shown. |
| UseApi.Callback.Effect | client/src/components/PostForm.jsx:50-51 | The form's callback upserts its entry into the post list. The view's callback leaves no post with its id and keeps every other post. |
| UseApi.Invoke | client/src/hooks/useApi.js:45-48 | Calling the callback applies its effect to the blog's post list and changes nothing else there. |
| UseApi.ErrorText | client/src/hooks/useApi.js:56 | The error shown is the server's non-empty `message`, and otherwise "Something went wrong". |
| UseApi.ApiHook.Request | client/src/hooks/useApi.js:8-63 | Described in the breakdown below the table. |
| UseApi.FailedDeleteDoesNotRestore | client/src/hooks/useApi.js:58-60 | When a delete of a listed post fails while the post is shown, the second call deletes again, and the post stays out of the list. |
| UseApi.FailedUpsertKeepsEntry | client/src/components/PostForm.jsx:50-51 | The upsert callback is never called a second time, and its entry stays in the list. |
| PostForm.TitleError | client/src/components/PostForm.jsx:68 | The title is accepted exactly when it has at least 3 characters. An empty title gets "Title is required". |
| PostForm.ContentError | client/src/components/PostForm.jsx:76 | The content is accepted exactly when it has at least 10 characters. |
| PostForm.CategoryError | client/src/components/PostForm.jsx:85 | The category is accepted exactly when an option other than the placeholder is selected. |
| PostForm.AuthorError | client/src/components/PostForm.jsx:100 | The author is accepted exactly when it has at least 3 characters. |
| PostForm.SubmittableIff | client/src/components/PostForm.jsx:68-100 | `onSubmit` runs exactly when the title has at least 3 characters, the content at least 10, the author at least 3, and a category is chosen. |
| PostForm.Submittable | client/src/components/PostForm.jsx:64 | `handleSubmit` calls `onSubmit` only when no field rule fails. |
| PostForm.PlaceholderBlocksSubmit | client/src/components/PostForm.jsx:85-88 | Leaving the placeholder category selected always blocks the submit with "Category is required". |
| PostForm.FormEntries | client/src/components/PostForm.jsx:39-46 | The body has the four text fields in append order, plus `featuredImage` as a fifth entry exactly when a file was chosen. |
| PostForm.FormEntriesFields | client/src/components/PostForm.jsx:39-46 | The body carries the four text fields, and it carries `featuredImage` exactly when a file was chosen. |
| PostForm.LookUpField | client/src/components/PostForm.jsx:39-46 | Looking a name up in the body finds the four text fields first and then the image. |
| PostForm.Verb | client/src/components/PostForm.jsx:49-51 | Editing uses PUT and creating uses POST. |
| PostForm.Url | client/src/components/PostForm.jsx:49-51 | Editing targets `/api/posts/<id>` and creating targets `/api/posts`. |
| PostForm.Entry | client/src/components/PostForm.jsx:50-51 | The optimistic entry holds the form values under the route id, or under the decimal timestamp when creating. It has no image. |
| PostForm.PostFormView.Load | client/src/components/PostForm.jsx:18-36 | Without a user it navigates to `/login` and still fetches the post. On success the four form values are loaded, and on failure the message is shown. |
| PostForm.PostFormView.BuildFormData | client/src/components/PostForm.jsx:39-46 | The appended entries are exactly the form body. |
| PostForm.PostFormView.Submit | client/src/components/PostForm.jsx:38-57 | Described in the breakdown below the table. |
| PostForm.CreateKeepsOptimisticEntry | client/src/components/PostForm.jsx:50-52 | After a successful create with a server id different from the timestamp, both the optimistic entry and the saved post are listed. |
| PostForm.FailedCreateGrowsList | client/src/components/PostForm.jsx:50-55 | A failed create leaves the list one longer, with the optimistic entry in front. |
| AuthContext.HasToken | client/src/context/AuthContext.jsx:12-13 | The stored token counts only when it is present and not the empty string. |
| AuthContext.AuthProvider.Load | client/src/context/AuthContext.jsx:11-22 | Described in the breakdown below the table. |
| AuthContext.AuthProvider.Login | client/src/context/AuthContext.jsx:24-28 | The credentials are posted to the login route. Success stores the token and sets the user. Failure changes neither and passes the rejection on. |
| AuthContext.AuthProvider.Register | client/src/context/AuthContext.jsx:30-34 | The same steps as login, against the register route. |
| AuthContext.AuthProvider.SignIn | client/src/context/AuthContext.jsx:24-34 | The steps that login and register share. |
| AuthContext.AuthProvider.Logout | client/src/context/AuthContext.jsx:36-39 | The token is removed and the user is cleared. |

### Contracts of `Request`, `Submit` and `Load`

`UseApi.ApiHook.Request` (client/src/hooks/useApi.js:8-63):

- A callback that is not a function throws before anything is sent. `loading` then stays true.
- Otherwise exactly the call `(verb, url, data)` is sent, without headers.
- On success the data is returned.
- On failure the error text is recorded and the callback runs a second time if its first result was truthy.
- The blog's posts end up as one or two applications of the callback's effect.

`PostForm.PostFormView.Submit` (client/src/components/PostForm.jsx:38-57):

- An invalid form sends nothing.
- Otherwise it sends the body to the create or edit URL and upserts the optimistic entry first.
- On success it also upserts the server's post and navigates to `/`.
- On failure it shows the message and keeps the entry.

`AuthContext.AuthProvider.Load` (client/src/context/AuthContext.jsx:11-22):

- Without a token it only ends loading.
- With a token the check is rejected before any call is sent. The token is then removed, no user is set, and loading ends.

## Left out

- `populate('category', 'name')`, `populate('author', 'username')` and the `timestamps` fields: the replies carry the stored records as they are.
- ObjectId generation is a fresh-id parameter.
- `isMongoId`: modelled as 24 hex digits. The validator's other accepted forms are not modelled.
- Ids are compared as plain strings, so letter case matters. Mongoose casts a hex id to an ObjectId without regard to case, so `GET /api/posts/<a stored id in upper case>` answers 200 in the program and 404 in the model (`PostsRoutes.GetPost`, `PostsRoutes.UpdatePost`, `PostsRoutes.DeletePost`).
- Store order is an assumption. With no sort, MongoDB does not promise any order. The model takes insertion order as the order `find()` returns, and the listing and pagination properties (`PostsRoutes.ListAllPosts` through `PostsRoutes.TenPostsSecondPage`, `Tables.Table.Select`) rest on it.
- A field left out of an update request is `undefined` in the update document. The model drops it, leaving the stored value, which is what Mongoose does from version 6 on. Earlier versions behave differently, and that is not modelled.
- `parseInt`: its result is an input (`Option<int>`, where `None` is `NaN`). The parsing of query strings, and the `Dispatch` handling of query strings, are not modelled.
- `Math.ceil(total / limit)` is computed on integers. That is exact for the integer inputs the handler can see.
- String lengths are counted in characters, not UTF-16 code units.
- bcrypt hashing and comparison are the parameters `hash` and `matches`. JWT signing and expiry are not modelled: the token is the one the reply carries.
- The auth middleware is reduced to "caller is present or not", and `verify` has no route in the model. The middleware's source is not part of this model.
- The Comment, User and Category schemas are not part of this model. Only the fields the routes use are kept, and those schemas' validators are not applied.
- The Multer storage and its errors: an upload is its stored file name.
- The upload-aware routes in `server/models/Post.js` refer to `router`, `authMiddleware` and validators that the file never declares. They are modelled as the handlers they are written as, not as routes that any router registers.
- `useApi`'s nested `useApi` definition (client/src/hooks/useApi.js:12-42) is declared inside `request` and never called, so it has no effect and is not modelled.
- React rendering, effects scheduling, batching and the asynchronous interleaving of requests: each method runs one handler or effect to completion.
- JSX output, `NavBar`, `layout`, `login`, `App` routing and `PostDetail` rendering. Only the delete callback of `PostDetail` is modelled, as `UseApi.Callback`.
- BlogContext.BlogProvider.FetchPosts: takes the reply already shaped as `{posts, pages}`. The server actually answers with a bare array (see `PostsRoutes.PaginatedListIsShadowed`), so `data.posts` would be undefined there.
- `UseApi.Get`, the `FormData.get` lookup, carries no contract of its own. Its results are stated through `PostForm.LookUpField`.
