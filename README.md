# Celebrity and film catalogue: client-side bookkeeping

This project models the client-side logic of a web catalogue of celebrities and films. Signed-in users can mark favorites, comment on a celebrity or a film, and edit their profile. The code is a set of React hooks and pages that talk to a hosted data service.

The model covers what the client itself decides:

- **Favorites hook.** The cached list of favorite rows. A favorite can be a celebrity or a film, and membership is tested by kind. Toggling a target deletes its row or inserts a new one, and the cache then changes the same way.
- **Comments hook.** It loads the comments of one celebrity or film and left-joins them with the authors' profiles. It also adds a comment and re-fetches, and deletes a comment by id.
- **List pages.** The films and celebrities catalogues filter by case-insensitive search text and by an `'all'`-sentinel category. The films page also sorts by rating, year or title, with a missing value counted as 0. Both pages offer the distinct categories as a menu.
- **Detail pages.** The filmography is ordered newest first and the cast list leads first. Both are built from cast rows whose joined record may be missing.
- **Enrichment pages.** The recent-comments page joins comments with three lookup tables. The favorites page splits favorites into celebrity ids and film ids.
- **Small validators and normalisers.** These cover:
  - the profile form, where null becomes `''` on load and `''` becomes null on save;
  - the sign-in form's schema and field errors, and the rewriting of service error messages;
  - the search page's blank-query guard and result count;
  - the comment box, which trims its draft and shows a delete button only on the user's own comments.

Each call to the data service is a parameter of the operation that makes it. A call that returns `{data, error}` is a `Reply<T>` (`Ok(data)` or `Err`). A call that only reports an error is a `Status` (`Done` or `Failed`). An insert that returns the stored row is a `Result<T>`. An asynchronous handler is one atomic step from its starting state to its final state.

State that a hook or page updates in place is a `class` whose fields are those state variables. The list pages keep their shown list equal to a function of the fetched list and the controls (`Valid()`), as their effects do. The pure pipelines are functions, and lemmas prove their properties. The four `forEach` loops that fill a lookup table or the field errors are `while` loops:

- `Seqs.IndexInto` models the three loops of the recent-comments page that fill a lookup table, and is proved equal to the function `Seqs.Indexed`;
- `AuthPage.CollectFieldErrors` fills the field errors and is proved equal to `AuthPage.FieldErrors`.

Shared modules:

- `Wrappers`: `Option`, `Reply`, `Status`, `Result`.
- `Text`:
  - ASCII lower-casing;
  - `includes`;
  - `trim`, with the ECMAScript white-space set;
  - JavaScript truthiness and `||` fallbacks;
  - the string order used for sorting.
- `Seqs`:
  - `filter`;
  - `[...new Set(...)]`;
  - `filter(x => x.f).map(x => x.f!)`;
  - a map filled row by row, where the last row with a key wins.
- `Sorting`: a stable insertion sort on a rank key, where a larger number comes first or a string sorts in ascending order.
- `Entities`: the catalogue records and the one-of-two target columns.
- `Cast`: cast rows and their merge with the joined record.

## Model

| member | source | states |
|---|---|---|
| UseFavorites.IsFavorite | src/hooks/useFavorites.ts:40-44 | `isFavorite` holds exactly when some cached row's column for the kind holds the id. `Find` finds a row exactly when it holds. |
| UseFavorites.Find | src/hooks/useFavorites.ts:55-57 | A row is found exactly when the target is a favorite of that kind. The row found is the first cached row whose column for that kind holds the id. |
| UseFavorites.RemoveById | src/hooks/useFavorites.ts:67 | It keeps exactly the rows with a different id, each as often as before and in the original order. |
| UseFavorites.InsertPayload | src/hooks/useFavorites.ts:70-74 | The payload carries the user id. Its column for the kind holds the id, the other column is null, so it names exactly that target. |
| UseFavorites.InsertMakesFavorite | src/hooks/useFavorites.ts:84 | Appending the row the service returns for the payload makes the target a favorite. |
| UseFavorites.RemoveFoundUnfavorites | src/hooks/useFavorites.ts:55-67 | If only one row matches the target, deleting the row that `find` returns means the target is no longer a favorite. |
| UseFavorites.ToggleTwiceRestores | src/hooks/useFavorites.ts:46-92 | Toggle a target that is not a favorite, then toggle it again. The list comes back, provided the inserted row's id is new. |
| UseFavorites.Store.constructor | src/hooks/useFavorites.ts:13-14 | The cache starts empty and not loading. |
| UseFavorites.Store.Fetch | src/hooks/useFavorites.ts:17-34 | Signed out, the cache becomes empty and nothing is queried. With a user, an error keeps the cache, and a reply replaces the cache with its rows, or with empty when there are none. `isLoading` is untouched. |
| UseFavorites.Store.Toggle | src/hooks/useFavorites.ts:46-93 | Signed out, there is no call and no change. With a user, it takes the delete branch exactly when the target was a favorite. Delete issues the found row's id and, on success, removes that id. Insert issues the payload and, on success, appends the returned row. An error leaves the cache as it was. `isLoading` is false afterwards. |
| UseComments.Column | src/hooks/useComments.ts:24 | The filter column is `celebrity_id` exactly for the celebrity kind, and `film_id` otherwise. |
| Seqs.DistinctBy | src/hooks/useComments.ts:35 | The author ids have no duplicates, include every row's author, and include nothing else. |
| UseComments.Enrich | src/hooks/useComments.ts:43-48 | There is one comment per row, in row order. Each comment keeps its row's id, author, content and time. |
| UseComments.FetchedJoin | src/hooks/useComments.ts:41-47 | A comment's author fields are those of the last profile with its user id. They are all undefined when no profile has that id. |
| UseComments.AddPayload | src/hooks/useComments.ts:69-74 | The payload carries the user and the content. Exactly one target column holds the entity id. |
| UseComments.RemoveComment | src/hooks/useComments.ts:102 | It keeps exactly the comments with another id, with the same counts and in the same order. |
| UseComments.Store.constructor | src/hooks/useComments.ts:16-18 | The hook starts with no comments and loading. |
| UseComments.Store.Fetch | src/hooks/useComments.ts:21-56 | It queries the kind's column. An error keeps the list and asks for no profiles. A reply asks for the distinct author ids and stores the joined list. Loading is false afterwards. |
| UseComments.Store.Add | src/hooks/useComments.ts:62-88 | Signed out, nothing happens. Otherwise it inserts the payload. A failed insert changes nothing. A successful insert re-fetches, with the re-fetch's own error path. |
| UseComments.Store.Delete | src/hooks/useComments.ts:90-108 | Signed out, no delete is sent and nothing changes. With a user, the delete is sent for the comment id scoped to that user's id. After an error nothing changes. After a delete that reports no error, exactly the comments with that id are dropped. |
| Seqs.IndexedKeys | src/pages/Comments.tsx:49 | A key is in a table filled from rows exactly when some row has that key. |
| Seqs.IndexedLastWins | src/pages/Comments.tsx:49 | The table holds, for a key, the value of the last row with that key. |
| Seqs.IndexInto | src/pages/Comments.tsx:49 | The `forEach` loop builds exactly the table `Indexed` describes. |
| Text.Lower | src/pages/Films.tsx:60 | Lower-casing keeps the length and lowers each character. |
| Text.ContainsAt | src/pages/Films.tsx:60 | `includes` holds exactly when the substring occurs at some position. |
| Text.Trim | src/components/comments/CommentSection.tsx:22-24 | The trimmed text is never longer than the draft. |
| Text.TrimSpec | src/components/comments/CommentSection.tsx:22-24 | `trim` cuts the text to an infix. Everything cut off on either side is white space, and the result neither starts nor ends with white space. |
| Text.BlankIffAllSpace | src/components/comments/CommentSection.tsx:22 | `!text.trim()` holds exactly when every character is white space. |
| Text.TrimIdempotent | src/components/comments/CommentSection.tsx:24 | Trimming an already trimmed text changes nothing. |
| Text.FirstOf | src/pages/Comments.tsx:121 | The fallback chain yields one of its operands, and is never empty when the fallback is not empty. |
| Text.FirstOfPicks | src/pages/Comments.tsx:121 | It yields the first truthy operand, and the fallback when neither of the others is truthy. |
| Text.LexLeTotal | src/pages/Films.tsx:77 | Any two titles are comparable. |
| Text.LexLeTransitive | src/pages/Films.tsx:77 | The title order is transitive. |
| Text.LexLeAntisymmetric | src/pages/Films.tsx:77 | Titles that are ordered both ways are equal. |
| Sorting.Sort | src/pages/Films.tsx:70-81 | The sorted copy has the input's length and holds exactly the input's elements. |
| Sorting.SortCorrect | src/pages/Films.tsx:70-81 | A sorted copy is in key order and is a permutation of its input. |
| Sorting.SortStable | src/pages/Films.tsx:70-81 | The sort is stable. The elements whose keys compare equal to a given key come out in the order they went in, as ES2019 `sort` promises. |
| Sorting.SortAllTies | src/pages/Films.tsx:78-79 | When every comparison returns 0, the stable sort leaves the list as it was. |
| Seqs.FilterCount | src/pages/Films.tsx:65-67 | A filter keeps every copy of a passing element and drops every copy of the others. |
| FilmsPage.View | src/pages/Films.tsx:55-84 | The view is the search filter, then the genre filter, then a sorted copy. It is never longer than the fetched list. |
| FilmsPage.ViewContents | src/pages/Films.tsx:56-81 | The shown films are exactly the films that pass the search and genre filters, each as often as fetched. An empty query and `'all'` keep everything. |
| FilmsPage.ViewOrder | src/pages/Films.tsx:70-81 | Under `rating` the view never increases in rating, and under `year` it never increases in year, with null counted as 0. Under `title` the titles ascend. Any other option keeps the filtered order. |
| FilmsPage.ClearedViewIsSortedList | src/pages/Films.tsx:56-81 | With no filters, the view is the whole list sorted. |
| Seqs.DistinctValuesSpec | src/pages/Films.tsx:47 | The genre menu holds each non-empty genre once, and nothing else, in order of first occurrence. |
| FilmsPage.Page.constructor | src/pages/Films.tsx:27-33 | The page starts empty and loading, with no query, genre `'all'` and sort `rating`. |
| FilmsPage.Page.Refresh | src/pages/Films.tsx:55-84 | The shown list is the view of the current list and controls. |
| FilmsPage.Page.Load | src/pages/Films.tsx:36-51 | A reply with data replaces the films and the genre menu. Otherwise both are kept. Loading ends and the view is re-derived. |
| FilmsPage.Page.SetSearchQuery | src/pages/Films.tsx:55-84 | Only the query changes, and the view follows it. |
| FilmsPage.Page.SetGenreFilter | src/pages/Films.tsx:55-84 | Only the genre changes, and the view follows it. |
| FilmsPage.Page.SetSortBy | src/pages/Films.tsx:55-84 | Only the sort option changes, and the view follows it. The fetched list is not reordered. |
| FilmsPage.Page.ClearFilters | src/pages/Films.tsx:145-148 | The query becomes `''` and the genre `'all'`. The sort option is kept, and the button is no longer offered. |
| CelebritiesPage.View | src/pages/Celebrities.tsx:53-68 | The view is the search filter, then the nationality filter. It is never longer than the fetched list. |
| CelebritiesPage.ViewContents | src/pages/Celebrities.tsx:53-68 | The shown celebrities are exactly those that pass the search and nationality filters, each as often as fetched. |
| CelebritiesPage.ViewSubsequence | src/pages/Celebrities.tsx:54-67 | The view keeps the fetched order. |
| CelebritiesPage.UnfilteredViewIsList | src/pages/Celebrities.tsx:54-67 | No query and `'all'` show the whole list. |
| CelebritiesPage.Page.constructor | src/pages/Celebrities.tsx:25-30 | The page starts empty and loading, with no query and nationality `'all'`. |
| CelebritiesPage.Page.Refresh | src/pages/Celebrities.tsx:53-68 | The shown list is the view of the current list and controls. |
| CelebritiesPage.Page.Load | src/pages/Celebrities.tsx:33-49 | A reply with data replaces the list and the nationality menu. Otherwise both are kept. Loading ends. |
| CelebritiesPage.Page.SetSearchQuery | src/pages/Celebrities.tsx:53-68 | Only the query changes, and the view follows it. |
| CelebritiesPage.Page.SetNationalityFilter | src/pages/Celebrities.tsx:53-68 | Only the nationality changes, and the view follows it. |
| CelebritiesPage.Page.ClearFilters | src/pages/Celebrities.tsx:116-119 | Both controls are reset and the whole list is shown again. |
| Cast.Credits | src/pages/CelebrityDetail.tsx:82-88 | The result has one entry per row with a joined record, in row order. Entry k is the k-th such row merged with its role fields. |
| Cast.CreditsMembers | src/pages/CelebrityDetail.tsx:82-88 | Rows without a joined record are dropped, so the result is no longer than the input, and equal in length exactly when every row is joined. Every remaining row appears merged with its role fields, and nothing else appears. |
| CelebrityDetail.Filmography | src/pages/CelebrityDetail.tsx:81-89 | The filmography is the merged rows sorted newest first. It is never longer than the cast reply. |
| CelebrityDetail.FilmographyCorrect | src/pages/CelebrityDetail.tsx:82-89 | The filmography is a permutation of the merged rows that have a film. It is newest first, with a missing year counted as 0. |
| CelebrityDetail.FilmographyStable | src/pages/CelebrityDetail.tsx:89 | Films from the same year keep the order of the cast reply. |
| CelebrityDetail.FetchData | src/pages/CelebrityDetail.tsx:45-94 | With no id, nothing changes. On an error, only loading ends and the cast is not queried. Otherwise the celebrity is stored, and the filmography is replaced when the cast query returned data. |
| CelebrityDetail.FetchErrorShowsNothing | src/pages/CelebrityDetail.tsx:55-59 | An error on a fresh page shows no celebrity and no films, and stops loading. |
| CelebrityDetail.IsFav | src/pages/CelebrityDetail.tsx:132 | It is false with no id. Otherwise it holds exactly when a favorite's celebrity column holds the id. |
| FilmDetail.CastList | src/pages/FilmDetail.tsx:77-85 | The cast is the merged rows sorted leads first. It is never longer than the cast reply. |
| FilmDetail.CastListCorrect | src/pages/FilmDetail.tsx:78-85 | The cast is a permutation of the merged rows that have a celebrity. Every lead stands before every non-lead. |
| FilmDetail.CastListStable | src/pages/FilmDetail.tsx:85 | The leads keep the order of the cast reply among themselves, and so do the other members. |
| FilmDetail.FetchData | src/pages/FilmDetail.tsx:43-90 | With no id, nothing changes. On an error, only loading ends. Otherwise the film is stored, and the cast is replaced when the cast query returned data. |
| FilmDetail.FetchErrorShowsNothing | src/pages/FilmDetail.tsx:53-57 | An error on a fresh page shows no film and no cast. |
| FilmDetail.IsFav | src/pages/FilmDetail.tsx:128 | It is false with no id. Otherwise it holds exactly when a favorite's film column holds the id. |
| FilmDetail.Subtitle | src/pages/FilmDetail.tsx:231 | The subtitle is the role name when that is truthy, and otherwise what the celebrity is known for. |
| Entities.TargetOf | src/hooks/useComments.ts:72-73 | A pair of columns names a target exactly when one of them is set, and the target gives those columns back. |
| Entities.TargetRoundTrip | src/hooks/useComments.ts:72-73 | The columns of a target name that target. |
| Seqs.TruthyValues | src/pages/Comments.tsx:52 | The id list holds exactly the truthy ids of the rows, and is no longer than the rows. |
| CommentsPage.RecentList | src/pages/Comments.tsx:67-74 | There is one entry per row, in row order, each keeping its row. A celebrity name is set only when the row's celebrity id is truthy, and a film title only when its film id is. |
| CommentsPage.LookupLastWins | src/pages/Comments.tsx:56 | A name looked up is that of the last row with that id, and undefined when no row has it. |
| CommentsPage.RecentTargetJoin | src/pages/Comments.tsx:72-73 | The celebrity name comes from the last looked-up row with the comment's celebrity id, and the film title likewise. Each is undefined when the id is missing or not found. |
| CommentsPage.RecentAuthorJoin | src/pages/Comments.tsx:69-71 | The author fields come from the last profile with the comment's user id, and are all undefined when there is none. |
| CommentsPage.AuthorLabel | src/pages/Comments.tsx:121 | The label is the full name, else the username, else "Anonymous", and is never empty. |
| CommentsPage.TargetLink | src/pages/Comments.tsx:125-129 | With a truthy celebrity id, the link goes to the celebrity, labelled by its name or "Celebrity". Otherwise it goes to the film, labelled by its title or "Film". |
| CommentsPage.LinkNamesTarget | src/pages/Comments.tsx:125-128 | A comment naming one target links to that target's page. |
| CommentsPage.Page.constructor | src/pages/Comments.tsx:24-25 | The page starts empty and loading. |
| CommentsPage.Page.Fetch | src/pages/Comments.tsx:28-78 | An error or an empty reply gives an empty list and no lookups. Otherwise it asks for the distinct author ids, and looks up celebrities or films only when there is at least one such id. The list stored is the join with the three tables. Loading ends. |
| FavoritesPage.IdsCoverFavorites | src/pages/Favorites.tsx:47-48 | When every favorite names one target, the two id lists together have one entry per favorite. |
| FavoritesPage.IdsInOrder | src/pages/Favorites.tsx:47-48 | The ids are, in order, the celebrity (or film) ids of the favorites that have one. |
| FavoritesPage.FetchDetails | src/pages/Favorites.tsx:39-62 | No user or no favorites gives empty lists and no queries. Otherwise a list is queried only when its ids are non-empty, an empty id list stands for an empty result, and a list is replaced only when its query returned data. Loading ends in every case. |
| SearchPage.ResultWord | src/pages/Search.tsx:135 | The word is "result" exactly when there is one result, and "results" otherwise. |
| SearchPage.DefaultTab | src/pages/Search.tsx:138 | The celebrities tab comes first exactly when there is a celebrity result. |
| SearchPage.Page.TotalResults | src/pages/Search.tsx:84 | The total is zero exactly when both lists are empty, and is at least each list's length. |
| SearchPage.Page.constructor | src/pages/Search.tsx:31-37 | The query starts as the address parameter or `''`, with no results and no search yet. |
| SearchPage.Page.SetQuery | src/pages/Search.tsx:107 | Only the query changes. |
| SearchPage.Page.PerformSearch | src/pages/Search.tsx:45-77 | A blank query clears both lists and touches nothing else. Any other query is written to the address, marks a search as done, replaces each list only when its search returned data, and ends loading. |
| SearchPage.Page.Mount | src/pages/Search.tsx:39-43 | The first render searches exactly when the initial query is not blank. |
| ProfilePage.OrEmpty | src/pages/Profile.tsx:54-58 | Null becomes `''`, and a string stays. |
| ProfilePage.OrNull | src/pages/Profile.tsx:89-93 | `''` becomes null, and any other string stays. |
| ProfilePage.SaveThenLoad | src/pages/Profile.tsx:88-94 | Loading back what a save sent gives the form that was saved. |
| ProfilePage.LoadThenSave | src/pages/Profile.tsx:53-59 | Saving an unedited form writes the stored columns back exactly when no column holds `''`. |
| ProfilePage.CountOrZero | src/pages/Profile.tsx:69-70 | A missing count is 0. |
| ProfilePage.HeaderName | src/pages/Profile.tsx:141 | The header is the full name, else the username, else "Your Profile", and is never empty. |
| ProfilePage.Page.constructor | src/pages/Profile.tsx:26-37 | No profile, an empty form, loading, not saving, and zero counts. |
| ProfilePage.Page.Load | src/pages/Profile.tsx:40-74 | Signed out, nothing changes. With a user, data fills the profile and the form, and an error or no data keeps them. The counts default to 0 and are set even after an error. Loading ends. |
| ProfilePage.Page.Edit | src/pages/Profile.tsx:178-222 | The form becomes what was typed. |
| ProfilePage.Page.Save | src/pages/Profile.tsx:79-106 | Signed out, nothing is sent. Otherwise it sends the form with `''` as null and is not saving afterwards. |
| AuthPage.SchemaIssues | src/pages/Auth.tsx:11-15 | There are no issues exactly when the email is valid and the password has at least 6 characters. Each failing field reports its message. |
| AuthPage.ShortPasswordFails | src/pages/Auth.tsx:13 | A password shorter than 6 characters fails, with its message under `password`. |
| AuthPage.FieldErrorsKeys | src/pages/Auth.tsx:41-46 | A field has an error exactly when some issue names it. |
| AuthPage.FieldErrorsLastWins | src/pages/Auth.tsx:42-45 | A field's error is the message of the last issue naming it. |
| AuthPage.CollectFieldErrors | src/pages/Auth.tsx:41-46 | The `forEach` loop builds exactly the field errors `FieldErrors` describes. |
| AuthPage.SignInText | src/pages/Auth.tsx:64-68 | A message containing "Invalid login credentials" is shown as "Invalid email or password". Any other message passes through. |
| AuthPage.SignUpText | src/pages/Auth.tsx:76-80 | A message containing "already registered" is shown as the fixed already-registered text. Any other message passes through. |
| AuthPage.SignInTextIdempotent | src/pages/Auth.tsx:64-68 | Rewriting a sign-in message twice is the same as rewriting it once. |
| AuthPage.SignUpTextIdempotent | src/pages/Auth.tsx:76-80 | Rewriting a sign-up message twice is the same as rewriting it once. |
| AuthPage.Page.constructor | src/pages/Auth.tsx:18-23 | Sign-in mode, no errors, not loading. |
| AuthPage.Page.Validate | src/pages/Auth.tsx:34-51 | It passes exactly when the schema reports no issue. The errors become the collected field errors. |
| AuthPage.Page.Submit | src/pages/Auth.tsx:53-91 | A failed validation calls nothing. Otherwise it calls sign-in or sign-up for the mode and shows the rewritten error, the success notice, or the unexpected-error notice. Loading ends. |
| AuthPage.Page.ToggleMode | src/pages/Auth.tsx:179-182 | The mode flips and all field errors are cleared. |
| CommentSection.SubmitDisabled | src/components/comments/CommentSection.tsx:43 | The post button is disabled exactly when every character of the draft is white space. |
| CommentSection.DeleteVisible | src/components/comments/CommentSection.tsx:94 | The delete button shows exactly when the signed-in user wrote the comment. |
| CommentSection.AuthorLabel | src/components/comments/CommentSection.tsx:88 | The label is the full name, else the username, else "Anonymous", and is never empty. |
| CommentSection.Section.constructor | src/components/comments/CommentSection.tsx:16-18 | The draft starts empty. |
| CommentSection.Section.SetDraft | src/components/comments/CommentSection.tsx:40 | The draft becomes what was typed. |
| CommentSection.Section.HandleSubmit | src/components/comments/CommentSection.tsx:20-26 | A blank draft does nothing. Otherwise it hands the trimmed draft to the hook and clears the draft, whether or not the comment was stored. The text handed over is non-empty and already trimmed. Signed out, no insert is issued. The hook's state changes as `UseComments.Store.Add` states. |

## Left out

- Calls to the data service and to authentication are parameters of the operations that make them. The service's orderings (newest first for comments, and by name for the celebrities catalogue), its `limit(50)` and `limit(20)` caps, its `ilike`, `in` and `eq` matching, and row-level access rules are not modelled.
- The `.or(...)` filter strings of the search page are not modelled, because their meaning is defined by the service's query language.
- Asynchronous interleaving is not modelled. Each handler runs as one atomic step. Overlapping toggles, `Promise.all` fan-out, effects re-running on dependency changes, and unmount races are concurrency. The `loading = true` states in the middle of a handler are set and then cleared inside the step.
- Toasts, `console.error`, navigation after sign-in, and date formatting (`formatDistanceToNow`) are side effects or rendering, and are not modelled.
- `toLowerCase` is modelled on ASCII letters only. `localeCompare` is modelled as lexicographic order on character codes. Lengths are counted in characters, not UTF-16 code units. Each is a library semantics with no visible source.
- `Number(rating) || 0` is modelled as a `real` with a missing rating counted as 0. NaN and floating point are not modelled.
- Null and undefined are both `None`. The model does not tell a missing field from a null one.
- AuthPage.SchemaIssues: whether the email is well formed is a flag, because the schema library decides it. The model assumes the library reports the email issue before the password issue, in the schema's field order.
- The comment section's heading with the number of comments, its loading skeleton and its empty-list text are rendering of `comments` and `isLoading`, and are not modelled.
- The favorite cards' own sign-in guard, the routing table, the navigation bar, the footer, and the home, about and settings pages are presentation only, and are not modelled.

## Notes on the code

- Deleting another user's comment: the delete is filtered by `user_id` (src/hooks/useComments.ts:98), matches no row and reports no error. The hook still drops the comment from the local list (src/hooks/useComments.ts:102), while the service keeps it. `UseComments.Store.Delete` models this.
