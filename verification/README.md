# Halal Life Connector — a Dafny model of its request and display logic

Halal Life Connector is a Next.js web application for Muslim residents and
visitors in Seoul. It has a map of halal places, a community board, and a
scanner that sends a product photo to an AI provider for a halal verdict.
This project models the logic of that application in Dafny 4.11 and proves
properties about it. The logic covered is:

- the three API routes (`POST /api/scan`, `GET`/`POST /api/posts`,
  `GET /api/halal-places`), as pure functions over the request, a store held
  as a sequence, and the provider's reply;
- the client-side filters and lookups of the map component and the map page;
- the community board's query building, comment drafts, post form and
  category labels;
- the scanner component's state changes and what it renders from a result;
- the closed enumerations and record shapes of `src/types/index.ts`.

Layout, one module per source file plus shared helpers:

| file | module | models |
|---|---|---|
| `base.dfy` | `Base` | `Option`, and "present" meaning non-empty, which is JavaScript truthiness for strings |
| `seqs.dfy` | `Seqs` | order-preserving `Filter`, the skip/take `Window` |
| `sorting.dfy` | `Sorting` | sorting by a total preorder, which stands for the database's `ORDER BY` |
| `strings.dfy` | `Strings` | `includes`, ASCII `toLowerCase`, `split` on one character, code-point order |
| `js.dfy` | `Js` | JSON values, truthiness, member access, and object-literal lookups that reach `Object.prototype` |
| `types.dfy` | `Types` | `src/types/index.ts` |
| `query_params.dfy` | `QueryParams` | `searchParams.get(x) \|\| default`, and the "present and not `all`" condition |
| `scan_route.dfy` | `ScanRoute` | `src/app/api/scan/route.ts` |
| `posts_route.dfy` | `PostsRoute` | `src/app/api/posts/route.ts` |
| `places_route.dfy` | `PlacesRoute` | `src/app/api/halal-places/route.ts` |
| `halal_map.dfy` | `HalalMap` | `src/components/HalalMap.tsx` |
| `map_page.dfy` | `MapPage` | `src/app/map/page.tsx` |
| `community_board.dfy` | `CommunityBoard` | `src/components/CommunityBoard.tsx` |
| `halal_scanner.dfy` | `HalalScanner` | `src/components/HalalScanner.tsx` |

Modelling choices:

- A database table is a `seq`. A store that is unconfigured or fails is `None`.
- The AI call becomes a `ProviderReply` input. `JSON.parse` becomes a
  parameter `parse: string -> Option<JsonValue>`. `parseFloat` becomes a
  parameter `num`, and the Haversine distance a parameter `dist`.
- Dates are integers. JSON numbers are `real`.
- Each React handler is a function from one state to the next.

Where the code and the project's design description disagree, the model
follows the code:

- The routes have no mock-data fallback. A missing or failing store gives the
  500 error response (`PostsRoute.ListPosts`, `PlacesRoute.GetPlaces`).
- `POST /api/posts` stores any non-empty category and language. They are not
  checked against the enumerations, so `Post.category` and `Post.language`
  are strings, and `Post.Conforms` says when they fall inside the declared
  sets (`PostsRoute.CreateAcceptsUndeclaredCategory`).

## Model

| member | source | states |
|---|---|---|
| Types.ParsePlaceCategory | src/types/index.ts:4 | a category string names exactly one of restaurant, market or prayer_room, or none; parsing inverts `Name` |
| Types.ParseHalalLevel | src/types/index.ts:10 | a level string names exactly one of certified, reliable or unknown, or none; parsing inverts `Name` |
| Types.ParsePostCategory | src/types/index.ts:22 | a post category is one of food, prayer_room, life_info or other; parsing inverts `Name` |
| Types.ParseLanguage | src/types/index.ts:23 | a post language is one of ko, en or ar; parsing inverts `Name` |
| Types.JsonToStrings | src/types/index.ts:60 | a JSON array decodes to a string list exactly when every item is a string, and encoding gives the array back |
| Types.AnalysisFromJson | src/types/index.ts:56-62 | a decoded analysis comes from a JSON object whose five fields agree with the analysis's own encoding |
| Types.AnalysisRoundTrip | src/types/index.ts:56-62 | encoding an analysis to JSON and decoding it gives the same analysis back |
| Js.FalsyValues | src/app/api/scan/route.ts:25 | exactly absent, `null`, `false`, 0 and the empty string are falsy, as in `if (!image)` |
| Js.LiteralLookup | src/app/api/scan/route.ts:98 | `literal[key]` gives the own property when there is one, otherwise an `Object.prototype` member exactly for the prototype's names, otherwise nothing |
| QueryParams.ParamOr | src/app/api/posts/route.ts:9-10 | `get(x) \|\| default` gives the parameter when present and non-empty, else the default |
| QueryParams.Condition | src/app/api/posts/route.ts:14-20 | a filter condition exists exactly when the parameter is present, non-empty and not `all`, and it is that value |
| ScanRoute.HandleScan | src/app/api/scan/route.ts:11-125 | a missing API key gives the 500 configuration error before the body is read; a falsy image gives 400 with no provider call; any call carries the stripped image and the prompt `prompts[language] \|\| prompts.ko` gives as written, with `ko` for an absent language; a first block that is not text gives the fallback; errors write no history; history needs a working database |
| ScanRoute.SelectPrompt | src/app/api/scan/route.ts:23 | a missing language means `ko`; ko, en and ar select their own prompt; every other value selects the Korean prompt |
| ScanRoute.SelectPromptAsWritten | src/app/api/scan/route.ts:98 | as written, the lookup gives an inherited `Object.prototype` member exactly for the prototype's names, and otherwise agrees with `SelectPrompt` |
| ScanRoute.PromptFallbackCounterexample | src/app/api/scan/route.ts:98 | the language `constructor` gets an inherited function instead of the Korean prompt |
| ScanRoute.PromptKey | src/app/api/scan/route.ts:98 | the property key a language value is looked up under: a string is its own key, a one-element array its element's key, and every other value names no prompt and no inherited member |
| ScanRoute.CallPrompt | src/app/api/scan/route.ts:98-112 | the call carries the ko, en or ar template when the language names it, an inherited member for `Object.prototype` names, and the Korean template otherwise |
| ScanRoute.StripDataUriPrefix | src/app/api/scan/route.ts:119 | the output is a suffix of the input; a matching prefix is removed; the input is unchanged exactly when no prefix of it matches `data:image/[a-z]+;base64,` |
| ScanRoute.StripWellFormed | src/app/api/scan/route.ts:119 | `data:image/<lower-case letters>;base64,` followed by anything is removed |
| ScanRoute.StripNeedsLetter | src/app/api/scan/route.ts:119 | nothing is removed unless a lower-case letter follows `data:image/` |
| ScanRoute.StripRemovesOnlyOne | src/app/api/scan/route.ts:119 | when the prefix appears twice in a row, only the first one is removed |
| ScanRoute.StripKeepsUpperCaseType | src/app/api/scan/route.ts:119 | an upper-case or empty image type is left in place |
| ScanRoute.ReplyText | src/app/api/scan/route.ts:128 | there is no text exactly when the reply has no blocks, where reading the first block throws; a first block that is not text gives the empty string |
| ScanRoute.FallbackJson | src/app/api/scan/route.ts:132-144 | the fixed fallback decodes to not halal, confidence 10 and the single concern `분석 불가` |
| ScanRoute.Normalise | src/app/api/scan/route.ts:132-177 | an unparseable reply gives the fallback; a parsed reply is returned unchanged; a history entry records exactly the returned object |
| ScanRoute.LowerIsTrue | src/app/api/scan/route.ts:149 | `toLowerCase() === 'true'` holds exactly for the strings that spell `true` in any mix of letter cases |
| ScanRoute.IsHalalOf | src/app/api/scan/route.ts:146-152 | a string verdict is true exactly when it spells `true` in any letter case; any other value is coerced by truthiness |
| ScanRoute.IsHalalTable | src/app/api/scan/route.ts:146-152 | `"TRUE"` and `"True"` are true; `"false"`, `"yes"` and `"1"` are false |
| ScanRoute.HistoryEntry | src/app/api/scan/route.ts:155-167 | the record stores the coerced verdict, the raw request language and the whole reply; the product name is kept only when truthy |
| ScanRoute.ResponseIgnoresHistoryStore | src/app/api/scan/route.ts:155-177 | a missing database or a failed write never changes the response or the provider call |
| ScanRoute.TextReplyNormalises | src/app/api/scan/route.ts:98-144 | a valid request whose reply is one text block makes the call its language and image ask for, then normalises that text |
| ScanRoute.ResponseIsUncoercedReply | src/app/api/scan/route.ts:146-177 | the response is the parsed reply unchanged; only the history record gets the coerced verdict and the raw language |
| PostsRoute.PageDefaults | src/app/api/posts/route.ts:9-10 | page defaults to 1 and limit to 10 when absent or empty, and a non-empty text is taken as given |
| PostsRoute.NoConditionMatchesAll | src/app/api/posts/route.ts:12-20 | an empty `where` clause keeps every post |
| PostsRoute.NewestFirstIsPreorder | src/app/api/posts/route.ts:26-33 | ordering by `createdAt` descending is a total preorder on posts and on comments |
| PostsRoute.Ordered | src/app/api/posts/route.ts:22-33 | the matching posts sorted newest first, holding exactly the posts that satisfy the clause |
| PostsRoute.NewestComments | src/app/api/posts/route.ts:26-29 | at most 3 comments, newest first, taken from the post's comments, and none left out is newer than one kept |
| PostsRoute.PageCount | src/app/api/posts/route.ts:46 | `ceil(total/limit)`: 0 for no posts, otherwise the least n with total <= n*limit |
| PostsRoute.ListPosts | src/app/api/posts/route.ts:4-55 | no store or a page below 1 gives the 500 error; otherwise the page is the skip/take window of the ordered matches with the stated pagination |
| PostsRoute.PageIsWindow | src/app/api/posts/route.ts:31-35 | the page is the slice `[(page-1)*limit, (page-1)*limit+limit)` of the ordered matches, so it holds at most `limit` posts |
| PostsRoute.PageStartsInside | src/app/api/posts/route.ts:34-46 | page `p` starts inside the matches exactly when `p <= totalPages` |
| PostsRoute.PageNonEmptyIffInRange | src/app/api/posts/route.ts:34-46 | a page has posts exactly when its number is at most `totalPages` |
| PostsRoute.ListedPostsAreFiltered | src/app/api/posts/route.ts:14-29 | every listed post satisfies the filter and carries at most 3 comments, newest first |
| PostsRoute.CreatePost | src/app/api/posts/route.ts:58-101 | a falsy title, content, category, language or author gives 400 and no insert; a complete body whose fields have the types the store takes always gives 201 and appends the post with the given fields, no likes and no comments; a missing body or store, or a truthy field of another type, gives 500 and no insert |
| PostsRoute.CreateAcceptsUndeclaredCategory | src/app/api/posts/route.ts:78-93 | a category and language outside the enumerations are stored as given |
| PostsRoute.NonStringTitleFails | src/app/api/posts/route.ts:71-100 | a numeric title passes the guard and is then rejected by the store with 500, leaving the posts unchanged |
| PlacesRoute.LevelNamesOrderByRank | src/app/api/halal-places/route.ts:26 | ascending order of level names puts certified before reliable before unknown |
| PlacesRoute.PlaceBefore | src/app/api/halal-places/route.ts:25-29 | the three-key order: level name ascending, then rating descending with unrated places last, then name ascending; its properties are stated by the rows below |
| PlacesRoute.PlaceBeforeByRank | src/app/api/halal-places/route.ts:25-29 | the order compares halal level first, then rating descending, then name ascending |
| PlacesRoute.PlaceOrderIsPreorder | src/app/api/halal-places/route.ts:25-29 | the three-key order is total and transitive, so it can sort any list |
| PlacesRoute.Ordered | src/app/api/halal-places/route.ts:13-30 | the matching places in the three-key order, as a permutation of the filtered places |
| PlacesRoute.GetPlaces | src/app/api/halal-places/route.ts:4-54 | no store gives the 500 error; without all of lat, lng and radius the ordered list is returned whole; with them it is filtered by distance |
| PlacesRoute.Near | src/app/api/halal-places/route.ts:38-41 | a place is kept when its distance from the requested point is at most the requested radius; `GetPlacesContents` states what the filter keeps |
| PlacesRoute.GetPlacesContents | src/app/api/halal-places/route.ts:15-43 | the result is sorted and holds exactly the stored places that match both filters and, when a radius is requested, lie within it |
| PlacesRoute.LevelsAscend | src/app/api/halal-places/route.ts:25-26 | certified places come before reliable ones, which come before unknown ones |
| PlacesRoute.RadiusFilterKeepsOrder | src/app/api/halal-places/route.ts:33-46 | the radius filter only removes places; when every place is near, or no radius is requested, the ordered list is returned unchanged |
| HalalMap.FilterPlacesIsSubsequence | src/components/HalalMap.tsx:21-33 | the two filters in a row keep exactly the order-preserving subsequence of places that pass both select boxes |
| HalalMap.FilterPlaces | src/components/HalalMap.tsx:21-33 | the shown list is no longer than the input, and every shown place comes from the input and passes both select boxes |
| HalalMap.NoFiltersShowAll | src/components/HalalMap.tsx:16-32 | the initial `all`/`all` boxes show every place in order |
| HalalMap.FilterPlacesMembers | src/components/HalalMap.tsx:24-30 | a place is shown exactly when it is in the input and passes both boxes |
| HalalMap.FilterPlacesIdempotent | src/components/HalalMap.tsx:24-30 | filtering the output again with the same boxes changes nothing |
| HalalMap.CategoryIcon | src/components/HalalMap.tsx:35-42 | the pin icon appears exactly for strings that are not a place category |
| HalalMap.HalalLevelColor | src/components/HalalMap.tsx:44-51 | gray appears exactly for `unknown` and for strings that are not a level |
| HalalMap.HalalLevelText | src/components/HalalMap.tsx:53-60 | `미확인` appears exactly for `unknown` and for strings that are not a level |
| HalalMap.CategoryText | src/components/HalalMap.tsx:62-69 | `기타` appears exactly for strings that are not a place category |
| HalalMap.CategoryLookupsInjective | src/components/HalalMap.tsx:35-69 | different categories get different icons and names |
| MapPage.ActiveFilterFromUrl | src/app/map/page.tsx:36-45 | a non-empty `category` parameter wins over `location`; with neither, no filter is active |
| MapPage.DecodeFilter | src/app/map/page.tsx:55 | the type is the text before the first dash, and the value the dash-free text after it; there is no value exactly when there is no dash |
| MapPage.UrlFilterDecodes | src/app/map/page.tsx:36-55 | a URL filter decodes to its parameter name and only the part of the value before its first dash |
| MapPage.ApplyActiveFilter | src/app/map/page.tsx:48-73 | with no active filter the fetched list is shown unchanged; any filter only removes places |
| MapPage.UrlCategoryShowsCategory | src/app/map/page.tsx:58-59 | `?category=c` keeps exactly the places of category c, in order, whatever `location` says |
| MapPage.UrlUnknownCategoryShowsNothing | src/app/map/page.tsx:58-59 | a category name that no place can have shows nothing |
| MapPage.UrlItaewonShowsDistrict | src/app/map/page.tsx:61-64 | `itaewon`, alone or followed by a dash, keeps the places whose address contains 이태원 or 용산구 |
| MapPage.UrlMyeongdongShowsDistrict | src/app/map/page.tsx:65-68 | `myeongdong`, alone or followed by a dash, keeps the places whose address contains 명동 or 중구 |
| MapPage.UrlOtherLocationShowsAll | src/app/map/page.tsx:60-72 | any other location value leaves the list unchanged |
| MapPage.SeedDistricts | src/app/map/page.tsx:61-68 | on four seed places, itaewon keeps the two 용산구 places and myeongdong the two 중구 places, in seed order |
| MapPage.CountStats | src/app/map/page.tsx:202-229 | each of the four card counts is at most the number of places shown |
| MapPage.CategoryCardsPartition | src/app/map/page.tsx:202-220 | the restaurant, market and prayer-room counts add up to the number of places shown |
| MapPage.Render | src/app/map/page.tsx:91-116 | the spinner shows exactly while loading, and the error screen exactly when loading is over and an error is set |
| MapPage.FetchPlacesAsWritten | src/app/map/page.tsx:75-89 | as written, success stores the places but keeps any earlier error; failure sets the error message |
| MapPage.RetryNeverRecovers | src/app/map/page.tsx:102-116 | as written, once an error is set no later fetch leaves the error screen |
| MapPage.RetryCounterexample | src/app/map/page.tsx:75-116 | as written, a failed first load followed by a successful retry still shows the error screen |
| MapPage.FetchPlaces | src/app/map/page.tsx:75-89 | with the correction, success stores the places and clears the error; failure sets the error message |
| MapPage.RetryRecovers | src/app/map/page.tsx:75-116 | with the correction, a successful fetch always shows the map with the active filter applied |
| CommunityBoard.FetchParams | src/components/CommunityBoard.tsx:35-37 | each query parameter is set exactly when its box is not on `all`, and it carries the box's value |
| CommunityBoard.FetchFiltersAsBoxesSay | src/components/CommunityBoard.tsx:33-39 | the posts route then keeps exactly the posts both boxes admit |
| CommunityBoard.FetchPosts | src/components/CommunityBoard.tsx:38-47 | a failed fetch keeps the posts already shown |
| CommunityBoard.FetchedPostsMatchBoxes | src/components/CommunityBoard.tsx:33-48 | after a successful fetch the board holds at most ten posts, each admitted by both boxes and carrying at most three comments |
| CommunityBoard.CommentCount | src/components/CommunityBoard.tsx:380 | the count is the number of comments, and 0 exactly when comments are absent or empty |
| CommunityBoard.CanSend | src/components/CommunityBoard.tsx:78-79 | the handler's guard: the post has a draft with non-empty text and author; `ButtonMatchesGuard` and `NoDoubleSubmit` state its properties |
| CommunityBoard.EditContent | src/components/CommunityBoard.tsx:407-410 | typing sets that post's comment text, keeps its author field and leaves other posts' drafts alone |
| CommunityBoard.EditAuthor | src/components/CommunityBoard.tsx:417-420 | typing sets that post's author, keeps its comment text and leaves other posts' drafts alone |
| CommunityBoard.EditsCommute | src/components/CommunityBoard.tsx:407-420 | the order in which the two boxes are filled does not matter |
| CommunityBoard.FilledDraftCanSend | src/components/CommunityBoard.tsx:407-420 | filling both boxes makes the draft sendable and changes no other post's sendability |
| CommunityBoard.ButtonMatchesGuard | src/components/CommunityBoard.tsx:425 | the send button is enabled exactly when the handler would send |
| CommunityBoard.SubmitComment | src/components/CommunityBoard.tsx:77-95 | nothing is sent when the text or author is missing or empty; on success only that post's draft becomes empty |
| CommunityBoard.NoDoubleSubmit | src/components/CommunityBoard.tsx:77-95 | after an accepted comment both boxes read empty and the same draft cannot be sent again |
| CommunityBoard.FormBody | src/components/CommunityBoard.tsx:54-58 | the form body passes the route's check exactly when all five required fields are non-empty; the e-mail is always sent |
| CommunityBoard.SubmitPost | src/components/CommunityBoard.tsx:51-75 | an ok response resets the form to food/ko with empty fields and hides it; otherwise nothing changes |
| CommunityBoard.FilledFormCreatesPost | src/components/CommunityBoard.tsx:51-60 | a filled-in form creates a post with its fields; a blank e-mail is stored as the empty string |
| CommunityBoard.ResetFormIsRejected | src/components/CommunityBoard.tsx:60-67 | a reset form would be rejected with 400 and nothing stored |
| CommunityBoard.CategoryLabels | src/components/CommunityBoard.tsx:98-117 | each language's table labels exactly the four post categories, each with a non-empty label |
| CommunityBoard.CategoryText | src/components/CommunityBoard.tsx:97-119 | the four categories get their non-empty label; any other string is shown as itself |
| CommunityBoard.CategoryTextInjective | src/components/CommunityBoard.tsx:98-117 | in every language the four categories get four different labels |
| CommunityBoard.CategoryTextAsWritten | src/components/CommunityBoard.tsx:118 | as written, the label is an inherited `Object.prototype` member exactly for the prototype's names, and otherwise agrees with `CategoryText` |
| CommunityBoard.CategoryTextCounterexample | src/components/CommunityBoard.tsx:118 | a post created with category `constructor` gets an inherited function instead of a label |
| CommunityBoard.CategoryColor | src/components/CommunityBoard.tsx:121-129 | gray appears exactly for `other` and for strings that are not a post category |
| CommunityBoard.CategoryColorAsWritten | src/components/CommunityBoard.tsx:128 | as written, the class is an inherited member exactly for the prototype's names, and otherwise agrees with `CategoryColor` |
| CommunityBoard.CategoryColorCounterexample | src/components/CommunityBoard.tsx:128 | the category `toString` gets an inherited function instead of the gray classes |
| HalalScanner.SelectImage | src/components/HalalScanner.tsx:19-31 | a new image clears the previous result and error |
| HalalScanner.AnalyzeStart | src/components/HalalScanner.tsx:33-47 | with no image or an empty one nothing is sent and nothing changes; otherwise the image is sent and the spinner starts with the error cleared |
| HalalScanner.ErrorMessage | src/components/HalalScanner.tsx:57-60 | the error is Korean exactly for `ko` and English for every other language, Arabic included |
| HalalScanner.AnalyzeFinish | src/components/HalalScanner.tsx:50-63 | the spinner stops; an ok reply becomes the result; anything else sets the localised error and keeps the old result |
| HalalScanner.FailedAnalysisShowsError | src/components/HalalScanner.tsx:19-63 | selecting an image and then failing shows that image with the localised error and no result |
| HalalScanner.Reset | src/components/HalalScanner.tsx:66-72 | reset clears image, result and error, and does not stop a running analysis |
| HalalScanner.ResetShowsUpload | src/components/HalalScanner.tsx:66-72 | after a reset the upload screen is shown |
| HalalScanner.ResultText | src/components/HalalScanner.tsx:83-92 | the empty string exactly when there is no result; ko and en have their own texts and the remaining language gets the Arabic text |
| HalalScanner.ResultTextDistinguishes | src/components/HalalScanner.tsx:83-92 | in every language the two verdicts read differently |
| HalalScanner.VerdictAsWritten | src/components/HalalScanner.tsx:83-92 | the component's verdict is false exactly when `is_halal` is absent, `null`, `false`, 0 or the empty string |
| HalalScanner.Verdict | src/components/HalalScanner.tsx:83-92 | the corrected verdict equals the verdict the route stores in the history for that reply, for any request language |
| HalalScanner.ConfidenceColor | src/components/HalalScanner.tsx:94-98 | green exactly from 80, yellow exactly from 60 to below 80, red below 60 and for a non-number |
| HalalScanner.ConfidenceColorMonotone | src/components/HalalScanner.tsx:94-98 | a higher confidence never gets a worse colour |
| HalalScanner.ArrayNumber | src/components/HalalScanner.tsx:94-98 | an array converts to a number through its text: an empty array as the empty string, one item as that item's text, and two or more items to NaN |
| HalalScanner.NumberOf | src/components/HalalScanner.tsx:94-98 | the number `confidence >= 80` compares: numbers as they are, `true`/`false` as 1/0, `null` as 0, a string through the number parser, an array through its text, and NaN for an absent field or an object |
| HalalScanner.Concerns | src/components/HalalScanner.tsx:281-296 | the concern block lists the items exactly for a non-empty array; a non-empty string throws; an object throws exactly when its `length` member fails to convert or converts to a positive number; only strings and objects throw |
| HalalScanner.NoIngredientsUnreachable | src/components/HalalScanner.tsx:281-287 | the "no problematic ingredients" message can never render, whatever the concern value, and an empty list hides the whole block |
| HalalScanner.Render | src/components/HalalScanner.tsx:161-308 | the upload screen shows exactly without an image; the component throws exactly when a truthy result has a part the panel cannot draw; otherwise the analyze button shows exactly with no result and no running analysis, and the panel exactly with a truthy result; the panel's verdict follows the truthiness of `is_halal`, its colour the converted confidence, the concern list a non-empty array and the recommendation its truthiness |
| HalalScanner.AnalysisRendersPanel | src/components/HalalScanner.tsx:254-308 | a result of the declared analysis shape never throws, and shows its verdict, its confidence band, the concerns exactly when there are some and the recommendation exactly when it is non-empty |
| HalalScanner.RenderCrashCases | src/components/HalalScanner.tsx:277-290 | a concern text instead of a list, an object reason, and an object among the concerns each make the component throw |
| HalalScanner.CorrectedRender | src/components/HalalScanner.tsx:161-308 | with the correction, the screen is the same, crashes included, except that the verdict text follows the history's coerced verdict |
| HalalScanner.NoAnalyzeWhileAnalyzing | src/components/HalalScanner.tsx:218-238 | while an analysis runs, the analyze button is hidden |
| HalalScanner.FallbackRendersNotHalal | src/components/HalalScanner.tsx:254-308 | the route's fallback result shows as not halal with a red confidence, the concern list and the recommendation |
| HalalScanner.VerdictCounterexample | src/components/HalalScanner.tsx:83-92 | as written, a reply `{"is_halal": "false"}` is stored as not halal but shown as halal |
| HalalScanner.ShownVerdictCounterexample | src/components/HalalScanner.tsx:254-262 | with `{"is_halal": "false"}` as the result, the screen as written says halal and the corrected screen says not halal |
| HalalScanner.VerdictMatchesHistory | src/components/HalalScanner.tsx:83-92 | with the correction, the shown verdict equals the verdict stored in the history for every reply the route passes through |

## Left out

- The Anthropic call is a `ProviderReply` input: the model name, the token limit and the request layout are not modelled. The three prompt texts are named by their `Language` only.
- ScanRoute.HandleScan: `JSON.parse` is the parameter `parse`. Its only assumption is that the empty string does not parse, as `JSON.parse('')` throws.
- The `language` of a scan request is the `PromptKey` of a JSON value: a string, or a one-element array of one (arrays convert to strings when used as keys). An object whose own `toString` is overridden is left out.
- Prisma and the global client in `src/lib/prisma.ts` are left out: a table is a sequence, and an absent or failing client is `None`. For posts and places that gives the 500 error response, which is what the code does.
- The database's own orderings are not visible. Ties and null ratings are handled as follows: places with no rating sort after all rated places under `rating DESC`, and names compare by code point. Posts with equal `createdAt` may come in any order the sort produces.
- PostsRoute.ListPosts: `parseInt` of `page` and `limit` is left out, and the model takes the parsed numbers. It requires `limit > 0`: the source also answers a limit of 0 (an empty page, with `totalPages` serialised as `null`) and a negative one (Prisma then takes from the end), and those are not modelled. A page below 1 gives a negative skip, which the store rejects; that is modelled as the 500 response.
- PlacesRoute.GetPlaces: `parseFloat` of `lat`, `lng` and `radius` is the parameter `num`, which always returns a real. Text that parses to `NaN` makes every distance comparison false and empties the list in the source; the model does not represent that.
- The Haversine distance `calculateDistance` (src/app/api/halal-places/route.ts:57-68) is floating-point trigonometry. It is the parameter `dist`, and only the filter built on it is verified.
- `toLowerCase` is modelled on ASCII letters only. That is exact for the comparison with `"true"`: the only other characters whose lower case contains an ASCII letter are U+0130 and U+212A, which lower to `i̇` and `k`, and neither letter occurs in `true`.
- Converting a string to a number (`Number(text)`) is the parameter `toNumber` of `HalalScanner.NumberOf`.
- The comment endpoint that the board posts to (src/app/api/posts/[id]/comments/route.ts) is not part of this model. The board's side of it is modelled: what is sent, and what happens on acceptance or rejection.
- Browser and SDK plumbing is left out because it is I/O: geolocation, the Kakao map SDK (src/components/KakaoMap.tsx), `fetch` itself, `window.location` and `history.replaceState`, `FileReader`, the file input refs, `formatDate`/`toLocaleDateString`, and the map component's selected-place panel and phone and Kakao links.
- The static pages, translation tables and styling are layout, and are left out: src/app/page.tsx, src/app/about/page.tsx, src/app/scanner/page.tsx, src/app/community/page.tsx and tailwind.config.js. The `?category=`/`?location=` URLs that src/app/page.tsx builds are the inputs of the `MapPage.Url…` lemmas.
- From prisma/seed.ts only four place records are used, as a test vector (`MapPage.SeedPlaces`), with the fields the filters read. Their coordinates, phones, ratings and descriptions are omitted.
- HalalScanner.Render: the result icon (src/components/HalalScanner.tsx:74-81) and the verdict colour (line 260) follow the same truthiness test as the verdict text. They are not part of the modelled panel. A render that throws is the screen `Crashed`; what an enclosing error boundary or the framework draws in its place is not modelled.
- PostsRoute.CreatePost: the store's other rejections, such as a unique-key clash or a text too long for its column, are not modelled. Only a wrong value type gives the 500 response.
- React's effect scheduling and the order in which asynchronous responses arrive are left out. Each handler is one pure state step.

## Findings

| source | as written | input that shows it | evidently intended | confidence | as-written member | corrected member |
|---|---|---|---|---|---|---|
| src/app/api/scan/route.ts:98 | `prompts[language] \|\| prompts.ko` reads inherited `Object.prototype` members | `language: "constructor"` (likewise `toString`, `__proto__`, …) gives a function, not a prompt | any language other than ko, en, ar uses the Korean prompt | medium, not executed | `ScanRoute.SelectPromptAsWritten`, `ScanRoute.HandleScan`, `ScanRoute.CallPrompt`, `ScanRoute.PromptFallbackCounterexample` | `ScanRoute.SelectPrompt` |
| src/components/CommunityBoard.tsx:118 | `categories[language]?.[category] \|\| category` reads inherited members | a post created with category `constructor`, which the create route accepts, is labelled with a function | unknown categories are shown as the raw string | medium, not executed | `CommunityBoard.CategoryTextAsWritten`, `CommunityBoard.CategoryTextCounterexample` | `CommunityBoard.CategoryText` |
| src/components/CommunityBoard.tsx:128 | `colors[category] \|\| gray` reads inherited members | category `toString` gets a function as its class name | unknown categories get the gray classes | medium, not executed | `CommunityBoard.CategoryColorAsWritten`, `CommunityBoard.CategoryColorCounterexample` | `CommunityBoard.CategoryColor` |
| src/app/map/page.tsx:75-116 | a successful `fetchHalalPlaces` never clears `error`, and the error screen is checked before the map | the first load fails, then "다시 시도" (retry) succeeds: the error screen stays | a successful retry shows the map | high, not executed | `MapPage.FetchPlacesAsWritten`, `MapPage.RetryNeverRecovers`, `MapPage.RetryCounterexample` | `MapPage.FetchPlaces`, `MapPage.RetryRecovers` |
| src/components/HalalScanner.tsx:83-92 | the scan route (src/app/api/scan/route.ts:146-177) coerces a string `is_halal` only for the history and returns the raw reply; the scanner tests `result.is_halal` for truthiness | the provider replies `{"is_halal": "false", …}`: the history stores not halal, the screen says 할랄입니다 (halal) | the screen shows the same coerced verdict as the history | high, not executed | `HalalScanner.VerdictAsWritten`, `HalalScanner.Render`, `HalalScanner.VerdictCounterexample`, `HalalScanner.ShownVerdictCounterexample` | `HalalScanner.Verdict`, `HalalScanner.CorrectedRender`, `HalalScanner.VerdictMatchesHistory` |

The handlers model the code as written: `ScanRoute.HandleScan` selects its prompt with `SelectPromptAsWritten`, and `HalalScanner.Render` shows `VerdictAsWritten`. The corrected members stand beside them with the intended property proved: `SelectPrompt` always gives a template, and `CorrectedRender` shows the verdict the history stores. The map page's retry and the board's labels and colours likewise have both an as-written and a corrected member.
