# Knife marketplace: a verified model of the client-side core

This is a model of the Next.js marketplace for knives and watches. The store holds:

- the signed-in user;
- users, listings ("items"), reviews, direct messages and conversations.

Nine actions change the store: `login`, `register`, `logout`, `updateProfile`, `addItem`, `updateItemStatus`, `addReview`, `sendMessage` and `markMessagesRead`.

Four pages derive views from the store and feed it:

- the browse page: a search, filter, sort and pagination pipeline;
- the messages page: the chat list, the two-way thread, the send form and the mark-read effect;
- the sell form: image upload checks, specification rows, and the submit guard;
- the review form: one review per item and reviewer.

Modules, one concern each:

| file | module | models |
|---|---|---|
| `domain.dfy` | `Domain` | the entity records and the referential predicates between collections |
| `collections.dfy` | `Collections` | `find`, `filter`, `map`, index removal and a sort, on sequences |
| `text.dfy` | `Text` | `toLowerCase`, `includes`, `startsWith` and `trim` |
| `seed.dfy` | `Seed` | the seed collections and the invariants they satisfy |
| `store.dfy` | `Store` | the store as the class `AppStore`, with its actions as methods |
| `browse.dfy` | `Browse` | the listing query as functions; the page state as the class `BrowseView` |
| `messages.dfy` | `Messages` | the chat list and thread as functions; the send form and the mark-read effect as `MessagesView` |
| `sell.dfy` | `Sell` | upload checks and the specs fold as functions; the form as `SellForm` |
| `review_form.dfy` | `ReviewForm` | the render guard as a function; the rating, comment and submit as `ReviewFormState` |

Conventions:

- A state cell of a page, or a field of the store, is a field of a class.
- Each handler is a method whose `ensures` clauses give the whole new state.
- The derived values are functions.
- Lemmas next to each function state what it computes.

Timestamps are integer keys that sort like the ISO strings of the source:

- a date `2024-01-15` is `20240115`;
- an instant `2024-01-20T10:30` is `202401201030`.

A user's rating is kept in tenths (4.9 is 49).

Ids and times are method parameters; in the source they come from the clock.

## Model

| member | source | states |
|---|---|---|
| Collections.FindIndex | lib/store.ts:45 | `find` as an index: none exactly when no element matches, otherwise the first matching index |
| Collections.Filter | app/browse/page.tsx:47 | `filter` keeps exactly the matching elements, each as often as in the input, and never grows |
| Collections.FilterAppend | app/browse/page.tsx:47 | filtering a concatenation is concatenating the filtered parts |
| Collections.FilterKeepsAll | app/messages/page.tsx:54-56 | a filter every element passes returns the input |
| Collections.FilterDropsAll | app/messages/page.tsx:59-64 | a filter no element passes returns nothing |
| Collections.MapSeq | lib/store.ts:103-106 | `map` keeps the length and applies the function at every index |
| Collections.RemoveIndex | app/sell/page.tsx:105-107 | `filter((_, i) => i !== index)` drops exactly the element at an in-range index, keeps the rest in order, and changes nothing otherwise |
| Collections.InsertBy | app/browse/page.tsx:70-83 | inserting into a sorted sequence keeps it sorted and adds exactly that element |
| Collections.SortBy | app/browse/page.tsx:70-83 | the sort returns a sorted permutation of its input |
| Text.Lower | app/browse/page.tsx:53 | `toLowerCase` keeps the length, turns each ASCII capital into the small letter at the same place in the alphabet, and keeps every other character |
| Text.Includes | app/browse/page.tsx:56-58 | `includes` is true only of a needle no longer than the haystack |
| Text.StartsWith | app/sell/page.tsx:85 | a string that starts with a prefix also includes it |
| Text.IncludesEmpty | app/messages/page.tsx:54-56 | every string includes the empty string |
| Text.LeadingSpace | app/messages/page.tsx:89 | the leading white-space run: all white space, and followed by a non-space character or the end |
| Text.TrailingSpace | app/messages/page.tsx:89 | the trailing white-space run, symmetrically |
| Text.Trim | app/messages/page.tsx:89 | `trim` never lengthens a string |
| Text.TrimSpec | app/messages/page.tsx:89 | `trim` returns a slice that cuts away only white space, neither starts nor ends with white space, and is empty exactly for an all-white-space string |
| Text.TrimIdempotent | app/messages/page.tsx:89-91 | trimming an already trimmed text changes nothing |
| Seed.SeedUsersDistinct | lib/mock-data.ts:59-108 | seed user ids are pairwise distinct, and so are seed emails |
| Seed.SeedOneAdmin | lib/mock-data.ts:96-107 | exactly one seed user is an admin, and it is `admin-1` |
| Seed.SeedSellersMatch | lib/mock-data.ts:110-313 | every seed seller is a seed user, and every listing's seller name and avatar equal that user's |
| Seed.SeedItemsListable | lib/mock-data.ts:110-313 | every seed listing has an image, a positive price, a known category and a known condition |
| Seed.SeedItemStatuses | lib/mock-data.ts:267-313 | `item-7` and `item-8` are pending; every other seed listing is approved |
| Seed.SeedReviewersMatch | lib/mock-data.ts:315-347 | every seed reviewer is a seed user, with a matching name and avatar |
| Seed.SeedReviewedItemsExist | lib/mock-data.ts:315-347 | every seed review is of a seed listing |
| Seed.SeedReviewRatings | lib/mock-data.ts:315-347 | seed ratings lie in 1..5, and no item and reviewer pair repeats |
| Seed.SeedMessageSenders | lib/mock-data.ts:349-451 | every seed message's sender is a seed user |
| Seed.SeedMessageReceivers | lib/mock-data.ts:349-451 | every seed message's receiver is a seed user |
| Seed.SeedNoSelfMessages | lib/mock-data.ts:349-451 | no seed message is sent to its own sender |
| Seed.Latest | lib/mock-data.ts:453-469 | the latest message of a thread: none only for an empty thread, otherwise a member with the greatest time |
| Seed.LatestIsLast | lib/mock-data.ts:349-408 | a thread whose last message is strictly the newest has that message as its latest |
| Seed.OnlyLastUnread | lib/mock-data.ts:401-408 | a thread where only the last message is unread counts one unread message |
| Seed.ThreadOfParts | lib/mock-data.ts:349-451 | filtering a list whose middle holds exactly the pair's messages yields that middle |
| Seed.AgreesWithThread | lib/mock-data.ts:453-469 | such a thread, newest last and only the last unread, agrees with a conversation caching its last message and an unread count of one |
| Seed.SeedFirstConversationAgrees | lib/mock-data.ts:454-461 | `conv-1` joins two distinct users; its cached last message and time are those of their latest message; its unread count is their number of unread messages |
| Seed.SeedSecondConversationAgrees | lib/mock-data.ts:462-468 | the same for `conv-2` |
| Store.Merge | lib/store.ts:81-82 | `{ ...u, ...updates }`: each of the ten fields takes the update's value when the update gives it and keeps the user's value otherwise, so an empty update changes nothing |
| Store.NewAccount | lib/store.ts:57-68 | the new account has the given id, name, email and join date, an empty bio and location, no rating or reviews, and is not an admin |
| Store.NewListing | lib/store.ts:90-98 | the new listing is pending, carries the seller's id, name and avatar, and the draft's title, description, price, category, images, condition, brand and specs |
| Store.NewReview | lib/store.ts:113-120 | the new review carries the reviewer's id, name and avatar, and the draft's item, rating and comment |
| Store.SetStatus | lib/store.ts:105 | the status map keeps the number of listings and each listing's id and seller |
| Store.ClearUnread | lib/store.ts:176 | the mark-read map keeps each conversation's id and participants, and each unread count either stays or becomes zero |
| Store.Upsert | lib/store.ts:140-166 | the conversation list grows by at most one, and the conversations already there keep their ids, participants and unread counts |
| Store.TotalUnread | components/navigation.tsx:43-46 | with no negative count, the badge total is non-negative, and zero exactly when no conversation has unread messages |
| Store.SetStatusOnlyStatus | lib/store.ts:103-106 | `updateItemStatus` changes only the status, and only of the items carrying that id |
| Store.SetStatusUnknownId | lib/store.ts:103-106 | an unknown item id changes nothing |
| Store.SetStatusIdempotent | lib/store.ts:103-106 | setting the same status twice is setting it once |
| Store.ClearUnreadSpec | lib/store.ts:174-177 | `markMessagesRead` zeroes the unread count of the conversations with that id and keeps every other conversation |
| Store.ClearUnreadIdempotent | lib/store.ts:174-177 | marking read twice is marking read once |
| Store.ClearUnreadUnknownId | lib/store.ts:174-177 | an unknown conversation id changes nothing |
| Store.TotalUnreadAppend | lib/store.ts:155-166 | appending a conversation adds its unread count to the badge total |
| Store.TotalUnreadLastMessage | lib/store.ts:145-154 | recording a new last message leaves the badge total as it was |
| Store.TotalUnreadClear | lib/store.ts:174-177 | marking read never raises the badge total, and the total stays non-negative |
| Store.UpsertSpec | lib/store.ts:139-166 | with a conversation of the pair, the list keeps its length; without one, exactly one conversation `[sender, receiver]` with no unread messages is appended; either way some conversation of the pair holds the new last message; no unread count changes |
| Store.UpsertExisting | lib/store.ts:140-154 | when a conversation of the pair exists, the first one and any other with its id get the new last message and time and change in nothing else, and every other conversation stays as it was |
| Store.UpsertTwice | lib/store.ts:139-166 | two messages in a row for a pair without a conversation leave exactly one new conversation, holding the second message |
| Store.UpsertKeepsShape | lib/store.ts:139-166 | conversations keep two participants and non-negative unread counts |
| Store.SameIdsSameUsers | lib/store.ts:79-83 | a profile update that keeps ids keeps every known user id known |
| Store.KnownGrows | lib/store.ts:71-74 | appending a user keeps the known ids and adds the new one |
| Store.AppStore.constructor | lib/store.ts:36-42 | the store starts signed out with the seed collections, and they are consistent |
| Store.AppStore.Login | lib/store.ts:44-51 | true exactly when some user's email is equal to the argument; then signs in as the first such user, otherwise changes nothing; the password is ignored |
| Store.AppStore.Register | lib/store.ts:53-75 | false, changing nothing, when the email is taken; otherwise appends exactly one user with that name and email, an empty bio and location, zero rating and reviews, not an admin, and signs in as that user |
| Store.AppStore.Logout | lib/store.ts:77 | signs out and touches nothing else |
| Store.AppStore.UpdateProfile | lib/store.ts:79-83 | merges the update into the signed-in user and the user with the same id, leaving every other user as it was; signed out, nothing changes |
| Store.AppStore.AddItem | lib/store.ts:85-101 | signed out, nothing changes; otherwise appends one pending listing whose seller id, name and avatar are the signed-in user's |
| Store.AppStore.UpdateItemStatus | lib/store.ts:103-106 | the listings become `SetStatus` of the old ones, with no permission or transition check |
| Store.AppStore.AddReview | lib/store.ts:108-123 | signed out, nothing changes; otherwise appends one review with the given item, rating and comment and the reviewer's id, name and avatar, without checking for an earlier review |
| Store.AppStore.SendMessage | lib/store.ts:125-172 | signed out, nothing changes; otherwise appends one unread message from the signed-in user and updates the conversations by `Upsert`; the badge total never changes |
| Store.AppStore.MarkMessagesRead | lib/store.ts:174-177 | the conversations become `ClearUnread` of the old ones, and the badge total does not grow |
| Browse.SortStepPermutes | app/browse/page.tsx:70-83 | the sort step is a permutation: ascending price, descending price or newest first, and any other value keeps the order |
| Browse.FilteredItems | app/browse/page.tsx:47-86 | the results are approved items of the store |
| Browse.FilteredItemsSpec | app/browse/page.tsx:47-86 | the results are a permutation of exactly the approved items that pass the case-insensitive search of title, brand and description and the category and condition tests ("all" passes everything) |
| Browse.FiltersSelect | app/browse/page.tsx:47-68 | the approval, search, category and condition filters together keep exactly the items `Selected` accepts, each as often as in the store |
| Browse.EmptySearchKeepsAll | app/browse/page.tsx:52 | an empty search drops no approved item that passes the other tests |
| Browse.TotalPages | app/browse/page.tsx:88 | the page count is the least count of pages of three that holds every result |
| Browse.SliceBound | app/browse/page.tsx:90-93 | a negative `slice` bound `i` becomes `max(0, len + i)`, any other becomes `min(i, len)` |
| Browse.Slice | app/browse/page.tsx:90-93 | `slice` returns the elements from the start bound up to the end bound, and nothing when the end bound is not past the start bound |
| Browse.PageItems | app/browse/page.tsx:89-93 | a page shows at most three of the results |
| Browse.PageItemsSpec | app/browse/page.tsx:89-93 | page p shows results `(p-1)*3` up to `(p-1)*3+3`, so at most three, and at least one on every page from 1 to the page count |
| Browse.PagesCoverResults | app/browse/page.tsx:88-93 | every result is on page `k/3+1` at position `k%3`, and that page exists |
| Browse.ActiveFiltersCount | app/browse/page.tsx:99-101 | at most two; zero exactly when category and condition are both "all", two exactly when neither is |
| Browse.BrowseView.constructor | app/browse/page.tsx:39-44 | empty search, condition "all", newest first, page 1, and the category from the URL when present and non-empty, else "all" |
| Browse.BrowseView.SetSearch | app/browse/page.tsx:95-97 | sets the search, and resets to page 1 exactly when it changed |
| Browse.BrowseView.SetCategory | app/browse/page.tsx:95-97 | sets the category, and resets to page 1 exactly when it changed |
| Browse.BrowseView.SetCondition | app/browse/page.tsx:95-97 | sets the condition, and resets to page 1 exactly when it changed |
| Browse.BrowseView.SetSortBy | app/browse/page.tsx:95-97 | sets the order, and resets to page 1 exactly when it changed |
| Browse.BrowseView.PreviousPage | app/browse/page.tsx:312 | moves back one page but never below page 1 |
| Browse.BrowseView.NextPage | app/browse/page.tsx:341-343 | moves on one page but never past the last; a page within range stays within range |
| Browse.BrowseView.GoToPage | app/browse/page.tsx:325 | a numbered button selects that page |
| Browse.BrowseView.ClearFilters | app/browse/page.tsx:103-107 | category and condition become "all" and the search empty, so no filter is counted active; the order is kept; the page resets exactly when something changed |
| Browse.BrowseView.Visible | app/browse/page.tsx:88-93 | the page shows at most three results, all approved items of the store |
| Messages.ChatUsers | app/messages/page.tsx:43-52 | the chat list is drawn from the users and never holds the signed-in user |
| Messages.ChatUsersSpec | app/messages/page.tsx:43-52 | the chat list never holds the signed-in user; it holds every other user sharing a conversation with them, and the user named in the URL, and nobody else |
| Messages.FilteredChatUsers | app/messages/page.tsx:54-56 | the search result is drawn from the chat list |
| Messages.FilteredChatUsersSpec | app/messages/page.tsx:54-56 | the search keeps exactly the chat users whose lower-cased name includes the lower-cased query; an empty query keeps the whole list |
| Messages.SelectedUser | app/messages/page.tsx:58 | the selected user is found exactly when some user has the selected id, and is then the first such user |
| Messages.ConversationMessages | app/messages/page.tsx:59-68 | the thread holds only store messages between the two, in either direction, oldest first |
| Messages.ConversationMessagesSpec | app/messages/page.tsx:59-68 | the thread is a permutation of exactly the messages between the two users, in either direction, ordered oldest first |
| Messages.ConversationMessagesNobody | app/messages/page.tsx:59-64 | with nobody signed in or nobody selected, the thread is empty |
| Messages.SentMessageInThread | app/messages/page.tsx:59-64 | a message just sent shows in the thread of both the sender and the receiver |
| Messages.MessagesView.constructor | app/messages/page.tsx:36-40 | opens on the user named in the URL, with an empty message and search |
| Messages.MessagesView.SelectUser | app/messages/page.tsx:171 | selects that user |
| Messages.MessagesView.Deselect | app/messages/page.tsx:234 | clears the selection |
| Messages.MessagesView.EditMessage | app/messages/page.tsx:308 | sets the message text |
| Messages.MessagesView.EditSearch | app/messages/page.tsx:151 | sets the search text |
| Messages.MessagesView.MarkSelectedRead | app/messages/page.tsx:74-85 | with a selected user and a signed-in user, the first conversation of the two is marked read, and then every conversation with its id shows no unread messages; otherwise nothing changes |
| Messages.MessagesView.HandleSendMessage | app/messages/page.tsx:87-93 | a blank message or a missing selection changes nothing; otherwise the input is cleared and, when signed in, the trimmed text is sent to the selected user, while signed out the store is left as it was; a sent message is never blank and never starts or ends with white space |
| Sell.UploadOutcome | app/sell/page.tsx:74-103 | an upload reads at most the chosen files, a prefix of them in order |
| Sell.UploadOutcomeSpec | app/sell/page.tsx:74-103 | an upload shows no error exactly when the count fits within ten and every file is an image of at most 5 MiB, and then reads them all; otherwise it reads exactly the files before the first rejected one, and shows that file's message; a batch over the limit reads nothing |
| Sell.SpecsToMap | app/sell/page.tsx:135-143 | every key of the specs is non-empty and not `__proto__`, and every value is non-empty |
| Sell.SpecsToMapSpec | app/sell/page.tsx:135-143 | a key is in the specs exactly when a row with that key has a non-empty key and value and the key is not `__proto__`, and its value is that of the last such row |
| Sell.SellForm.constructor | app/sell/page.tsx:26-38 | an empty form with one empty specification row and no images |
| Sell.SellForm.EditForm | app/sell/page.tsx:207 | replaces the form fields |
| Sell.SellForm.HandleImageUpload | app/sell/page.tsx:74-103 | the reads started and the error shown are exactly those of `UploadOutcome` |
| Sell.SellForm.ReaderLoaded | app/sell/page.tsx:97-100 | a finished read moves its URL from the pending reads to the images, so no URL is gained or lost |
| Sell.SellForm.RemoveImage | app/sell/page.tsx:105-107 | removes exactly the image at the index |
| Sell.SellForm.AddSpec | app/sell/page.tsx:109-111 | appends one empty row, which leaves the folded specs unchanged |
| Sell.SellForm.RemoveSpec | app/sell/page.tsx:113-115 | removes exactly the row at the index; offered with two or more rows, it always leaves a row |
| Sell.SellForm.UpdateSpec | app/sell/page.tsx:117-121 | for the index of a shown row, changes only the given field of that row |
| Sell.SellForm.HandleSubmit | app/sell/page.tsx:123-165 | with no image, shows the error and adds nothing; otherwise adds one listing built from the form, the images and the folded specs, and shows success; submitted while enabled, the listing has an image, a category and a condition, and is pending |
| ReviewForm.ExistingReview | components/review-form.tsx:24 | found exactly when the signed-in user has a review of the item, and then it is the first such review |
| ReviewForm.ViewOf | components/review-form.tsx:26-38 | nothing signed out; the form exactly when signed in with no review of the item yet |
| ReviewForm.StarsShowRating | components/review-form.tsx:77-80 | with nothing hovered, exactly the first `rating` stars are filled |
| ReviewForm.AppendReviewSpec | lib/store.ts:108-123 | appending a review keeps one review per item and reviewer exactly when that pair had none |
| ReviewForm.ReviewFormState.constructor | components/review-form.tsx:19-22 | no rating, no hover, an empty comment, not submitting, so the ratings are in range |
| ReviewForm.ReviewFormState.ClickStar | components/review-form.tsx:69-73 | star i of the five chooses rating i + 1, in 1..5, and the ratings stay in range |
| ReviewForm.ReviewFormState.HoverStar | components/review-form.tsx:74 | hovering star i of the five previews rating i + 1, in 1..5 |
| ReviewForm.ReviewFormState.LeaveStar | components/review-form.tsx:75 | leaving the stars clears the preview, and the ratings stay in range |
| ReviewForm.ReviewFormState.EditComment | components/review-form.tsx:92 | sets the comment, and the ratings stay in range |
| ReviewForm.ReviewFormState.HandleSubmit | components/review-form.tsx:40-57 | without a rating nothing changes; otherwise it passes exactly item, rating and comment to `addReview` and resets the rating and comment; a submitted rating lies in 1..5; submitted from a shown form it keeps one review per item and reviewer |

## Left out

- Persistence. The `persist` middleware and its browser storage are I/O in a library outside this model.
- Generated ids and times. `Date.now()` and `new Date().toISOString()` become method parameters. Fresh ids are assumed only where uniqueness matters: `Register` keeps consistency only for an id no user has.
- Date parsing. `new Date(...).getTime()` in the two sorts becomes comparison of integer timestamp keys.
- Floating point. `Number.parseFloat` of the price text is not modelled. `Sell.SellForm.HandleSubmit` takes the parsed price as an integer parameter.
- Sell.SellForm.HandleSubmit: the one-second delay, the `isSubmitting` flag while it runs, and the redirect afterwards are collapsed into one atomic step.
- ReviewForm.ReviewFormState.HandleSubmit: the half-second delay and the `onSuccess` callback are not modelled.
- Sell.SellForm.HandleImageUpload: the count check, as in the source, compares against shown images only. Reads still pending are not counted, so two quick uploads can exceed ten images; `Sell.UploadOutcomeSpec` bounds one upload only.
- Sell.SellForm.UpdateSpec: the source writes the field into the row object, which the previous list shares. Rows are values here, so that aliasing is not modelled.
- Sell.SellForm.UpdateSpec: requires the index of a shown row, as every caller passes one. The `TypeError` that an index past the rows would raise is not modelled.
- Collections.SortBy: the contract fixes the result only up to the order of elements with equal keys. JavaScript's sort is stable, so equal prices or dates keep their earlier order; that stability is not stated.
- Text.Lower: `toLowerCase` is modelled for ASCII letters only. Other characters are kept as they are, while JavaScript also lower-cases non-ASCII letters.
- The browser's own validation of `required` and `min` attributes on the sell form is not modelled. Neither is the `accept="image/*"` filter of the file picker.
- Messages.MessagesView.MarkSelectedRead: it models one run of the mark-read effect. The effect runs again whenever `conversations` changes, and `markMessagesRead` always stores a new array. Re-running on that new array is not modelled, because the model compares values, not array identity. `Store.ClearUnreadIdempotent` shows that such repeated runs change no value.
- Rendering: markup, icons, the hero, footer, category and card components, the navigation bar (beyond the badge total `Store.TotalUnread`), and the scroll effect of the messages page.
- The login, register, profile, listing and moderation pages only forward to store actions. The admin gate of the moderation page is a UI check that the store does not repeat; `Store.AppStore.UpdateItemStatus` accepts any caller.
- The seed conversations are checked one lemma each (`Seed.SeedFirstConversationAgrees`, `Seed.SeedSecondConversationAgrees`), not as a single quantified statement.
