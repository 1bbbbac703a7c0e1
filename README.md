# Student notes marketplace: payment flow and client state, modelled in Dafny

This project models the logic of a storefront where students sell lecture notes. Buyers pay
through Stripe Checkout. The platform keeps a 15% fee and transfers the rest to the seller's
Stripe Connect account. The project has two parts.

**Payment and payout handlers.** These are the serverless functions:
- the multi-item checkout (`Checkout`);
- the webhook that completes orders, pays sellers and verifies accounts (`Settlement`);
- the three payout-account handlers (`ConnectAccount`, `AccountLink`, `AccountStatusCheck`);
- the older single-item pair (`LegacyCheckout`, `LegacyWebhook`).

The database (Supabase) is modelled as a class `Ledger.Store` with one method per query. Stripe
is modelled as a class `Gateway.PaymentGateway` that records the sessions, transfers and accounts
it was asked to create. Each method takes, as a parameter, the answer the outside world gives:
the query's error, Stripe's reply, the signature check's outcome. The handlers are imperative
methods over these two objects. Their `ensures` state the whole response and the new state for
every outcome. Money is integer yen.

**Client state.** These are the pure or in-place pieces of the React pages:
- the cart reducer (`Cart`);
- the dashboard's sales summary, ratings grouping and rating upsert (`Dashboard`);
- comment threads (`Comments`);
- the search bar's URL parameters (`Search`);
- the preview-image list of the listing form (`NoteForm`);
- the sign-up checks (`Registration`);
- PDF paging and file-type choice (`FileViewer`);
- the image carousel (`Carousel`).

Shared modules are `Wrappers` (Option, Result), `JsText` (the JavaScript string operations the
source uses: `trim`, `split`, `join`, `includes`, `toLowerCase`) and `Http` (status and JSON body).

The model follows the code as written, also where a more defensive flow would be expected (all
notes found or none charged, reconciliation of orphaned sessions, idempotent webhook delivery,
transfers that continue past a failure, keeping a verified status on reconnect, distinct error
statuses):
- Checkout does not fail when only some requested notes exist. It charges for the notes found.
  The metadata still lists every requested id.
- Nothing reconciles a Stripe session whose order insert failed. `Checkout.CreateCheckoutSession`
  states that the session exists and no order was written.
- The webhook has no duplicate-delivery check. `Settlement.RowsIgnoreCompletion` shows that a
  second delivery meets the same order rows, so it issues the same transfers again.
- The transfer loop stops at the first failed transfer and answers 400. Earlier transfers stay
  issued, and the orders stay completed.
- Connecting an account sets the profile to `pending` even if it was `verified` before
  (`ConnectAccount.PendingAfterConnect`). Status is not monotone.
- The Supabase checkout answers every failure, including invalid input, with status 500.

## Model

| member | source | states |
|---|---|---|
| Checkout.PlatformFee | supabase/functions/create-checkout-session/index.ts:94 | the fee is 15% of the price rounded to the nearest yen (halves up); for a price of at least zero, 0 <= fee <= price |
| Checkout.ThousandYenExample | supabase/functions/create-checkout-session/index.ts:94 | a 1000 yen note carries a 150 yen fee and leaves 850 for the seller |
| Checkout.RequestIds | supabase/functions/create-checkout-session/index.ts:34 | the ids of the request items, one per item, in order |
| Checkout.InvalidSellers | supabase/functions/create-checkout-session/index.ts:53-55 | empty exactly when every fetched note's seller has a non-empty account id and status verified; every entry is a fetched note that fails this |
| Checkout.CheckoutGate | supabase/functions/create-checkout-session/index.ts:29-59 | passes iff the request has items and a user id, the lookup succeeded, found at least one note and every seller is payable; otherwise the first failing check's message, in the handler's order |
| Checkout.LineItems | supabase/functions/create-checkout-session/index.ts:66-75 | one line item per fetched note: quantity 1, currency jpy, unit amount the stored price, name the title |
| Checkout.SessionMetadata | supabase/functions/create-checkout-session/index.ts:82-85 | metadata has exactly user_id (the buyer) and note_ids (the request ids joined with ',') |
| Checkout.SessionParamsFor | supabase/functions/create-checkout-session/index.ts:64-86 | the session request: LineItems of the found notes, the success and cart URLs on the request origin, the transfer group, and SessionMetadata; ClientPricesIgnored is proved about it |
| Checkout.PendingOrders | supabase/functions/create-checkout-session/index.ts:89-95 | one pending order per fetched note, all with the buyer and the session id, each with the platform fee of its stored price |
| Checkout.ClientPricesIgnored | supabase/functions/create-checkout-session/index.ts:34-86 | requests that differ only in the prices the client sends open identical sessions |
| Checkout.CreateCheckoutSession | supabase/functions/create-checkout-session/index.ts:20-124 | OPTIONS answers 200 with no effect; a failed check answers 500 with no session and no order; after a session is created, a failed insert answers 500 and leaves the session without orders; success appends exactly the pending orders and answers the session id |
| Ledger.NotesIn | supabase/functions/create-checkout-session/index.ts:35-47 | the lookup returns only notes with a requested id, each with its seller profile if one exists; empty iff no note has a requested id |
| Ledger.NotesInConcat | supabase/functions/create-checkout-session/index.ts:35-47 | the lookup filters the table row by row: the result for two parts of the table is the two results in table order |
| Ledger.NotesInSingle | supabase/functions/create-checkout-session/index.ts:35-47 | a single row is returned, joined with its seller profile (or none), exactly when its id is requested |
| Ledger.NotesInComplete | supabase/functions/create-checkout-session/index.ts:35-47 | every note of the table whose id is requested is returned, so the checkout charges it |
| Ledger.Store.SelectNotesIn | supabase/functions/create-checkout-session/index.ts:35-47 | on an error the error, otherwise exactly NotesIn of the tables (characterized by NotesInConcat, NotesInSingle, NotesInComplete) |
| Ledger.MarkCompleted | supabase/functions/webhook/index.ts:35-38 | orders of the session become completed, and every other order is unchanged |
| Ledger.Store.InsertOrders | supabase/functions/create-checkout-session/index.ts:97-101 | the rows are all appended, or none on an error |
| Ledger.Store.CompleteSessionOrders | supabase/functions/webhook/index.ts:35-40 | the orders table becomes MarkCompleted of the old one, or stays unchanged on an error |
| Ledger.JoinRow | supabase/functions/webhook/index.ts:45-52 | the inner joins of one order: its note and that note's seller profile, or nothing when either is missing; RowsComeFromSession and SessionOrderReachesLoop are stated with it |
| Ledger.SessionOrderRows | supabase/functions/webhook/index.ts:43-55 | the session's joinable orders in table order; characterized by RowsComeFromSession, SessionOrderReachesLoop, SessionRowsConcat and RowsIgnoreCompletion |
| Ledger.Store.SelectSessionOrderRows | supabase/functions/webhook/index.ts:43-55 | no data when the select fails, otherwise exactly SessionOrderRows of the tables |
| Ledger.SetAccountPending | supabase/functions/create-connect-account/index.ts:59-65 | the user's profile gets the account id and status pending; characterized by PendingAfterConnect |
| Ledger.Store.UpdateProfileAccount | supabase/functions/create-connect-account/index.ts:59-65 | returns the update's error; profiles become SetAccountPending of the old ones, or stay on an error; the other tables are unchanged |
| Ledger.VerifyAccount | supabase/functions/webhook/index.ts:87-90 | every profile with the account id becomes verified, the others stay; characterized by VerifyAccountMonotone |
| Ledger.Store.VerifyProfilesOf | supabase/functions/webhook/index.ts:87-92 | returns the update's error; profiles become VerifyAccount of the old ones, or stay on an error; the other tables are unchanged |
| Ledger.Store.UpdateRating | src/pages/Dashboard.tsx:404-408 | returns the update's error; the matching rating takes the new value, or the table stays on an error; the other tables are unchanged |
| Ledger.Store.InsertRating | src/pages/Dashboard.tsx:410-417 | returns the insert's error; the row is appended, or the table stays on an error; the other tables are unchanged |
| Ledger.Store.SelectSingleRating | src/pages/Dashboard.tsx:392-401 | one matching rating gives that row; zero or several give "no row", as PostgREST's `.single()` reports both with one code; an error is passed on |
| Gateway.PaymentGateway.CreateSession | supabase/functions/create-checkout-session/index.ts:64-86 | on success, exactly one session is recorded with the given parameters; nothing else changes |
| Gateway.PaymentGateway.CreateTransfer | supabase/functions/webhook/index.ts:67-72 | on success, exactly this transfer is recorded; nothing else changes |
| Gateway.PaymentGateway.CreateAccount | supabase/functions/create-connect-account/index.ts:39-55 | returns Stripe's reply; on success exactly the account built for the returned id is recorded; sessions and transfers are unchanged |
| Settlement.NetAmount | supabase/functions/webhook/index.ts:65 | net plus fee equals the price; a NULL fee counts as 0 |
| Settlement.TransfersFor | supabase/functions/webhook/index.ts:64-73 | one transfer per order row, of price minus fee, in jpy, to the seller's account, tagged with the intent's transfer group |
| Settlement.IssuedCount | supabase/functions/webhook/index.ts:64-73 | how many transfers succeed before the first failing call |
| Settlement.MoneyConservation | supabase/functions/webhook/index.ts:64-73 | over a session's rows, transfer amounts plus platform fees sum to the notes' current prices |
| Settlement.MarkCompletedIdempotent | supabase/functions/webhook/index.ts:35-38 | completing a session's orders twice gives the same rows as once |
| Settlement.RowsIgnoreCompletion | supabase/functions/webhook/index.ts:43-73 | the rows the transfer loop reads are the same before and after completion, so a redelivered event pays the sellers again |
| Settlement.RowsComeFromSession | supabase/functions/webhook/index.ts:43-55 | each row the loop sees is the join of an order with the session id (that order's fee, its note's price, its seller's account); no more rows than orders, and none when no order has the session id |
| Settlement.SessionOrderReachesLoop | supabase/functions/webhook/index.ts:43-55 | every order of the session whose note and seller profile exist yields its joined row |
| Settlement.SessionRowsConcat | supabase/functions/webhook/index.ts:43-55 | the rows keep the orders' table order: the rows of two parts of the table are the two results one after the other |
| Settlement.VerifyAccountMonotone | supabase/functions/webhook/index.ts:87-90 | the verification update makes every profile with the account id verified, leaves every other profile as it was, and changes no account id |
| Settlement.NoteIdsRoundTrip | supabase/functions/webhook/index.ts:31 | when no id contains a comma, splitting the note_ids written at checkout gives back the request ids |
| Settlement.IssueTransfers | supabase/functions/webhook/index.ts:64-73 | the loop issues the transfers of the first IssuedCount rows, in order, then reports the first error if any |
| Settlement.SettleSession | supabase/functions/webhook/index.ts:29-75 | missing note_ids or an update error answers 400 with no change; otherwise the session's orders are completed, then transfers are issued as IssueTransfers states, with 200 only if all succeed |
| Settlement.HandleWebhook | supabase/functions/webhook/index.ts:14-108 | a missing signature or a failed check answers 400 with no change; checkout.session.completed has every outcome of the session branch (400 with the thrown or returned message, 200 with no transfers when no rows come back, 400 on an intent error, transfers issued up to the first failure whose message is the 400 body); account.updated verifies the matching profiles iff all three flags are true and otherwise changes nothing; any other event answers 200 {received: true} with no change |
| AccountStatusCheck.StatusOf | supabase/functions/check-account-status/index.ts:31-35 | verified iff charges, details and payouts are all enabled; pending otherwise |
| AccountStatusCheck.CheckAccountStatus | supabase/functions/check-account-status/index.ts:15-59 | OPTIONS answers 204; a retrieve failure answers 500 with its message; otherwise 200 with status "verified" or "pending", "verified" iff all three flags hold |
| AccountStatusCheck.AgreesWithWebhook | supabase/functions/check-account-status/index.ts:31-35 | the status check says verified exactly for the accounts the account.updated webhook would promote |
| ConnectAccount.AccountFor | supabase/functions/create-connect-account/index.ts:40-56 | the account requested is express, JP, individual, manual payouts, with the given email |
| ConnectAccount.CreateConnectAccount | supabase/functions/create-connect-account/index.ts:27-94 | a failed account creation answers 500 and writes no profile; otherwise the account exists, and either the profile gets the account id with status pending and the response carries that id, or the update failed and the response is 500 with no id |
| ConnectAccount.PendingAfterConnect | supabase/functions/create-connect-account/index.ts:59-65 | only the user's profile changes; it gets the new account id and status pending whatever its status was |
| ConnectAccount.VerifiedAgainAfterWebhook | supabase/functions/create-connect-account/index.ts:59-65 | after connecting, the webhook's verification of the new account makes the profile verified again |
| AccountLink.LinkParamsFor | supabase/functions/create-account-link/index.ts:26-39 | a missing account id is reported first, then a missing origin; otherwise the link is for the account, with refresh and return URLs of the origin followed by the two dashboard paths |
| AccountLink.CreateAccountLink | supabase/functions/create-account-link/index.ts:14-68 | OPTIONS answers 204 without calling Stripe; validation errors and Stripe errors answer 400; otherwise 200 with the link url |
| AccountLink.AccountIdCheckedFirst | supabase/functions/create-account-link/index.ts:26-32 | with no account id, the answer is the account-id error whatever Stripe would say |
| LegacyCheckout.LegacySessionParams | api/create-checkout-session.ts:19-40 | one line item with quantity 1 and the request's price and title; metadata is exactly noteId and userId from the request |
| LegacyCheckout.LegacyOrder | api/create-checkout-session.ts:43-50 | the order has the request's note and buyer, the new session id, status pending and no fee |
| LegacyCheckout.CreateLegacyCheckoutSession | api/create-checkout-session.ts:10-61 | a non-POST request answers 405 with no session or order; a session error or insert error answers 500 "Internal server error"; success inserts exactly one pending order and answers the session id |
| LegacyCheckout.ClientPriceCharged | api/create-checkout-session.ts:16-28 | the charged amount is whatever price the client sends |
| LegacyWebhook.HandleLegacyWebhook | api/webhook.ts:10-45 | a non-POST request answers 405; a failed signature check answers 400; a completed session marks its orders completed (or answers 500 on an update error); other events answer 200 with no change |
| Cart.FindById | src/lib/cartContext.tsx:35 | finds an item iff one has the id; the item found is in the cart and has the id |
| Cart.Reduce | src/lib/cartContext.tsx:24-48 | cartReducer; characterized by AddExistingUnchanged, AddNewAppends, RemoveAbsentUnchanged, AddThenRemoveRestores, ClearEmpties and ReducePreserves |
| Cart.Run | src/lib/cartContext.tsx:51 | the state after dispatching the actions in order from a state; ReachableConsistent is proved about it |
| Cart.WithoutId | src/lib/cartContext.tsx:37 | keeps only cart items whose id differs |
| Cart.WithoutIdConcat | src/lib/cartContext.tsx:37 | the filter works item by item: every item whose id differs is kept, in cart order, and no other |
| Cart.AddExistingUnchanged | src/lib/cartContext.tsx:27-29 | adding an id already in the cart returns the state unchanged, so adding twice equals adding once |
| Cart.AddNewAppends | src/lib/cartContext.tsx:30-33 | adding a new id appends the item at the end and raises the total by its price |
| Cart.RemoveAbsentUnchanged | src/lib/cartContext.tsx:34-39 | removing an absent id leaves items and total unchanged |
| Cart.AddThenRemoveRestores | src/lib/cartContext.tsx:26-39 | adding a new item and then removing its id restores the earlier state |
| Cart.ClearEmpties | src/lib/cartContext.tsx:40-44 | clearing gives empty items and total 0 |
| Cart.ReducePreserves | src/lib/cartContext.tsx:24-48 | every action keeps ids pairwise distinct and the total equal to the sum of prices |
| Cart.ReachableConsistent | src/lib/cartContext.tsx:51 | from the initial state, after any actions, ids are distinct and the total is the sum of prices |
| Dashboard.FindSold | src/pages/Dashboard.tsx:85 | the position of the first summary entry for the note, or the end if there is none |
| Dashboard.Step | src/pages/Dashboard.tsx:77-97 | one reduce step: both totals grow by the order, and the note's entry is updated or appended; AddSale is proved equal to it |
| Dashboard.Summary | src/pages/Dashboard.tsx:77-102 | the left-to-right reduce from the empty summary; SummaryTotals, SummaryDistinct, SummaryCounts and SummaryRevenue are proved about it |
| Dashboard.AddSale | src/pages/Dashboard.tsx:77-97 | one call of the callback (the linear find, then the in-place update or the push) gives the reduce step whose fold is described by SummaryTotals, SummaryCounts and SummaryRevenue |
| Dashboard.SummarizeSales | src/pages/Dashboard.tsx:77-102 | the in-place fold computes the Summary of the orders; the sales tab (lines 237-262) runs the same fold |
| Dashboard.SummaryTotals | src/pages/Dashboard.tsx:82-83 | totalOrders is the number of orders; totalSales is the sum of their prices; per-note counts sum to totalOrders and per-note revenues to totalSales |
| Dashboard.SummaryDistinct | src/pages/Dashboard.tsx:85-95 | no note appears twice in notesSold |
| Dashboard.SummaryCounts | src/pages/Dashboard.tsx:86-94 | each entry's count is the number of orders of its note; a note without an entry has no orders |
| Dashboard.SummaryRevenue | src/pages/Dashboard.tsx:86-94 | with orders joined against one notes table, each entry's revenue is count times price |
| Dashboard.RatingsOf | src/pages/Dashboard.tsx:215-221 | the ratings of one note, and all of them |
| Dashboard.RatingsOfConcat | src/pages/Dashboard.tsx:215-221 | the grouping works rating by rating: exactly the input's ratings of the note, in input order |
| Dashboard.GroupRatingsByNote | src/pages/Dashboard.tsx:215-221 | each note with ratings has a bucket holding its ratings in input order; no other note has a bucket |
| Dashboard.UpsertKeepsOneRating | src/pages/Dashboard.tsx:392-419 | with at most one rating per note and user before, the upsert keeps that, and leaves exactly the new rating for the pair |
| Dashboard.RatingUpsert | src/pages/Dashboard.tsx:392-419 | update of the single matching row, otherwise an insert; UpsertKeepsOneRating is proved about it |
| Dashboard.HandleRating | src/pages/Dashboard.tsx:384-431 | signed out or a failed query shows the failure message and changes nothing; otherwise the table becomes the upsert and the page shows the new rating for the note |
| Comments.Bucket | src/components/CommentThread.tsx:65-74 | every comment in a bucket has that bucket's key (a NULL or empty parent_id goes under root) |
| Comments.BucketMembers | src/components/CommentThread.tsx:65-74 | a bucket holds only fetched comments, and every fetched comment with its key is in it |
| Comments.Threads | src/components/CommentThread.tsx:65-82 | one thread per root, in order, each with the bucket of its id as replies |
| Comments.CollectBuckets | src/components/CommentThread.tsx:65-74 | for every key, the reduce's bucket (or `[]` where none was created) is the comments of that key in fetch order |
| Comments.BuildThreads | src/components/CommentThread.tsx:65-82 | the reduce plus the forEach give Threads of the fetched comments |
| Comments.ThreadsAreParentless | src/components/CommentThread.tsx:65-80 | thread roots are exactly the fetched comments without a parent; each reply's parent is its thread's root |
| Comments.OrphansDropped | src/components/CommentThread.tsx:77-82 | a reply whose parent is not a root appears in no thread |
| Comments.AddRoot | src/components/CommentThread.tsx:126 | a new root is appended last with no replies; earlier threads are unchanged |
| Comments.AddReply | src/components/CommentThread.tsx:115-124 | the reply is appended to the matching parent's replies only; other threads are unchanged |
| Comments.WithoutComment | src/components/CommentThread.tsx:152 | drops exactly the comments with the id, keeping the others |
| Comments.DeleteRoot | src/components/CommentThread.tsx:158 | drops exactly the threads with the id, keeping the others |
| Comments.WithoutCommentConcat | src/components/CommentThread.tsx:152 | the reply filter works comment by comment: the kept comments keep their order and repeats, and a single comment is kept exactly when its id differs |
| Comments.DeleteRootConcat | src/components/CommentThread.tsx:158 | the thread filter works thread by thread: the kept threads keep their order and repeats, and a single thread is kept exactly when its root id differs |
| Comments.DeleteReply | src/components/CommentThread.tsx:147-156 | removes the reply from its parent's replies only; other threads are unchanged |
| Comments.AddThenDeleteRoot | src/components/CommentThread.tsx:125-158 | posting a root with a fresh id and deleting it restores the threads |
| Comments.AddThenDeleteReply | src/components/CommentThread.tsx:115-156 | posting a reply with a fresh id and deleting it restores the threads |
| Comments.AddRootMatchesRefetch | src/components/CommentThread.tsx:125-127 | the local update after posting a root equals rebuilding the threads with the new comment fetched last |
| Comments.AddReplyMatchesRefetch | src/components/CommentThread.tsx:115-124 | the local update after posting a reply equals rebuilding the threads with the reply fetched last |
| Comments.SubmitComment | src/components/CommentThread.tsx:88-136 | a blank draft or a post in flight does nothing; signed out or a failed insert keeps the view; otherwise the trimmed, non-empty comment is added as a reply or root, and the draft and reply target are cleared |
| Comments.DeleteComment | src/components/CommentThread.tsx:138-163 | a failed delete keeps the threads; otherwise the reply or root is deleted |
| Comments.UserRole | src/components/CommentThread.tsx:165-176 | the seller label iff the user is the note's seller; the questioner label otherwise |
| Search.Get | src/components/SearchBar.tsx:15 | finds a value iff some pair has the name, and the value found is that of the first pair with the name |
| Search.DeleteAll | src/components/SearchBar.tsx:40 | after delete, no pair has the name, and only original pairs remain |
| Search.DeleteAllConcat | src/components/SearchBar.tsx:40 | delete works pair by pair: every pair with another name is kept, in order, and no other |
| Search.SetValue | src/components/SearchBar.tsx:42 | URLSearchParams.set; characterized by GetAfterSet, SetKeepsOthers, SetAbsentAppends and SetReplacesFirst |
| Search.SetReplacesFirst | src/components/SearchBar.tsx:42 | set rewrites the first pair with the name in place and drops the later pairs with that name |
| Search.GetAfterSet | src/components/SearchBar.tsx:42 | after set, get returns the value set |
| Search.SetKeepsOthers | src/components/SearchBar.tsx:42 | set changes only the pairs with its name, and the others keep their order |
| Search.DeleteAbsent | src/components/SearchBar.tsx:50 | deleting an absent name changes nothing |
| Search.SetAbsentAppends | src/components/SearchBar.tsx:42 | setting an absent name appends the pair |
| Search.DeleteAppended | src/components/SearchBar.tsx:40 | deleting the name of the pair appended last gives back the earlier pairs |
| Search.SearchParams.Set | src/components/SearchBar.tsx:29 | the object's pairs become those of set, and get returns the value |
| Search.SearchParams.Delete | src/components/SearchBar.tsx:50 | the object's pairs become those of delete, and get finds nothing |
| Search.HandleSearch | src/components/SearchBar.tsx:25-35 | a blank query navigates nowhere; otherwise the target holds q as typed (untrimmed), then the selected category if there is one |
| Search.HandleCategoryClick | src/components/SearchBar.tsx:37-46 | the target is the current parameters with the clicked category toggled |
| Search.Toggled | src/components/SearchBar.tsx:38-43 | the toggle: delete the category when it is the clicked one, otherwise set it; ToggleSelects, ToggleTwiceRestores and ToggleTwiceFromOther are proved about it |
| Search.ClearFilters | src/components/SearchBar.tsx:48-53 | the target has no category, and every other parameter is kept in order |
| Search.ToggleSelects | src/components/SearchBar.tsx:38-43 | clicking the selected category removes it; clicking another selects that one; other parameters are kept in order |
| Search.ToggleTwiceRestores | src/components/SearchBar.tsx:38-43 | with no category set, clicking one category twice restores the parameters |
| Search.ToggleTwiceFromOther | src/components/SearchBar.tsx:38-43 | with another category selected, two clicks leave no category at all |
| NoteForm.AddPreviews | src/pages/CreateNote.tsx:111-118 | more than five files shows the message and keeps the list; otherwise the list is old plus new files cut to at most five, with the old files as a prefix |
| NoteForm.RemovePreview | src/pages/CreateNote.tsx:120-125 | the index filter; RemovePreviewSpec states its result |
| NoteForm.AtMostFive | src/pages/CreateNote.tsx:117 | after any number of selections, at most five previews remain |
| NoteForm.RemovePreviewSpec | src/pages/CreateNote.tsx:120-125 | a valid index removes exactly that image and keeps the order of the rest; any other index changes nothing |
| NoteForm.UploadPreviews | src/pages/CreateNote.tsx:66-83 | succeeds iff every upload succeeds, giving the URLs in file order; otherwise fails with the preview-upload message |
| NoteForm.PreviewUrl | src/pages/CreateNote.tsx:95 | the first uploaded URL, or null when there is none |
| Registration.FormError | src/pages/Register.tsx:21-37 | a mismatch is reported first, then a password shorter than 6, then a blank username; no error iff all three checks pass |
| Registration.SignUpErrorText | src/pages/Register.tsx:51-58 | "User already registered" maps to the already-registered message; another message containing "password" maps to the length message; anything else maps to the generic failure |
| Registration.Submit | src/pages/Register.tsx:16-71 | sign-up is called iff the checks pass; the page navigates to the dashboard iff sign-up returns a user; every failure shows its mapped message |
| FileViewer.LastPage | src/components/FileViewer.tsx:31 | the page count when loaded and positive, otherwise 1 |
| FileViewer.ChangePage | src/components/FileViewer.tsx:30-32 | the new page is always in [1, last page]; it is page + offset when that is in range, and the nearer end otherwise |
| FileViewer.UnloadedStaysOnFirst | src/components/FileViewer.tsx:31 | before the document loads, the page stays 1 |
| FileViewer.ButtonsDisabledAtEnds | src/components/FileViewer.tsx:78-93 | on a valid page, offset 0 never moves; each button is disabled iff pressing it would not move the page; an enabled button moves one page |
| FileViewer.Extension | src/components/FileViewer.tsx:46 | the extension contains no dot |
| FileViewer.ExtensionAfterLastDot | src/components/FileViewer.tsx:46 | for a URL ending in a dot and a dot-free text, the extension is that text lower-cased |
| FileViewer.ExtensionWithoutDot | src/components/FileViewer.tsx:46 | a URL without a dot is its own extension, lower-cased |
| FileViewer.ViewFor | src/components/FileViewer.tsx:74-147 | pdf gives the PDF view; jpg, jpeg, png or gif give the image view; anything else is unsupported |
| FileViewer.UpperCasePdf | src/components/FileViewer.tsx:46 | a ".PDF" URL opens in the PDF view |
| Carousel.Prev | src/components/ImagePreview.tsx:23 | an index in range stays in range, and the first image goes back to the last |
| Carousel.Next | src/components/ImagePreview.tsx:28 | the result is in range, and the last image goes on to the first |
| Carousel.SelectThumbnail | src/components/ImagePreview.tsx:72 | the clicked position becomes current; ThumbnailClick states what the page then shows |
| Carousel.ThumbnailClick | src/components/ImagePreview.tsx:58-74 | after a thumbnail click only that thumbnail carries the ring, the counter reads between 1 and the image count, and the image shown is the one next reaches from the first image after index presses |
| Carousel.PrevNextInverse | src/components/ImagePreview.tsx:21-29 | next after previous, and previous after next, return to the starting index |
| Carousel.NextTimesAdd | src/components/ImagePreview.tsx:28 | a + b presses of next are a presses and then b presses |
| Carousel.NextTimesBelowEnd | src/components/ImagePreview.tsx:28 | before the end of the list, each press of next moves one image on |
| Carousel.FullCircle | src/components/ImagePreview.tsx:28 | pressing next once per image returns to the starting index |

## Left out

- Network and platform calls are parameters, not modelled: Stripe and Supabase replies, CORS headers, `Deno.env` / `process.env`, request body parsing. A body that does not parse is covered only as far as the handler's own error path.
- The `Date.now()` transfer-group name is an opaque parameter (`CheckoutOracles.transferGroup`).
- Webhook signature verification (`constructEvent`) is an oracle that yields the event or an error message.
- Checkout.PlatformFee: computed with exact integer half-up rounding, `(15 * price + 50) / 100`, not the floating-point `Math.round(price * 0.15)`. The two agree except where a binary rounding error near a half changes the result.
- The JSON bodies' serialization, content types and the `URLSearchParams.toString()` query string are not modelled. Search targets are the ordered list of pairs.
- Comments.Threads: the reduce keeps top-level comments under the key "root" in the same record as the reply buckets. The lemmas assume no comment id or parent id is the text "root" (ids are UUIDs).
- JsText.ToLower lowers ASCII letters only, whereas `toLowerCase` covers all of Unicode. Registration's password length counts Unicode scalar values, not UTF-16 code units.
- Dashboard.HandleRating: the update targets the found row's id. With exactly one matching row, that is the same row as the (note, user) pair the model updates.
- LegacyWebhook.HandleLegacyWebhook: the `session.metadata!` destructuring that throws on missing metadata (an uncaught error, answered by the platform) is not modelled.
- Zoom in the file viewer and average-rating arithmetic are floating point and are left out.
- The rendering of all pages, routing, timers, file uploads to storage (apart from the preview-upload loop's outcomes), `crypto.randomUUID`, `window.location` and `navigator.onLine` are left out.
- Files that only render or wrap queries are not part of this model: Home, Terms, Navbar, Login, Success, Cart page, App, CartButton, ReviewForm, NoteDetails, SearchResults, RatingStars.
