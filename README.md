# SUNO in Dafny

SUNO (shown as SUNOMSI) is a local task marketplace. People post tasks, workers
make offers, and the two sides chat. Reviews, push notifications and a worker
directory sit around that. It is a React single-page app over a Supabase
backend, plus one Deno function that turns database row changes into
notifications and web pushes.

This project models the logic inside the app's pages, hooks and that function:

- the chat message list and its two writers, the optimistic send and the
  realtime feed;
- conversation resolution;
- the notification classifier and its push fan-out;
- the comment reply tree;
- base64url key decoding and the push subscription upsert;
- the form validators and the skills parser;
- search filters and rating order;
- the optimistic like, privacy and worker switches;
- the task lifecycle gates;
- path-based navigation rules;
- the storage helpers;
- the `.env` reader of the schema check script.

Every database read or write is a parameter, or a field standing for the
table. Examples are a `bool` saying whether the write returned an error, a
`seq` of rows, or a `set` of stored names.

The shared modules are:

- `Wrappers`: `Option`, `Result` and JavaScript's `n || 0`.
- `Strings`: JavaScript's `trim`, ASCII `toLowerCase`, `includes`, `split`,
  `join` and `startsWith` on `seq<char>`.
- `Seqs`: filter, subsequence, ordering and index removal.
- `Base64`: `btoa` and the WHATWG forgiving `atob`.
- `Likes`: the optimistic like state shared by task and comment cards.

Each source file then has its own module, whose name follows the file.

Code that updates state step by step is written as a class with `modifies`
clauses. Examples are `handleSend`, `handleLike`, `handleToggle`, the
fan-out loop and the `.env` loop. Each method's `ensures` ties its new state
to a specification function. The properties of that function are proved as
lemmas. The pure rules are written as functions with lemmas about them:
classification, titles, filters, and the skills parse and join.

Each `states` cell below says what the member's contract promises.

## Model

| member | source | states |
|---|---|---|
| Chat.ApplyRemoteCases | src/pages/Chat.jsx:83-100 | A realtime message whose id is listed leaves the list unchanged. Otherwise the first optimistic entry with the same body and sender is replaced in place, and the length and every other entry stay the same. Failing that, the message is appended. |
| Chat.ApplyRemoteIdempotent | src/pages/Chat.jsx:85 | Delivering the same realtime message twice has the effect of delivering it once. |
| Chat.ApplyRemoteKeepsNoDup | src/pages/Chat.jsx:83-100 | The realtime updater never makes a message id appear twice. |
| Chat.ConfirmSentAsWritten | src/pages/Chat.jsx:144-152 | The success updater as written: the length is kept; a missing temp id leaves the list unchanged; otherwise the temp entry is overwritten by the server message. |
| Chat.EarlyRealtimeTakesFirstEntry | src/pages/Chat.jsx:88-98 | With two pending sends of the same text, the second's realtime message replaces the first provisional entry. |
| Chat.SecondSuccessAfterEarlyRealtime | src/pages/Chat.jsx:144-152 | The second send's success then writes its message over its own entry, showing it twice; the corrected updater drops that entry instead. |
| Chat.DuplicateAfterEarlyRealtime | src/pages/Chat.jsx:85-152 | Two pending sends of the same text; the second's realtime message arrives first. The written success updater then lists that message twice, and the corrected one lists it once. |
| Chat.ConfirmSentKeepsNoDup | src/pages/Chat.jsx:144-152 | The corrected success updater never lists a message id twice. |
| Chat.RemoveTemp | src/pages/Chat.jsx:158 | The failure updater removes the temp id and keeps every other entry, adding nothing. The result is a subsequence of the list, shorter by exactly the number of entries with the temp id. |
| Chat.RemoveKeepsNoDup | src/pages/Chat.jsx:158 | Removing the temp entry keeps ids unique. |
| Chat.AppendKeepsNoDup | src/pages/Chat.jsx:136 | Appending a message with a new id keeps ids unique. |
| Chat.RealtimeReplacesTemp | src/pages/Chat.jsx:88-98 | For a single send, a realtime message arriving first takes the provisional entry's place. |
| Chat.SuccessReplacesTempAsWritten | src/pages/Chat.jsx:144-152 | For a single send, the success updater as written, arriving first, swaps in the stored message. |
| Chat.SuccessReplacesTemp | src/pages/Chat.jsx:144-152 | For a single send, a success arriving first swaps in the stored message. |
| Chat.OneSendEitherOrderAsWritten | src/pages/Chat.jsx:85-152 | For a single send, the success updater as written also ends with the previous list plus the one stored message, in either order. The duplicate needs two sends. |
| Chat.OneSendEitherOrder | src/pages/Chat.jsx:85-158 | For a single send, whichever of success and realtime is processed first, the list ends as the previous list plus the one stored message. A failure leaves the previous list. |
| Chat.PresenceRules | src/pages/Chat.jsx:164-171 | The status is Offline exactly when `last_seen` is missing, and Online exactly when less than 120000 ms have elapsed. Once a user reads "Last seen…", they stay that way as time goes on. |
| Chat.ChatView.constructor | src/pages/Chat.jsx:25-28 | The list starts as the cached messages (ids unique) and the input as ''. |
| Chat.ChatView.BeginSend | src/pages/Chat.jsx:119-136 | Blank input changes nothing. Otherwise the input is cleared and one optimistic entry with the trimmed text and the sender is appended. Ids stay unique. |
| Chat.ChatView.OnRealtime | src/pages/Chat.jsx:83-100 | The list becomes `ApplyRemote` of the old list, and ids stay unique. |
| Chat.ChatView.OnSendSuccess | src/pages/Chat.jsx:144-152 | The list becomes the corrected `ConfirmSent` of the old list, and ids stay unique. |
| Chat.ChatView.OnSendFailure | src/pages/Chat.jsx:154-158 | The input is restored to the sent text, and the temp entry is removed. |
| UseChat.FindPairSpec | src/hooks/useChat.js:121-127 | The match found has exactly two participants, both ids among them, and no earlier row matches. None is found exactly when no row is an exact pair. |
| UseChat.FindPairAfterContains | src/hooks/useChat.js:115-125 | Filtering by `contains` first does not change which conversation is found. |
| UseChat.ExactPairOfTwo | src/hooks/useChat.js:121-125 | For distinct ids, an exact pair is `[a, b]` or `[b, a]`, so a three-party conversation is never returned. |
| UseChat.SelfPairAcceptsPartner | src/hooks/useChat.js:121-125 | For a self-chat (a == b), the test accepts any two-party conversation containing a. |
| UseChat.NewConversationShape | src/hooks/useChat.js:130-136 | A new conversation has participants `[current, other]` and last message 'Started a new conversation'. The unread count is 0 for current and 1 for other, or 1 when they are the same. |
| UseChat.ResolveTwiceSameId | src/hooks/useChat.js:115-136 | After a creation for a pair with no match, the next lookup finds the new row. So a second resolve whose lookup succeeds returns the same id and inserts nothing. |
| UseChat.OtherUserSpec | src/hooks/useChat.js:30 | The other user is the first participant different from `userId`, falling back to `userId` itself. |
| UseChat.FetchConversations | src/hooks/useChat.js:11-48 | A missing or empty `userId`, or an error, gives `[]`. Otherwise each row gets the other user's profile. |
| UseChat.FetchConversationsFallback | src/hooks/useChat.js:39 | A missing profile becomes 'Unknown User' with no avatar. |
| UseChat.SetLastMessageSpec | src/hooks/useChat.js:83-89 | Only the conversation with that id gets its `last_message` and time updated. The other rows stay as they were. |
| UseChat.SetLastMessage | src/hooks/useChat.js:83-89 | The update keeps the number of conversations. |
| UseChat.ChatBackend.GetOrCreateConversation | src/hooks/useChat.js:101-147 | An existing exact pair is reused. Otherwise the new record is inserted and its id returned, and an insert error is returned without inserting. |
| UseChat.ChatBackend.SendMessage | src/hooks/useChat.js:67-98 | An insert error changes neither table. Otherwise the message is added with `read: false`, and then the conversation's last message is set. |
| PushNotification.Or | supabase/functions/push-notification/index.ts:42-43 | `v \|\| d` keeps a truthy value and replaces any other by the default. |
| PushNotification.FindOther | supabase/functions/push-notification/index.ts:37 | The result is the first participant different from the sender, or undefined when there is none. |
| PushNotification.AcceptedWorker | supabase/functions/push-notification/index.ts:69-74 | A found worker comes from an accepted application of the task. None is found when there is no such application. |
| PushNotification.AcceptedWorkerSpec | supabase/functions/push-notification/index.ts:69-74 | `.single()`: when exactly one application of the task is accepted, its worker is found. When two or more are, none is. |
| PushNotification.AcceptedWorkerOnly | supabase/functions/push-notification/index.ts:69-74 | The only accepted row gives its worker. |
| PushNotification.AcceptedWorkerTwo | supabase/functions/push-notification/index.ts:69-74 | Two accepted rows give no worker. |
| PushNotification.Target | supabase/functions/push-notification/index.ts:85-88 | A rule yields a notice exactly when its user is truthy. |
| PushNotification.Classify | supabase/functions/push-notification/index.ts:25-88 | Every notice produced has a truthy target user. |
| PushNotification.MessageRuleWins | supabase/functions/push-notification/index.ts:31-46 | An INSERT with a truthy `conversation_id` is a chat message, even when `offer_price` is also set. |
| PushNotification.MessageRuleContent | supabase/functions/push-notification/index.ts:34-44 | The target is the first participant who is not the sender. The title is the sender's `display_name` when truthy, else 'New Message'. The body is `record.body`, else 'Sent you a photo'. The url is `/messages/<id>`. An unknown conversation yields no notice. |
| PushNotification.OfferRuleFires | supabase/functions/push-notification/index.ts:46-55 | A new offer with task id and price notifies the task creator only when the task is found. The body embeds the price and the title. |
| PushNotification.AcceptedRuleFires | supabase/functions/push-notification/index.ts:56-62 | A change to 'accepted' notifies `record.worker_id`. An update whose old status was already 'accepted' is skipped. |
| PushNotification.CompletedRuleFires | supabase/functions/push-notification/index.ts:64-75 | With exactly one accepted application, a completion sends its worker the notice 'Job Completed ✅', with body `"<title>" has been marked as completed.` and url `/tasks/<id>`. A falsy worker id sends nothing. No accepted application, or two, sends nothing. |
| PushNotification.ReviewRuleFires | supabase/functions/push-notification/index.ts:77-83 | An INSERT with a truthy rating, and no earlier rule matching, notifies the worker, with the rating in the body. |
| PushNotification.NullRecord | supabase/functions/push-notification/index.ts:31-83 | A null record on INSERT or UPDATE is a TypeError, which becomes a 500. Any other type matches no rule. |
| PushNotification.DeletedIdsIff | supabase/functions/push-notification/index.ts:154-157 | An id is pruned exactly when some subscription with that id got a 404 or 410 and its delete went through. |
| PushNotification.Prune | supabase/functions/push-notification/index.ts:157 | A row survives exactly when its id was not deleted. |
| PushNotification.PruneTwice | supabase/functions/push-notification/index.ts:157 | Deleting some ids and then others is the same as deleting them all at once. |
| PushNotification.PruneNone | supabase/functions/push-notification/index.ts:154-157 | When nothing expired, the table is unchanged. |
| PushNotification.FanOutStep | supabase/functions/push-notification/index.ts:115-162 | One more subscription adds one attempt, and one deletion when it expired and its delete went through. |
| PushNotification.PruneExactlyExpired | supabase/functions/push-notification/index.ts:115-164 | With unique ids, a row survives the fan-out exactly when it is not one of the pushed subscriptions that expired with a delete that went through. Other errors and failed deletes leave it. |
| PushNotification.Reached | supabase/functions/push-notification/index.ts:115-137 | `map` pushes to a prefix of the subscriptions. No callback in it throws, and the callback for the subscription after it, if any, does. The handler's callbacks throw when `atob` rejects a key (`KeysUndecodable`). |
| PushNotification.ReachedStep | supabase/functions/push-notification/index.ts:115-137 | Past `i` subscriptions, `map` goes on exactly when the next callback does not throw, and otherwise stops there. |
| PushNotification.ReachedAllWhenStoredByBtoa | src/hooks/usePushNotifications.js:82-83 | Keys stored as `btoa` of bytes, as the subscribe flow writes them, always decode, so every subscription is reached. |
| PushNotification.AttemptsFor | supabase/functions/push-notification/index.ts:112-152 | Each subscription gets exactly one attempt, in order, with the same title, body and url. |
| PushNotification.PushFunction.Serve | supabase/functions/push-notification/index.ts:19-173 | Bad JSON or a TypeError gives 500 and no writes. No target gives "Skipped" and no writes. Otherwise the notice is saved unless the insert fails. With no subscriptions, nothing is pushed. Otherwise the subscriptions up to the first undecodable key are attempted, and the expired ones whose delete succeeds are pruned. The response is success when every key decodes and 500 otherwise. |
| PushNotification.PushFunction.FanOut | supabase/functions/push-notification/index.ts:115-164 | Every subscription before the first undecodable key is attempted once, in order, and the result says whether all were reached. Exactly the 404/410 ones whose delete succeeds are deleted, and the notifications are untouched. |
| PushNotification.PushFunction.PushUntilThrow | supabase/functions/push-notification/index.ts:115-162 | The callbacks run in order and stop at the first that throws. Each earlier subscription gets its push, and its delete when it expired and the delete succeeds. |
| PushNotification.PushFunction.Push | supabase/functions/push-notification/index.ts:151-161 | One push is recorded. The subscription is deleted by id when it expired and its delete succeeds, and kept otherwise. |
| PushSubscribe.PaddingCount | src/hooks/usePushNotifications.js:37 | Between 0 and 3 '=' are added, and the padded length is a multiple of 4. |
| PushSubscribe.UrlToStd | src/hooks/usePushNotifications.js:38-40 | Character by character, '-' becomes '+' and '_' becomes '/'. |
| PushSubscribe.UrlToStdAlphabet | src/hooks/usePushNotifications.js:38-40 | The base64url alphabet (section 5 of RFC 4648) maps onto the base64 alphabet (section 4). No '-' or '_' remains, and mapping back and forth restores standard text. |
| PushSubscribe.UrlBase64RoundTrip | src/hooks/usePushNotifications.js:36-48 | A key written in unpadded base64url decodes to its own bytes. |
| Base64.Atob | src/hooks/usePushNotifications.js:42 | Whatever `atob` decodes is a binary string: every character code is below 256. |
| PushSubscribe.UrlBase64ToUint8Array | src/hooks/usePushNotifications.js:36-49 | The output length equals the decoded string's length, and byte i is the char code of decoded char i. An `atob` failure gives no array. |
| PushSubscribe.Upsert | src/hooks/usePushNotifications.js:77-85 | The upsert adds at most one row. |
| PushSubscribe.UpsertProperties | src/hooks/usePushNotifications.js:77-85 | (user, endpoint) pairs stay unique, and the saved row is present. Rows with other keys are kept, and nothing else is added. |
| PushSubscribe.PushSubscriber.constructor | src/hooks/usePushNotifications.js:17-19 | The hook starts with permission 'default', not loading and not subscribed. |
| PushSubscribe.PushSubscriber.SubscribeToPush | src/hooks/usePushNotifications.js:51-99 | Without a VAPID key, the result is false and nothing changes. Otherwise the permission is recorded and loading ends false. The result is true exactly on the success path, and only then does `isSubscribed` become true. The table stays unique. |
| Base64.AtobBtoa | src/hooks/usePushNotifications.js:82-83 | `atob(btoa(x))` gives back x for keys stored with `btoa`. |
| Base64.DecodeEncodeCore | src/hooks/usePushNotifications.js:42 | Decoding the alphabet characters undoes the encoding. |
| Base64.BtoaShape | src/hooks/usePushNotifications.js:82-83 | `btoa` output has no white space, and stripping its padding leaves its characters. |
| CommentSection.LikesCount | src/components/comments/CommentSection.jsx:66 | The like count is the first aggregate count, or 0 when it is absent. |
| CommentSection.IdIndexSpec | src/components/comments/CommentSection.jsx:64-72 | An id is in the map iff a comment has it, and it names the last comment with that id. |
| CommentSection.Prepare | src/components/comments/CommentSection.jsx:64-72 | Every comment gets an empty reply list and its like count, and the map is `IdIndex`. |
| CommentSection.BuildTree | src/components/comments/CommentSection.jsx:60-80 | The roots and each reply list are exactly the filters of the fetch order by `Parent`. Rows and counts are kept. |
| CommentSection.ExactlyOnePlace | src/components/comments/CommentSection.jsx:74-80 | Each comment is a root exactly when it has no parent in the fetched list. Otherwise it is in exactly its parent's replies. |
| CommentSection.ParentRule | src/components/comments/CommentSection.jsx:75-78 | A `parent_id` naming a fetched comment attaches to that comment. A null or absent parent makes a root. |
| CommentSection.FetchOrderKept | src/components/comments/CommentSection.jsx:55-80 | Roots and reply lists list their comments in fetch order. |
| CommentSection.Thread.FetchComments | src/components/comments/CommentSection.jsx:43-88 | On success the tree is `BuildTree` of the rows. On error the tree is kept. Loading is false either way. |
| CommentSection.Place | src/components/comments/CommentSection.jsx:74-80 | One turn of the second loop: a comment with a parent is appended to that parent's replies and the roots are kept. Otherwise it is appended to the roots. The loop's invariants carry over to the next position. |
| CommentSection.Thread.HandleSubmit | src/components/comments/CommentSection.jsx:90-118 | No user goes to /auth. A blank comment does nothing. Otherwise the trimmed content is inserted with null `parent_id`. A failure is the `Failed` outcome (the alert) and keeps the draft. A success clears the draft and refetches: the tree becomes `BuildTree` of the answer, or is kept on an error, and loading ends. |
| CommentSection.PostedCommentIsRoot | src/components/comments/CommentSection.jsx:106 | A posted comment becomes a root of the next fetch. |
| TaskDetails.OfferButtonOf | src/pages/TaskDetails.jsx:331-362 | The footer appears only for non-owners. Its button is disabled and labelled 'Task Closed' unless the task is 'open'. |
| TaskDetails.OnOfferClick | src/pages/TaskDetails.jsx:344-358 | No user goes to /auth. A non-worker gets the error notice. Only a worker opens the offer modal. |
| TaskDetails.StageGating | src/pages/TaskDetails.jsx:301-318 | Accept needs an owner, a 'pending' offer and an 'open' task. Complete needs an owner and 'in_progress'. The two never show together, and a completed task offers neither. |
| TaskDetails.SetAppStatus | src/pages/TaskDetails.jsx:70-73 | Only the application with that id changes status. |
| TaskDetails.FindAccepted | src/pages/TaskDetails.jsx:100 | The result is an accepted application from the list. None is found exactly when no application is accepted. |
| TaskDetails.AcceptedIsFound | src/pages/TaskDetails.jsx:70-100 | After an acceptance, completion finds an accepted application. |
| TaskDetails.TaskPage.ConfirmAcceptOffer | src/pages/TaskDetails.jsx:65-93 | No selection does nothing. A failed application update leaves the task untouched. Success sets 'accepted' then 'in_progress', with the success text as written. |
| TaskDetails.TaskPage.ConfirmCompleteTask | src/pages/TaskDetails.jsx:97-143 | Without an accepted application, found locally or fetched, the error is shown and the status is unchanged. Otherwise the task is completed, the worker's counter RPC is called and the review modal opens. |
| TaskDetails.ContactButton.HandleContact | src/pages/TaskDetails.jsx:145-188 | No user goes to sign in. Self-contact is refused. An existing conversation containing both ids is reused before one is created. Loading ends false. |
| TaskCreate.Step1Errors | src/pages/TaskCreate.jsx:31-36 | The errors name exactly the blank fields among title, description and category, with their messages. |
| TaskCreate.Step2Errors | src/pages/TaskCreate.jsx:40-45 | The errors name the empty (untrimmed) budgets and a blank location, with their messages. |
| TaskCreate.Step1Valid | src/pages/TaskCreate.jsx:31-38 | True iff title, description and category are all non-blank. |
| TaskCreate.Step2Valid | src/pages/TaskCreate.jsx:40-47 | True iff both budgets are non-empty and the location is non-blank. |
| TaskCreate.WhitespaceTitleFails | src/pages/TaskCreate.jsx:33 | A title of only white space fails step 1. |
| TaskCreate.TaskForm.constructor | src/pages/TaskCreate.jsx:18-29 | The form starts on step 1, with every field '', no images and no errors. |
| TaskCreate.TaskForm.ValidateStep1 | src/pages/TaskCreate.jsx:31-38 | The error map is replaced wholesale by the step-1 failures. |
| TaskCreate.TaskForm.ValidateStep2 | src/pages/TaskCreate.jsx:40-47 | The error map is replaced wholesale by the step-2 failures. |
| TaskCreate.TaskForm.HandleChange | src/pages/TaskCreate.jsx:49-54 | Only the named field changes, and only its error is cleared, and only when it was set. |
| TaskCreate.TaskForm.Next | src/pages/TaskCreate.jsx:157-158 | The step becomes 2 only when step 1 is valid. |
| TaskCreate.TaskForm.AddImage | src/pages/TaskCreate.jsx:56-62 | A chosen file is appended with its preview. No file does nothing. |
| TaskCreate.TaskForm.RemoveImage | src/pages/TaskCreate.jsx:183 | Exactly index i is dropped, and the others keep their order. |
| TaskCreate.TaskForm.HandleSubmit | src/pages/TaskCreate.jsx:66-102 | An invalid step 2, or no user, aborts without insert. A failed upload or insert inserts nothing. Success inserts one row with the uploaded urls. Loading ends false. |
| EditWorkerProfile.TrimAll | src/pages/EditWorkerProfile.jsx:102 | Each piece is trimmed, and the count and order are kept. |
| EditWorkerProfile.SpacedJoin | src/pages/EditWorkerProfile.jsx:51-101 | Joining with ', ' is joining with ',' after prefixing every piece but the first with a space. |
| EditWorkerProfile.ParseSkillsShape | src/pages/EditWorkerProfile.jsx:100-103 | Every parsed skill is non-empty, trimmed and comma-free, and the empty text parses to []. |
| EditWorkerProfile.Pieces | src/pages/EditWorkerProfile.jsx:51 | The pieces a ', '-joined list splits into at ',': the first skill, then each later skill with a leading space. |
| EditWorkerProfile.TrimmedPieces | src/pages/EditWorkerProfile.jsx:102 | Trimming those pieces gives back the trimmed skills. |
| EditWorkerProfile.ParseJoinedSkills | src/pages/EditWorkerProfile.jsx:51-103 | Parsing the ', '-joined list gives it back when every skill is trimmed, non-empty and comma-free. |
| EditWorkerProfile.LoadForm | src/pages/EditWorkerProfile.jsx:47-56 | Missing texts load as '', missing photos as [], and skills as their ', ' join. |
| EditWorkerProfile.UpdatesOf | src/pages/EditWorkerProfile.jsx:110-119 | The update carries the parsed skills and the photos. An empty rate becomes null. |
| EditWorkerProfile.Uploaded | src/pages/EditWorkerProfile.jsx:75 | Only urls returned by an upload are kept, and no more of them than there were uploads. |
| EditWorkerProfile.WorkerProfileEditor.constructor | src/pages/EditWorkerProfile.jsx:46-58 | A found profile fills the form with `LoadForm`. Otherwise every field is empty. Nothing is pending. |
| EditWorkerProfile.UploadedKeepsAll | src/pages/EditWorkerProfile.jsx:75 | Every non-null upload url is kept. With no nulls, all of them are kept. |
| EditWorkerProfile.UploadedInOrder | src/pages/EditWorkerProfile.jsx:75 | The filter keeps order: the urls of two runs of uploads are those of the first run followed by those of the second, a returned url is kept and a null is dropped. |
| EditWorkerProfile.UploadedAllReturned | src/pages/EditWorkerProfile.jsx:75 | With no null, the kept urls are the returned ones, one for one and in upload order. |
| EditWorkerProfile.WorkerProfileEditor.HandlePhotoUpload | src/pages/EditWorkerProfile.jsx:64-83 | An empty selection does nothing. On success the non-null urls are appended after the existing photos. Uploading ends false. |
| EditWorkerProfile.WorkerProfileEditor.RemovePhoto | src/pages/EditWorkerProfile.jsx:85-93 | Exactly index i is removed, keeping order, and that url is appended to `deletedPhotos`. |
| EditWorkerProfile.WorkerProfileEditor.HandleSubmit | src/pages/EditWorkerProfile.jsx:95-135 | Removed photos are deleted first. The update is saved only with a user and no error, and loading ends false. |
| Workers.Rating | src/pages/Workers.jsx:38-39 | A missing rating counts as 0. |
| Workers.NullVacationHidden | src/pages/Workers.jsx:26 | A worker with a null vacation flag is dropped by the query as written, and kept by the intended one. |
| Workers.QuerySpec | src/pages/Workers.jsx:25-30 | The intended query keeps exactly the workers not on vacation, with the category test applied only for a category other than 'all'. |
| Workers.SortByRating | src/pages/Workers.jsx:37-41 | The sorted list has the same rows, counted with multiplicity. |
| Workers.SortByRatingSorted | src/pages/Workers.jsx:37-41 | The list is in non-increasing rating order and is a permutation of the rows. |
| Workers.InsertStable | src/pages/Workers.jsx:37-41 | Among the workers with any one rating, an inserted worker comes first and the others keep their order. |
| Workers.SortByRatingStable | src/pages/Workers.jsx:37-41 | The sort is stable: for every rating, the workers with that rating keep their query order. |
| Workers.FilterWorkersSpec | src/pages/Workers.jsx:46-56 | A worker is kept iff the lowercased term is in one of the five texts or in a skill. The result is a subsequence and stays sorted. |
| Workers.EmptyTermKeeps | src/pages/Workers.jsx:46-56 | With an empty term, a worker is kept iff at least one text is present or a skill exists. |
| Workers.DisplayWorkers | src/pages/Workers.jsx:59 | With no category and no term, at most the first three are shown. Otherwise all are shown. |
| Workers.FilteredSpec | src/pages/Workers.jsx:19-56 | The sorted and searched list is in rating order, and every worker in it qualifies and comes from the table. |
| Workers.FilteredComplete | src/pages/Workers.jsx:19-56 | Every qualifying worker of the table is in the sorted and searched list. |
| Workers.TopThreeAreBest | src/pages/Workers.jsx:37-59 | On the default view, a qualifying worker left out rates no higher than any worker shown. |
| Workers.WorkerListSpec | src/pages/Workers.jsx:19-59 | The page lists only qualifying workers: available, of the category and matching the term. They come in rating order. Off the default view, every qualifying worker is listed. On the default view, min(3, n) of the n qualifying workers are shown, and no left-out worker outrates a shown one. |
| Discovery.FilterTasksSpec | src/pages/Discovery.jsx:34-44 | A task is kept iff the lowercased term is in one of its texts. The result is a subsequence, and `created_at` order is kept. |
| Discovery.EmptyTermKeeps | src/pages/Discovery.jsx:34-44 | With an empty term, a task is kept iff at least one searched text is present. |
| Likes.Optimistic | src/components/TaskCard.jsx:73-75 | The click flips `liked` and moves the count by +1 when newly liked, -1 otherwise. |
| Likes.LikeCheckedOutcome | src/components/TaskCard.jsx:77-96 | On success, the stored likers gain or lose the user. On any failure, `liked` and the count return to their pre-click values. |
| Likes.LikeCheckedKeepsSync | src/components/TaskCard.jsx:66-97 | When the heart and count agree with the stored likes, they still agree after a like, whatever the outcome. |
| Likes.LikeTwiceRestores | src/components/TaskCard.jsx:66-97 | Two successful clicks give back the original state. |
| Likes.AsWrittenLosesSync | src/components/comments/CommentItem.jsx:35-46 | A concrete case: an error returned by the insert leaves the comment shown as liked with count 1, while nothing is stored. |
| Likes.AsWrittenDiffersOnlyOnReturnedError | src/components/comments/CommentItem.jsx:35-46 | The written comment like differs from the checked one only on a returned error, and then it keeps the optimistic state. |
| TaskCard.OwnerRule | src/components/TaskCard.jsx:164 | The owner is the signed-in user whose id is `created_by`. There is no owner without a user or without a creator. |
| TaskCard.DeleteRule | src/components/TaskCard.jsx:122-127 | An error, zero rows or no data count as a failed delete. One or more rows deleted without error count as success. |
| TaskCard.Card.constructor | src/components/TaskCard.jsx:42-64 | The heart is filled iff the user is among the stored likers. The count is their number, so the card starts in agreement with the table. |
| TaskCard.Card.HandleLike | src/components/TaskCard.jsx:66-97 | No user goes to /auth with nothing changed. Otherwise the state becomes `LikeChecked`, and agreement with the stored likes is kept. |
| TaskCard.Card.ConfirmDelete | src/components/TaskCard.jsx:115-138 | The photos are deleted first. A failure shows 'Failed to delete task'. Success calls `onDelete(id)` or reloads. |
| CommentItem.OwnerRule | src/components/comments/CommentItem.jsx:25 | The owner is the signed-in user whose id is the comment's `user_id`. |
| CommentItem.ReplyRow | src/components/comments/CommentItem.jsx:68-73 | The reply has trimmed content, the comment's id as `parent_id`, and the user and task. |
| CommentItem.ReplyAttachesToComment | src/components/comments/CommentItem.jsx:72 | A reply to a fetched comment is placed under that comment in the next tree. |
| CommentItem.Item.constructor | src/components/comments/CommentItem.jsx:15-21 | The heart starts unliked whatever is stored, the count starts at `likes_count`, or 0 when it is absent (`OrZero`), and the reply form is closed and empty. |
| CommentItem.Item.HandleLike | src/components/comments/CommentItem.jsx:27-47 | No user goes to /auth. Otherwise the state becomes the corrected `LikeChecked`, and agreement with the stored likes is kept. |
| CommentItem.Item.ToggleReply | src/components/comments/CommentItem.jsx:115 | The reply form opens or closes, and nothing else changes. |
| CommentItem.Item.HandleReply | src/components/comments/CommentItem.jsx:61-83 | No user goes to /auth. A blank reply does nothing. A failure shows 'Failed to reply'. Success appends `ReplyRow`, clears the text and closes the form. Submitting ends false. |
| CommentItem.Item.PostReply | src/components/comments/CommentItem.jsx:66-82 | The insert of a non-blank reply: a failure keeps the text and form and shows 'Failed to reply'; success appends the row, clears the text and closes the form. Submitting ends false and the like state is untouched. |
| Notifications.WithoutIdSpec | src/pages/Notifications.jsx:56 | Exactly the entries with that id are removed. The result is a subsequence, and an absent id leaves the list unchanged. |
| Notifications.MarkedRead | src/pages/Notifications.jsx:39 | Each notification is kept in place and marked read. |
| Notifications.MarkedReadSpec | src/pages/Notifications.jsx:37-41 | After the bulk update, nothing is unread. A list with nothing unread is unchanged. |
| Notifications.ClickTarget | src/pages/Notifications.jsx:72-76 | Clicking navigates exactly when the url is present and non-empty, and then to that url. |
| Notifications.IconRule | src/pages/Notifications.jsx:149-151 | 'Review' is checked before 'Offer', so a title with both gets the review icon. The offer icon appears iff the title has 'Offer' and no 'Review'. |
| Notifications.Page.constructor | src/pages/Notifications.jsx:21-32 | The cached list starts as the table's rows. |
| Notifications.Page.MarkAllRead | src/pages/Notifications.jsx:35-46 | The update is sent iff something is unread, and the list is then refetched. |
| Notifications.Page.HandleDelete | src/pages/Notifications.jsx:48-58 | On success, only that id leaves the cached list and the table. An error changes nothing. |
| Notifications.Page.HandleClearAll | src/pages/Notifications.jsx:60-70 | Only a confirmed, successful clear empties the list. |
| ReviewModal.Effective | src/components/ReviewModal.jsx:83 | The hover rating wins when non-zero. Otherwise the selected rating counts. |
| ReviewModal.FilledStarsArePrefix | src/components/ReviewModal.jsx:83 | Star s is filled iff the effective rating is at least s, so the filled stars come first. |
| ReviewModal.Label | src/components/ReviewModal.jsx:92-96 | The label is 'Select Stars' for 0, 'Excellent!' for 5, 'Great Job' for 4, 'Good' for 3, 'Fair' for 2 and 'Poor' otherwise. |
| ReviewModal.LabelRule | src/components/ReviewModal.jsx:92-96 | Ratings 1 to 5 get distinct labels, none of them 'Select Stars'. That label shows iff neither hover nor rating is set. |
| ReviewModal.Dialog.constructor | src/components/ReviewModal.jsx:9-12 | The dialog starts with no rating, no hover, an empty comment and no review stored. |
| ReviewModal.Dialog.ClickStar | src/components/ReviewModal.jsx:77 | A click sets the rating to the star. |
| ReviewModal.Dialog.EnterStar | src/components/ReviewModal.jsx:78 | Hovering sets the hover rating to the star. |
| ReviewModal.Dialog.LeaveStar | src/components/ReviewModal.jsx:79 | Leaving resets the hover rating to 0, and the selection shows. |
| ReviewModal.Dialog.HandleSubmit | src/components/ReviewModal.jsx:16-42 | Rating 0 only alerts 'Please select a rating'. A failure alerts and stores nothing. Success stores one review with the rating and comment, alerts and closes. Loading ends false, and stored reviews stay between 1 and 5. |
| PrivacySecurity.OrFalse | src/pages/PrivacySecurity.jsx:21-22 | `x \|\| false` is true exactly for a stored true. |
| PrivacySecurity.Set | src/pages/PrivacySecurity.jsx:29-30 | Setting a field changes that flag only. |
| PrivacySecurity.SetRules | src/pages/PrivacySecurity.jsx:29-30 | Writing back a flag's own value changes nothing, and of two writes to one flag the second wins. |
| PrivacySecurity.DeleteGate | src/pages/PrivacySecurity.jsx:48-55 | Deletion needs the dialog accepted and the answer exactly 'DELETE'. 'delete' and 'DELETE ' do not count. |
| PrivacySecurity.Settings.constructor | src/pages/PrivacySecurity.jsx:16-24 | The flags come from the profile, defaulting to false. |
| PrivacySecurity.Settings.HandleToggle | src/pages/PrivacySecurity.jsx:26-45 | Only the toggled field flips. An error or a missing user restores `currentValue`. Switches that match the row keep matching it. |
| PrivacySecurity.Settings.HandleDeleteAccount | src/pages/PrivacySecurity.jsx:47-88 | Without both confirmations nothing happens. A failure alerts and stops loading. Success deletes, signs out, alerts and goes to /welcome. |
| Profile.DisplayNameRule | src/pages/Profile.jsx:58 | The name is never empty. It falls back from the profile's name to the metadata's `full_name` to 'User'. |
| Profile.AvatarUrl | src/pages/Profile.jsx:60 | The profile's avatar wins when truthy. Otherwise the metadata's value is used. |
| Profile.WorkerSwitch.constructor | src/pages/Profile.jsx:13-21 | The switch is on exactly for a stored true, and the spinner is off. |
| Profile.WorkerSwitch.HandleWorkerToggle | src/pages/Profile.jsx:36-56 | With no user nothing changes. Otherwise the switch flips, reverts on error, and the spinner ends off. |
| WorkerProfile.CallRule | src/pages/WorkerProfile.jsx:80-279 | The call button shows iff the phone is not hidden, present and not literally 'Hidden', and then it dials the stored number. |
| Wrappers.OrZero | src/pages/WorkerProfile.jsx:57-60 | `x \|\| 0` gives 0 for a missing value and the value itself otherwise. The same rule gives a comment's initial like count (src/components/comments/CommentItem.jsx:21). |
| WorkerProfile.StatsOf | src/pages/WorkerProfile.jsx:56-61 | Each stat shows its value when present, 0 included, and 0 when missing. |
| WorkerProfile.BadgeOf | src/pages/WorkerProfile.jsx:108 | The badge reads 'New' iff the rating is not positive. Otherwise it shows the rating. |
| WorkerProfile.Stars | src/pages/WorkerProfile.jsx:226-230 | Five stars are drawn, and star i is filled iff i < rating. |
| WorkerProfile.StarsFilled | src/pages/WorkerProfile.jsx:226-230 | The number of filled stars is the rating clamped to 0..5, and the filled ones come first. |
| WorkerProfile.OnMessage | src/pages/WorkerProfile.jsx:254-273 | No user goes to /auth. Messaging oneself is refused. Otherwise the page opens the resolved conversation, or fails. |
| TopBar.TitleRules | src/components/layout/TopBar.jsx:13-56 | '/' gives SUNOMSI and '/auth' gives SIGN IN. The prefixes give WORKERS, MESSAGES, PROFILE and ALERTS. The logo shows iff the title is SUNOMSI. |
| TopBar.FallThrough | src/components/layout/TopBar.jsx:20 | Other paths, e.g. '/worker/7' and '/task/7', give SUNOMSI. |
| BottomNav.PrefixesNest | src/components/layout/BottomNav.jsx:21 | Two prefixes of one path nest: the shorter is a prefix of the longer. |
| BottomNav.ItemPathsDoNotNest | src/components/layout/BottomNav.jsx:9-14 | No non-root item path is a prefix of another. |
| BottomNav.AtMostOneActive | src/components/layout/BottomNav.jsx:9-21 | At most one item is active, and '/' is active only on exactly '/'. |
| BottomNav.ProfileEditLightsNone | src/components/layout/BottomNav.jsx:13-21 | '/profile/edit' activates no item, and sub-paths of '/messages' and '/profile/me' light their items. |
| Layout.Padding | src/components/layout/Layout.jsx:34 | Padding is applied iff the page is not full-screen. |
| Layout.FullScreenRules | src/components/layout/Layout.jsx:10-17 | '/messages' and '/workers' show the nav. '/messages/x', '/worker/x', '/task/x', '/profile/public/x', '/profile/edit' and '/welcome' are full-screen. |
| Storage.ExtensionIsTail | src/lib/supabase.js:13 | The extension is a suffix of the name. |
| Storage.ExtensionAfterDot | src/lib/supabase.js:13 | For a name with a '.', the extension is the text after the last '.'. |
| Storage.ExtensionWithoutDot | src/lib/supabase.js:13 | A name without '.' is its own extension. |
| Storage.LastAfterSeparator | src/lib/supabase.js:36 | The file name is the text after the last '/'. |
| Storage.UploadThenDeleteNamesObject | src/lib/supabase.js:13-36 | Deleting by an uploaded image's public url removes the object that was uploaded. |
| Storage.Bucket.UploadImage | src/lib/supabase.js:11-27 | No file gives null. An upload error is returned. Success stores `random.ext` and returns its public url. |
| Storage.Bucket.DeleteImage | src/lib/supabase.js:30-50 | An empty url or file name does nothing. Errors are swallowed, and only the named object can go. |
| VerifyDb.Entry | scripts/verify_db.js:11-12 | A line is stored iff both fields are non-empty before trimming, and then both are trimmed. |
| VerifyDb.EntryOfPair | scripts/verify_db.js:11-12 | `key=value` stores the trimmed pair. |
| VerifyDb.EntryDropsAfterSecondEquals | scripts/verify_db.js:11 | Text after a second '=' is dropped. |
| VerifyDb.EntryDropsCarriageReturn | scripts/verify_db.js:12 | A trailing '\r' is trimmed off the value. |
| VerifyDb.EntryNeedsBothSides | scripts/verify_db.js:12 | A line without '=', or with an empty side, stores nothing. |
| VerifyDb.EnvKeys | scripts/verify_db.js:10-13 | A key is in the table iff some line sets it. |
| VerifyDb.EnvLastWins | scripts/verify_db.js:10-13 | A key's value comes from the last line that sets it. |
| VerifyDb.ParseEnv | scripts/verify_db.js:9-13 | The table read from the file is the fold of the entries of its '\n'-separated lines. |
| VerifyDb.ParseLines | scripts/verify_db.js:10-13 | The loop's table equals the fold, in order, of the lines' entries. |

## Left out

- Supabase queries, storage and realtime channels are not modelled. Their answers are parameters, and the tables are fields.
- React rendering, React Query caching and invalidation, routing and framer-motion are not modelled. An invalidation is modelled as the list being refetched from the table.
- Clocks and timers are not modelled: `Date.now()` temp ids, the presence heartbeat and the scroll timeout. Temp ids are fresh parameters, and "now" is an input.
- The date-fns "Last seen …" text is not modelled. Only the two-minute threshold is.
- Floating point is not modelled. Ratings and prices are integers, and budgets and rates are kept as the text of the input (`parseFloat` is not modelled).
- `Math.random()` file names are not modelled; the random part is a parameter.
- `alert`, `confirm` and `prompt` are not modelled. Their answers are inputs, and the last alert text is a field.
- The `Promise.all` parallelism of the push fan-out, of the photo uploads and of the deletes is not modelled. Each is a sequential loop or list of independent attempts.
- The web-push and VAPID cryptography (RFC 8291, RFC 8292) is not modelled.
- PushNotification.PushFunction.Serve: the decoded keys of `atob(sub.p256dh)` and `atob(sub.auth)` (index.ts:119, 135) are never passed on. Only whether they throw is modelled.
- PushNotification.PushFunction.FanOut: the 404/410 delete (index.ts:157) is not awaited and its error is not read. The model applies it, or its failure (`deleteFails`), before the response. The pushes started before a callback throws are treated the same way, although the 500 does not wait for them.
- The function's logging and the response bodies beyond the four outcomes are not modelled.
- Unicode case folding is not modelled. `toLowerCase` is ASCII only.
- Database order is not modelled: `order(...)` clauses and `contains` filters are given as the inputs' order and contents.
- `fetchMessages` in useChat.js is not modelled. It only reads and rethrows.
- CommentItem's `confirmDelete` (CommentItem.jsx:49-57) is not modelled. It is one delete and a refresh.
- In CommentSection, the reply tree holds positions rather than shared objects, so aliasing through `map[c.id]` is not modelled. A duplicated id attaches to the last comment with that id, as the map does.
- TaskCard.Card.constructor: the initial like fetch (TaskCard.jsx:42-64) is the stored likers set. Its error case, which leaves the count at 0, is not modelled.
- Notifications.Page.MarkAllRead: the effect fires on a change of the list's length. That trigger is modelled as one call.
- Chat.ChatView.OnSendSuccess: applies the corrected updater `ConfirmSent`. The updater as written is `Chat.ConfirmSentAsWritten`, which can list a message twice (see Findings), so a screen using it could not keep ids unique. Its single-send behaviour is `Chat.OneSendEitherOrderAsWritten`.
- CommentItem.Item.HandleLike: applies the corrected rule `LikeChecked`, which reverts on a returned error. The rule as written is `Likes.LikeAsWritten` (see Findings), and `Likes.AsWrittenDiffersOnlyOnReturnedError` says how the two differ.
- Workers.WorkerList: uses the intended query `Query`, so `WorkerListSpec` is stated for it. The query as written, `Workers.QueryAsWritten`, also drops workers whose vacation flag is NULL (see Findings and `Workers.NullVacationHidden`).
- CommentSection.Thread.HandleSubmit: the refetch after a post is not awaited in the code. Its answer is the `refetched` parameter, applied before the call returns.
- Storage.Bucket.UploadImage: the bucket argument's default and `getPublicUrl` are modelled as the URL template `base/storage/v1/object/public/bucket/path`.

These behaviours of the code are modelled as written:

- The acceptance success text is 'Task marked as completed.'.
- `handleContact` reuses any conversation containing both ids, with no two-party test.
- A self-chat accepts any two-party conversation containing the user (`UseChat.SelfPairAcceptsPartner`).
- A failed conversation lookup is not detected (useChat.js:115 reads only `data`). `GetOrCreateConversation` then goes on to insert, so a second conversation for the same pair can be created.
- The `.env` value stops at a second '='.
- A stored phone reading 'Hidden' hides the call button.
- A comment's heart starts empty whatever is stored.
- A task's photos are deleted before the row delete, even when that delete then fails.

## Findings

| source | as written | input that shows it | evidently intended | confidence | as-written member | corrected member |
|---|---|---|---|---|---|---|
| src/pages/Chat.jsx:144-152 | The success updater writes the server message over the temp entry without checking whether the realtime handler already listed it. | Two pending sends of "ok" by one user. The realtime message m2 of the second arrives first and replaces the first temp entry. The second's success then writes m2 over its own temp entry, so m2 is listed twice. | Drop the temp entry when the message's id is already listed, so each message shows once. | not executed | Chat.ConfirmSentAsWritten, Chat.DuplicateAfterEarlyRealtime | Chat.ConfirmSent, Chat.ConfirmSentKeepsNoDup, Chat.OneSendEitherOrder |
| src/pages/Workers.jsx:26 | `.neq('vacation_mode', true)` compiles to SQL `<> true`, which is not true for NULL, so workers who never set the flag are dropped. | A worker with `is_worker = true` and `vacation_mode` NULL. | The comment beside it says null or false count as active, so keep rows whose flag is not true. | not executed | Workers.QueryAsWritten, Workers.NullVacationHidden | Workers.Query, Workers.QuerySpec |
| src/components/comments/CommentItem.jsx:35-46 | The like insert or delete returns `{ error }` rather than throwing, and the handler never reads it, so a refused write keeps the optimistic heart and count. | A like whose insert returns an error: the state `LikeState(false, 0, {})` becomes `liked, 1` with nothing stored. | Revert on a returned error as TaskCard does (`if (error) throw error`). | not executed | Likes.LikeAsWritten, Likes.AsWrittenLosesSync | Likes.LikeChecked, Likes.LikeCheckedKeepsSync |
