# WeTube in Dafny

WeTube is a video-sharing web client: React pages over a Supabase backend that holds
videos, users, likes, subscriptions, comments, playlists and a "watch later" list. This
project models the client's logic and proves properties of it:

- the like/dislike and comment-like reconcilers, with the quirk that the page reads a
  stored dislike back as "no disposition";
- the subscribe toggle with its optimistic subscriber count;
- watch-later inserts, including the duplicate-key path;
- the comment threads: the top level and the replies of a comment;
- the menus of the watch page and the two dropdowns of the top bar;
- the row-to-`Video` transform every list page applies, with its defaults `'Usuário'`,
  `''` and `'public'`;
- the list pages: home feed, search, channel, my videos, liked, watch later and history;
- the storage path that video deletion derives from a public URL (`split('/')`,
  `slice(-2)`, `join('/')`);
- the view-count and relative-date formatters of the video card;
- the notification read flags;
- the playlist create form;
- the mapping of authentication errors to form errors;
- the search box.

Each page that keeps state is a `class` whose fields are the page's `useState` values.
Each handler is a `method` that `modifies` only the fields and the remote tables it sets.
The remote database is the class `Database.Store`, with one field per table. A call's
outcome is a parameter of the handler: `ok`, `readOk`, a `Result` of rows, or a
`Removal`. Pure logic lives in functions with lemmas. The shared modules are:

- `Wrappers`: `Option` and `Result`;
- `Seqs`: `Collect` (filter then map), `Filter`, `Map` and `Take`, with an independent
  characterisation of order-preserving selection, `IsGathered`;
- `Text`: `trim`, `toLowerCase`, `includes`, `split`/`join` and integer printing/parsing,
  written as JavaScript defines them for the characters the model covers;
- `Types`: the records of `src/types/index.ts` and the joined rows.

The count formatter appears four times in the source, identically: in `VideoCard.tsx`
(13-20), `Channel.tsx` (175-182), `MyVideos.tsx` (104-111) and `VideoPlayer.tsx`
(391-398). It is modelled once, as `VideoCard.FormatViews`. `MyVideos.tsx`'s date
formatter (113-124) is the card's for under 30 days; `MyVideos.FormatDate` is written on
its own and proved to agree with the card there.

## Model

| member | source | states |
|---|---|---|
| Types.OrElse | src/pages/Channel.tsx:80-81 | `x \|\| d` on an optional string: the value when present and non-empty, otherwise the default |
| Types.ToVideo | src/pages/Channel.tsx:66-82 | the transform copies id, title, description, thumbnail, video url, owner, views, likes, dislikes, duration and both dates; a present non-empty joined display name is shown as is and the name is never empty; a present joined photo is kept and the photo is always present; visibility is present exactly on the pages that copy it |
| Types.ToVideoDefaults | src/pages/Channel.tsx:77-81 | a missing or empty joined name becomes `Usuário`; a missing photo becomes `''`; a missing visibility becomes public, and a present one is kept |
| Types.RemoveVideoMeaning | src/pages/WatchLater.tsx:80 | `videos.filter(v => v.id !== id)` keeps exactly the videos with another id, in order, and is the identity when no video has that id |
| Seqs.CollectCharacterized | src/pages/WatchLater.tsx:40-58 | filter-then-map equals `Collect` exactly when the result is an order-preserving selection of the accepted rows' images (both directions) |
| Seqs.CollectMembership | src/pages/Liked.tsx:41-59 | an element is in the filtered and mapped list iff some row is accepted and maps to it |
| Seqs.FilterMembership | src/components/VideoPlayer.tsx:437-438 | an element survives `filter` iff it was in the list and satisfies the predicate |
| Text.TrimStartMeaning | src/pages/Playlists.tsx:66 | dropping leading white space leaves a suffix, removes only white space, and stops at a non-space character |
| Text.TrimEndMeaning | src/pages/Playlists.tsx:66 | dropping trailing white space leaves a prefix, removes only white space, and stops at a non-space character |
| Text.TrimIsSlice | src/pages/Playlists.tsx:66 | `trim()` returns a contiguous slice of its input with no whitespace at either end |
| Text.TrimEmptyIff | src/components/Header.tsx:57 | a string trims to `''` iff it is all whitespace |
| Text.TrimIdempotent | src/pages/Playlists.tsx:73-74 | trimming twice is trimming once |
| Text.LowerIdempotent | src/pages/Search.tsx:54-58 | lower-casing twice is lower-casing once |
| Text.ContainsIff | src/pages/Search.tsx:54-58 | `includes` holds iff the needle occurs at some position |
| Text.ContainsChar | src/pages/MyVideos.tsx:85 | `includes` of a one-character string is membership of that character |
| Text.JoinSplit | src/pages/MyVideos.tsx:80-81 | joining the pieces of a split with the same separator gives the input back |
| Text.SplitJoin | src/pages/MyVideos.tsx:80-81 | splitting the join of separator-free pieces gives the pieces back |
| Text.SplitCount | src/pages/MyVideos.tsx:80 | a split has one more piece than the separator has occurrences |
| Text.IntToStringRoundTrip | src/components/VideoCard.tsx:19 | the decimal text of an integer parses back to that integer |
| Text.IntToStringInjective | src/components/VideoCard.tsx:30 | distinct integers print differently |
| Engagement.ReconcileMeaning | src/components/VideoPlayer.tsx:190-208 | a click clears the disposition iff it repeats the current one; otherwise it sets the requested one, and never the opposite |
| Engagement.RepeatUndoes | src/components/VideoPlayer.tsx:190-208 | two identical clicks restore the state iff the state was not the opposite disposition |
| Engagement.ClickParity | src/components/VideoPlayer.tsx:190-208 | after n ≥ 1 identical clicks the state is the requested disposition iff the parity of n differs from whether it started there; otherwise it is none |
| Engagement.ClickParityFromNeutral | src/components/VideoPlayer.tsx:190-208 | from no disposition, odd counts of one click give it, even counts clear it |
| Engagement.SwitchKeepsOneDisposition | src/components/VideoPlayer.tsx:198-207 | a like followed by a dislike leaves the dislike (and the other way round) |
| Engagement.ApplyStored | src/components/VideoPlayer.tsx:192-206 | a delete or upsert keyed by the (object, user) pair sets that pair's row and no other |
| Engagement.ClickOnTableTwice | src/components/VideoPlayer.tsx:318-340 | two reading clicks on the comment-likes table give the table back iff the row did not hold the opposite disposition |
| Engagement.ReadBackLosesDislike | src/components/VideoPlayer.tsx:162 | `data?.is_like \|\| null` reads back a like or no row unchanged, but a stored dislike as none |
| Engagement.StaleDislikeNeedsTwoClicks | src/components/VideoPlayer.tsx:162 | after a reload over a stored dislike, the first dislike click rewrites the same row and only the second removes it |
| Engagement.SubscribeAddsOne | src/components/VideoPlayer.tsx:230-237 | inserting a new (subscriber, channel) row raises that channel's live count by exactly one |
| Engagement.UnsubscribeRemovesOne | src/components/VideoPlayer.tsx:222-228 | deleting an existing row lowers that channel's live count by exactly one |
| Engagement.OtherChannelsUnchanged | src/components/VideoPlayer.tsx:222-237 | a subscription change for one channel leaves every other channel's count |
| Engagement.ToggleKeepsMirror | src/components/VideoPlayer.tsx:217-242 | when the write succeeds, the button state and count keep matching the table and its live count |
| Engagement.FailedToggleBreaksMirror | src/components/VideoPlayer.tsx:239-241 | when the write fails, the client moves anyway and no longer matches the table |
| Engagement.ToggleFollowTwice | src/components/VideoPlayer.tsx:217-242 | subscribing then unsubscribing restores the button and the count; one click always changes them |
| VideoPlayer.FlipMeaning | src/components/VideoPlayer.tsx:383-389 | toggling a menu negates that comment's flag (a missing key reads closed), keeps every other key, and two toggles restore every flag |
| VideoPlayer.ThreadsMeaning | src/components/VideoPlayer.tsx:437-438 | the top level holds exactly the comments with no or an empty parent, the replies of `p` exactly those whose parent is `p`, both in fetch order |
| VideoPlayer.ThreadsPartition | src/components/VideoPlayer.tsx:437-438 | every fetched comment appears at the top level or among its parent's replies, and not both for a non-empty parent id |
| VideoPlayer.DisplayedMeaning | src/components/VideoPlayer.tsx:624-779 | a fetched comment is rendered iff it is top level or its parent id names a fetched top-level comment |
| VideoPlayer.NestedReplyHidden | src/components/VideoPlayer.tsx:779 | a reply to a comment that is not a fetched top-level comment (a reply to a reply) is never rendered |
| VideoPlayer.VideoPlayerPage.HandleLike | src/components/VideoPlayer.tsx:186-215 | no user or video: nothing; else the client state is the reconciled disposition, the pair's row is deleted or upserted when the write succeeds, and a successful write keeps the client mirroring the table |
| VideoPlayer.VideoPlayerPage.FetchUserLike | src/components/VideoPlayer.tsx:152-166 | a successful read sets the client state to the read-back of the stored row (a stored dislike reads as none); a failed read changes nothing |
| VideoPlayer.VideoPlayerPage.CheckSubscription | src/components/VideoPlayer.tsx:168-184 | with an owner and a user, the button becomes whether the (user, owner) row exists; otherwise nothing changes |
| VideoPlayer.VideoPlayerPage.HandleSubscribe | src/components/VideoPlayer.tsx:217-242 | the button flips and the count moves by one even when the write fails; a successful write deletes or inserts the row and preserves the mirror |
| VideoPlayer.VideoPlayerPage.AddToWatchLater | src/components/VideoPlayer.tsx:244-268 | a new pair is inserted with the "added" alert; a saved one (duplicate key) gives the "already in the list" alert and no change; another error gives the failure alert |
| VideoPlayer.VideoPlayerPage.HandleCommentLike | src/components/VideoPlayer.tsx:313-347 | the existing row is read (a failed read counts as no row), then deleted when it repeats the click and upserted otherwise; with a good read this is one reading click on the table |
| VideoPlayer.VideoPlayerPage.ToggleMenu | src/components/VideoPlayer.tsx:383-389 | one comment's menu flag is negated and every other flag is kept |
| VideoPlayer.VideoPlayerPage.CloseMenus | src/components/VideoPlayer.tsx:418-427 | a click elsewhere closes every comment menu and the options menu |
| VideoPlayer.VideoPlayerPage.ToggleMoreOptions | src/components/VideoPlayer.tsx:532-535 | the options menu flag is negated and nothing else changes |
| VideoCard.FormatViewsMeaning | src/components/VideoCard.tsx:13-20 | the millions form is used iff views ≥ 1000000, thousands iff 1000 ≤ views < 1000000, plain text otherwise; the plain text parses back to the count |
| VideoCard.AgeOfMeaning | src/components/VideoCard.tsx:22-34 | each age bucket holds exactly its day range (0, 1, under 7, 7–29, 30–364, 365 on) with the floor quotient and its bounds |
| VideoCard.AgeTextRoundTrip | src/components/VideoCard.tsx:28-33 | every age label parses back to the age it was printed from |
| VideoCard.FormatDateReadsBack | src/components/VideoCard.tsx:22-34 | the text of a day count reads back as that count's age bucket, so distinct buckets print differently |
| Channel.ChannelVideosMeaning | src/pages/Channel.tsx:49-90 | the channel's list holds exactly the transformed public rows of that channel, with visibility, in server order |
| Channel.ChannelPage.FetchChannel | src/pages/Channel.tsx:31-47 | on success the profile is kept, the count starts at the cached `subscriber_count` or 0 and the banner at its URL or `''`; on failure nothing changes |
| Channel.ChannelPage.FetchChannelVideos | src/pages/Channel.tsx:49-90 | on success the list is the channel's public videos, on failure it stays; loading ends either way |
| Channel.ChannelPage.FetchSubscriptionStatus | src/pages/Channel.tsx:92-109 | skipped with no user or on one's own channel; otherwise the button is whether the row exists |
| Channel.ChannelPage.HandleSubscribe | src/pages/Channel.tsx:111-140 | nothing without a user, a channel, or on one's own channel; otherwise the same toggle as the watch page, keeping a mirroring client mirroring when the write succeeds |
| MyVideos.StoragePathMeaning | src/pages/MyVideos.tsx:80-83 | the derived path is a suffix of the URL made of its last two `/`-pieces; it contains a `/` iff the URL does, and then exactly one |
| MyVideos.RemovalGuard | src/pages/MyVideos.tsx:85-90 | `path && path.includes('/')` holds iff the URL contains a `/` |
| MyVideos.FormatDateMatchesCard | src/pages/MyVideos.tsx:113-124 | under 30 days the label equals the card's text; from 30 days on it is a calendar date |
| MyVideos.MyVideoListMeaning | src/pages/MyVideos.tsx:20-61 | the list holds exactly the transformed rows owned by the user, without visibility, in server order |
| MyVideos.MyVideosPage.FetchMyVideos | src/pages/MyVideos.tsx:20-61 | skipped with no user; otherwise the list is the user's videos on success and stays on failure, and loading ends |
| MyVideos.MyVideosPage.HandleDeleteVideo | src/pages/MyVideos.tsx:63-102 | declined: nothing; a database error: its message and nothing else; otherwise the row is gone, each file with a `/` in its URL is removed when its removal succeeds, a thrown video removal skips the thumbnail, and the list loses exactly that id |
| MyVideos.MyVideosPage.ToggleSelected | src/pages/MyVideos.tsx:217 | the row menu closes when it is this row's and opens this row's otherwise |
| MyVideos.MyVideosPage.CloseSelected | src/pages/MyVideos.tsx:228 | following the edit link closes the row menu |
| Notifications.MarkReadMeaning | src/pages/Notifications.tsx:77-83 | marking one id read keeps the length, sets `read` on the entries with that id and changes nothing else |
| Notifications.MarkAllReadMeaning | src/pages/Notifications.tsx:85-89 | marking all keeps the length and sets every entry read with its other fields unchanged |
| Notifications.MarkIdempotent | src/pages/Notifications.tsx:77-89 | marking the same id twice, or all twice, is marking once |
| Notifications.MarksCommute | src/pages/Notifications.tsx:77-89 | marks of two ids commute, and marking all absorbs any single mark on either side |
| Notifications.UnreadAfterMarks | src/pages/Notifications.tsx:77-89 | a mark lowers the unread count by exactly the number of unread entries with that id, so by at least one when it hits one and never raises it; marking all leaves none unread |
| Notifications.InitialNotificationsShape | src/pages/Notifications.tsx:24-57 | the sample list has four entries with ids `1`–`4`, the first two unread and the last two read |
| Notifications.NotificationsPage.MarkAsRead | src/pages/Notifications.tsx:77-83 | the list becomes the one-id mark of the old list |
| Notifications.NotificationsPage.MarkAllAsRead | src/pages/Notifications.tsx:85-89 | the list becomes the mark-all of the old list |
| Notifications.NotificationsPage.Load | src/pages/Notifications.tsx:21-60 | after the delay the list is the four fixed sample notifications and loading ends |
| Search.QueryOf | src/pages/Search.tsx:12 | `get('q') \|\| ''`: the parameter when present, `''` otherwise |
| Search.SearchResultsMeaning | src/pages/Search.tsx:20-66 | a video is a result iff it transforms from some row and the lower-cased title, description or name includes the lower-cased text; results keep server order |
| Search.MatchesIgnoresCase | src/pages/Search.tsx:54-58 | matching is the same for a text and its lower-cased form |
| Search.MissingNameCanMatch | src/pages/Search.tsx:49-57 | a row without a joined name matches any text that the default name `Usuário` includes |
| Search.EmptyQueryMatchesAll | src/pages/Search.tsx:54-58 | the empty text matches every video |
| Search.SearchPage.Run | src/pages/Search.tsx:14-18 | with no query nothing is fetched; otherwise the list is the query's results on success and loading ends |
| Search.SearchPage.SearchVideos | src/pages/Search.tsx:20-66 | on success the list is the results for the text, on failure it stays; loading ends either way |
| Home.FeedMeaning | src/pages/Home.tsx:18-70 | at most 20 videos; with no query the transformed first 20 rows; with one exactly the matching videos of those rows, in order |
| Home.HomePage.FetchVideos | src/pages/Home.tsx:18-70 | on success the list is the feed for the query, on failure it stays; loading ends either way |
| WatchLater.SavedVideosMeaning | src/pages/WatchLater.tsx:19-66 | the list holds exactly the transformed joined videos of the user's rows that have one, with visibility, in server order; rows with a null video contribute nothing |
| WatchLater.WatchLaterPage.FetchWatchLaterVideos | src/pages/WatchLater.tsx:19-66 | skipped with no user; otherwise the list is the saved videos on success and stays on failure, and loading ends |
| WatchLater.WatchLaterPage.RemoveFromWatchLater | src/pages/WatchLater.tsx:68-85 | no user: nothing; a failed delete alerts and changes nothing; a successful one deletes the pair and drops exactly that id from the list |
| Liked.LikedVideosMeaning | src/pages/Liked.tsx:19-67 | the list holds exactly the transformed videos of the user's like rows (not dislikes) with a joined video, in server order |
| Liked.DislikesNeverListed | src/pages/Liked.tsx:35-36 | a table of dislikes only gives an empty list |
| Liked.LikedPage.FetchLikedVideos | src/pages/Liked.tsx:19-67 | skipped with no user; otherwise the list is the liked videos on success and stays on failure, and loading ends |
| History.HistoryVideosMeaning | src/pages/History.tsx:19-62 | at most 20 videos, one per leading row and in order; with rows by views descending, the list is too and no omitted row has more views than a shown video |
| History.HistoryPage.FetchHistory | src/pages/History.tsx:19-62 | skipped with no user; otherwise the list is the history on success and stays on failure, and loading ends |
| History.HistoryPage.ClearHistory | src/pages/History.tsx:64-68 | a confirmed clear empties the list; a declined one keeps it |
| Playlists.VisibilityTextMeaning | src/pages/Playlists.tsx:105-114 | private, unlisted and public get distinct labels, so the label tells the visibility; any other string is labelled public |
| Playlists.InsertedFieldsClean | src/pages/Playlists.tsx:66-74 | the inserted title is non-blank and has no padding; the description has none either |
| Playlists.PlaylistsPage.CreatePlaylist | src/pages/Playlists.tsx:64-92 | without a user or with a blank title nothing happens; otherwise the trimmed row is inserted and the form resets on success, an alert is raised and the form kept on failure, and `creating` ends false |
| Auth.ClassifyAuthErrorMeaning | src/pages/Auth.tsx:70-92 | each form error is chosen iff its phrase is in the message and no earlier phrase is; an alert `Erro: ` + message iff none is, or the message is missing |
| Auth.RegisteredMessage | src/pages/Auth.tsx:70-74 | the message `User already registered` becomes the e-mail-in-use error on the e-mail field |
| Auth.InvalidEmailMessage | src/pages/Auth.tsx:80-84 | the message `Invalid email` becomes the invalid-e-mail error, past the two earlier tests |
| Auth.MissingMessage | src/pages/Auth.tsx:91 | an error without a message alerts `Erro: undefined` |
| Auth.AuthPage.OnSubmit | src/pages/Auth.tsx:19-96 | success navigates to `/`; a sign-up that returned a user also inserts its profile (name or `''`, zero counts) when that insert succeeds, and navigates regardless; a failure shows the classified feedback on its field or as an alert; loading ends false |
| Auth.AuthPage.ToggleMode | src/pages/Auth.tsx:112 | the link switches between sign-in and sign-up |
| Header.HeaderBar.HandleSearch | src/components/Header.tsx:55-61 | a blank query does nothing; otherwise it navigates to the search route of the trimmed query and passes the same non-empty, unpadded text to `onSearch` |
| Header.HeaderBar.SetSearchQuery | src/components/Header.tsx:99 | the search box holds exactly the typed text, untrimmed |
| Header.HeaderBar.ToggleNotifications | src/components/Header.tsx:126-129 | the notifications dropdown flips and the user menu closes, so at most one is open |
| Header.HeaderBar.ToggleUserMenu | src/components/Header.tsx:214-217 | the user menu flips and notifications close, so at most one is open |
| Header.HeaderBar.CloseNotifications | src/components/Header.tsx:199 | the "see all" link closes notifications and keeps the other dropdown |
| Header.HeaderBar.CloseUserMenu | src/components/Header.tsx:247 | a user-menu link closes the user menu and keeps the other dropdown |
| Header.HeaderBar.ClickOutside | src/components/Header.tsx:21-31 | while a dropdown is open, a click elsewhere closes both; at most one is open afterwards |

## Left out

- Supabase I/O: queries, joins and `.order(...)` are taken as given by the rows passed in. The `.eq` filters and `.limit(20)` are applied in the model.
- Concurrency: the handlers' awaits, the effects' dependency lists and the `setTimeout` of the notifications sample are out of the model.
- JSX rendering and navigation side effects are out of the model. A navigation is returned as a value.
- `fetchVideo` (the refresh after a like), the view-count increment, `fetchComments`, and comment submit/reply/edit/delete are not part of this model. The `replies` field of a comment is not part of it either.
- Channel's banner upload, `fetchCurrentUserProfile` and the `Playlists` list fetch are not part of this model. Neither are the Upload, Profile and EditVideo pages, or the Header's `fetchUserProfile` and logout.
- `navigator.share` and the download button of the watch page are not part of this model.
- VideoCard.FormatViews: the `toFixed(1)` text of the K and M forms is not modelled. The result carries the count in a tag, because decimal floating-point rendering is outside the model.
- VideoCard.AgeOf: `Date` arithmetic is not modelled. The whole number of days elapsed is a parameter.
- MyVideos.FormatDate: from 30 days on, `toLocaleDateString('pt-BR')` is represented by the tag `CalendarDate`. Channel's `formatDate` is locale formatting only and is not modelled.
- The hour-based `formatDate` of the watch page is not part of this model.
- Text.Lower: `toLowerCase` is modelled for Basic Latin and Latin-1 upper-case letters only. Other Unicode case mappings are out of the model.
- Header.HeaderBar.HandleSearch: `encodeURIComponent` is not modelled. The route carries the trimmed query itself.
- Engagement.Apply: the likes and comment-likes upserts are assumed to resolve on the (object, user) pair. The source passes no `onConflict`, so this holds only if that pair is the table's conflict key. Otherwise a like/dislike switch either fails silently (a duplicate key on a unique pair constraint, which the handler ignores) or adds a second row, which the `.single()` read then rejects. Engagement.ApplyStored, Engagement.SwitchKeepsOneDisposition and Engagement.ClickOnTableTwice hold only under this assumption.
- Auth.AuthPage.OnSubmit: the form validation of `react-hook-form` (required fields, the e-mail pattern, password confirmation) is not modelled. The authentication service is a parameter, `AuthOutcome`.
- Auth.ClassifyAuthErrorMeaning: the exact short-password and invalid-credentials messages are covered by this lemma's second and fourth clauses only. There is no separate worked example for either.
