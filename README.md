# Group roster monitor — Dafny model

This project models the membership diff cycle of a chat bot that watches
groups on an online game platform. Each cycle reads one group's roster page by
page through a cursor. It compares every roster entry with the snapshot
stored for that group at the end of the previous successful cycle. It
reports joins, promotions and demotions as chat embeds, and it mentions a
role when a rank threshold is reached or crossed downwards. The stored
snapshot is replaced only when every page has arrived. Two pure helpers are
modelled as well: the embed colour choice of `logToDiscord` and the owner
rank test of `checkOwnerMembership`.

Files (one module each):

- `options.dfy` — `Option`, for JavaScript's absent values.
- `embeds.dfy` — embed colours chosen by `logToDiscord`, and the webhook colours for comparison.
- `owner.dfy` — the owner rank test of `checkOwnerMembership`.
- `effects.dfy` — the ordered effects of a cycle. These are page requests, pauses, log embeds and role pings. It also holds the paging schedule.
- `roster.dfy` — roster entries, the snapshot, the per-entry rules and lemmas about a whole roster.
- `monitor.dfy` — the paginated cycle as a specification (`Walk`, `Cycle`), a fetch-everything-first reference (`FetchFrom`), and the lemmas linking them. It also holds the class `Bot`, whose method `CheckForChanges` mirrors `checkForChanges` statement by statement.

How JavaScript falsiness is modelled:

- `MinimumRank` is an `int`, and 0 counts as missing.
- `roleid` is a string, and `""` counts as missing.
- `userId` is `Option<int>`, and both `None` and 0 count as missing.
- `nextPageCursor` is `Option<string>`, and both `None` and `""` end the paging.

The HTTP responses are an input sequence. Response i answers request i. A
request with no response left is treated like a rejected request.

Behaviour of the code worth knowing:

- Notifications go out while each page is read, not after the whole roster is fetched (`CycleSendsPageByPage`). When a later page fails, the earlier pages' notifications have already been sent, but the snapshot is not committed. The next cycle therefore sends them again. `CycleIsFetchThenDiff` states this: the notices are the diff of the entries received, complete or not.
- The snapshot file is written but never read back. The in-memory store starts empty (`Bot.constructor`), so after a restart every member is reported as joined.
- A `userId` of 0 is dropped like a missing one, and a `MinimumRank` of 0 skips the cycle like a missing one.
- Each duplicate username in one roster is compared with the old snapshot, and the last valid duplicate wins in the new snapshot. If duplicates carry different ranks, rerunning over the same roster is not silent (`DuplicateNameBreaksRerun`). `SecondCycleIsSilent` therefore assumes consistent ranks.

## Model

| member | source | states |
|---|---|---|
| `Embeds.EmbedColor` | bot.js:193-203 | GREEN gives 0x00FF00, YELLOW 0xFFFF00 and RED 0xFF0000. Any other string gives 0xFFFFFF, and only those strings do. A number is used as is. Anything else gives 0xFFFFFF. |
| `Embeds.WebhookColor` | bot.js:21 | GREEN gives 0x00FF00 and YELLOW 0xFFFF00. Every other name, RED included, gives 0xFF0000. |
| `Embeds.LoggersAgreeOnKnownNames` | bot.js:194-198 | The two loggers agree on the three known names. On every other name the embed is white and the webhook is red. |
| `OwnerCheck.FindGroup` | bot.js:49 | `find` returns the first role whose group id is the target, or nothing when no role matches. |
| `OwnerCheck.OwnerMeetsRank` | bot.js:49-50 | The owner qualifies iff the first role in the target group exists and ranks at least `minRank`. |
| `Effects.PagingSchedule` | bot.js:178-180 | Requests alternate with pauses. There is one pause between two requests and none after the last; there are 2n-1 effects for n requests. |
| `Roster.EntryEvents` | bot.js:129-175 | An entry is silent iff it has no usable id or it is known with the same rank number. Otherwise it gives one log for that user, possibly followed by one role ping. |
| `Roster.Absorb` | bot.js:129-134 | `currentMembers.set` for each entry with a usable id, in order. It is a definition without a contract of its own; `Roster.SnapshotContents` and `Monitor.WalkCollectsFetchedRoster` state what it builds. |
| `Roster.Diff` | bot.js:123-176 | The `forEach` notifications: each entry's `EntryEvents`, in roster order. It is a definition without a contract of its own; the `...At` lemmas and `Roster.DiffEmptyIffUnchanged` state what it sends. |
| `Roster.JoinedAt` | bot.js:166-174 | An entry unknown to the snapshot gives exactly one green "Member Joined" log in its place. A ping follows iff rank >= threshold. |
| `Roster.PromotedAt` | bot.js:144-153 | A rank increase gives exactly one yellow "Promotion" log. A ping follows iff the new rank >= threshold, whatever the old rank was. |
| `Roster.DemotedAt` | bot.js:154-163 | A rank decrease gives exactly one "Demotion" log in colour 8388736. A ping follows iff new rank <= threshold and old rank > threshold. |
| `Roster.SilentAt` | bot.js:129-141 | An entry with no usable id, or a known entry with the same rank number even under a new rank name, contributes nothing. |
| `Roster.DiffEmptyIffUnchanged` | bot.js:129-141 | A roster notifies nothing iff each of its entries is dropped or keeps its stored rank number. |
| `Roster.ThresholdScenarios` | bot.js:144-174 | Concrete cases with threshold 5. Promotion 1→5 pings and a join at rank 1 does not. Demotion 10→3 pings. Demotion 2→1 does not. |
| `Roster.LogsNameRosterMembers` | bot.js:123-138 | Every log names a user with a valid entry in the roster, so users who left produce no event. |
| `Roster.SnapshotContents` | bot.js:129-134 | The new snapshot holds exactly the usernames of the valid entries. Each maps to the record of its last valid entry. |
| `Roster.RerunIsSilent` | bot.js:134-141 | Comparing a roster with its own snapshot gives no notification, provided duplicate usernames carry equal ranks. |
| `Roster.DuplicateNameBreaksRerun` | bot.js:134-141 | With "ann" at rank 3 and then at rank 5, the snapshot keeps rank 5. The rerun sends exactly one "Demotion" log for ann, pinged iff 3 <= threshold < 5. |
| `Monitor.FetchFrom` | bot.js:118-179 | The first request carries the given cursor, and every later one a present, non-empty cursor. One page is received per request, except for the failed last request of an incomplete fetch. The entries are the received pages' entries in order. Which responses those pages are is stated by the three lemmas below. |
| `Monitor.FetchReceivesResponses` | bot.js:119-121 | The k-th page received is the k-th response from where the fetch started, and that response was a page; the received entries are that page's entries. |
| `Monitor.FetchFollowsCursors` | bot.js:119-179 | Every request after the first carries the `nextPageCursor` of the page answering the request before it. |
| `Monitor.FetchStopsAtLastPage` | bot.js:118-179 | The fetch is complete exactly when the response to its last request is a page without a usable cursor. It is incomplete exactly when that request failed or had no response. |
| `Monitor.Configured` | bot.js:104-112 | The guard: group data must be present, `MinimumRank` non-zero and `roleid` non-empty. It is a definition; `Monitor.Cycle` states that failing it does nothing. |
| `Monitor.HasMore` | bot.js:178-179 | `!!cursor`: another page follows only for a present, non-empty cursor. It is a definition; `Monitor.FetchFrom` and `Monitor.WalkIsPageByPage` use it. |
| `Monitor.Walk` | bot.js:118-181 | The `while (hasMorePages)` loop from page i on. Each turn sends the request, then the page's notifications, then a pause if another page follows. A failed request ends the walk incomplete. It is a definition; `Monitor.WalkIsPageByPage` states its trace in closed form. |
| `Monitor.WalkIsPageByPage` | bot.js:118-181 | The walk's trace is, for each request k in order, request k, then the notifications of page k if it arrived, then a pause unless k was the last request. |
| `Monitor.Cycle` | bot.js:102-112 | Missing group data, `MinimumRank` 0 or an empty `roleid` give no effect and no state change. Otherwise only group g's snapshot may change, and only by whole replacement. |
| `Monitor.WalkCollectsFetchedRoster` | bot.js:114-134 | The page-by-page walk collects the received entries in order, and it finishes iff the last page was reached. |
| `Monitor.WalkNotifiesFetchedDiff` | bot.js:118-181 | Notifying page by page sends exactly the diff of the entries received, in roster order. |
| `Monitor.WalkFollowsPagingSchedule` | bot.js:118-180 | The walk's requests and pauses follow the paging schedule of the cursors it requested. |
| `Monitor.CycleIsFetchThenDiff` | bot.js:102-187 | A configured cycle notifies the diff of every entry received, even when a later page fails. It commits the roster's snapshot for g only when complete; otherwise the store is unchanged. |
| `Monitor.CycleSendsPageByPage` | bot.js:118-181 | A configured cycle's whole trace is that per-page order over the fetched cursors and pages. Each page's notices come right after its own request and before the next pause; they are not held back until later pages arrive. |
| `Monitor.SecondCycleIsSilent` | bot.js:118-183 | After a complete cycle, a rerun over the same responses sends no notification. It makes the same requests and pauses and leaves the store unchanged, provided duplicate usernames carry equal ranks. |
| `Monitor.Bot.constructor` | bot.js:9 | The store starts empty and nothing has been sent. |
| `Monitor.Bot.LogToDiscord` | bot.js:190-215 | Appends one log whose colour is `EmbedColor` of the argument. |
| `Monitor.Bot.SendRolePing` | bot.js:93-100 | Appends one ping of the role in the channel. |
| `Monitor.Bot.ProcessMember` | bot.js:123-175 | The `forEach` callback appends exactly `EntryEvents` for the entry and records a valid entry in the current members. |
| `Monitor.Bot.ProcessPage` | bot.js:123-176 | The page loop appends the page's diff and absorbs its valid entries in order. |
| `Monitor.Bot.CheckForChanges` | bot.js:102-188 | The method's effects and new store are exactly those of `Cycle`, so all the `Cycle` lemmas apply to it. |

## Left out

- Discord client: channel lookup, message delivery and its errors, login and the `handler` entry point are not modelled. Every log and ping is recorded as sent.
- Log descriptions are not modelled. These are the markdown text, profile links, group names, old and new rank names, and timestamps. A log carries its channel, title, colour and the player's username.
- HTTP calls and URL construction are not modelled. Each response is an input, and a request past the given responses fails. A throw in the middle of a page (for example an entry without `user`) is not modelled; only whole-page failures are.
- The one-second `setTimeout` is a `Sleep` effect. Wall-clock time and asynchronous interleaving of cycles are not modelled; cycles run one at a time.
- `saveCurrentMembers` is not modelled (file writing, JSON serialisation), nor are `dotenv`, `JSON.parse` of the group list, or console diagnostics.
- `fetchGroupOwner`, `fetchGroupName`, `validateGroupOwner` and the rest of `sendWebhookLog` are not modelled: they are HTTP calls, webhook posts and `process.exit`. Only the owner rank test and the webhook colour choice are modelled.
- `Number(MinimumRank)` string coercion is not modelled: `MinimumRank` is an integer. Rank numbers are integers, so comparisons with `NaN` do not arise.
