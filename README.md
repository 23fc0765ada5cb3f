# Work Mode plugin: the work-id store and its filters

This project models the core of a "Work Mode" plugin for a chat client. The user
tags guilds, channels and users as *work* ids. With work mode on, the plugin cuts
the sidebar, guild folders, the DM list, unread counts, notifications,
now-playing cards and friend rows down to the work subset. With work mode off,
everything passes through.

The model has five modules:

- `Wrappers`: an `Option` type. It stands for a JavaScript value that may be
  `undefined` or `null`.
- `JsString`: `String.prototype.split` with a string separator and no limit,
  and `Array.prototype.join`, as ECMAScript defines them. For example,
  `"".split(",")` is `[""]`, and the separator is matched from left to right
  without overlaps. It also proves the round trips between the two.
- `JsArray`: `filter` and `some`, and a reference definition of "subsequence".
- `Settings` (settings.tsx): the store, a class with the three fields
  `workModeEnabled`, `keepPinnedDms` and `workIds`. `workIds` is an
  `Option<string>` because the source reads it with `?.`.
  - Reading the store: `GetWorkIds`, `IsWorkModeId` and `IsNotWorkModeId`,
    as functions of the stored string.
  - Changing the store: `ToggleWorkMode`, `AddToWorkIds` and
    `RemoveFromWorkIds`, as methods that update the fields in place.
  - Lemmas about what a later read sees after each update.
- `WorkMode` (index.tsx): the filters and predicates. Each one reads the store
  argument when it runs, so each function has `reads store`.
  - `isEnabled()` (settings.tsx:38-40) is just a read of
    `store.workModeEnabled`, and the filters read that field directly.
  - `filterMutablePrivateChannels` copies a dictionary and deletes keys in a
    loop, so it is a method with a loop.
  - `shouldIncrement` loops over keys and returns early, so it is a method
    with a loop too.
  - The rest are functions.

Host lookups are parameters:

- `ChannelStore.getDMFromUserId` is `dmFromUser: string -> Option<string>`.
- `isPinned` is `isPinned: string -> bool`.
- The result of `getMutableUnreadGuilds()` is `unreadGuilds: set<string>`.

JavaScript `includes` never finds `undefined` or `null` among string pieces.
So a lookup that comes back empty is never a work id (`IsWorkModeOptId`).

Edge cases of the stored string, as proved:

- The default `""` reads back as the single piece `""`. So the empty id is a
  work id by default (`EmptyStoreHoldsEmptyId`).
- Adding to `""` stores `",id"`. Removing the last real id stores `""` again,
  and `""` becomes a work id again (`RemoveKeepsOthers` requires `x != ""` for
  this reason).
- An id that contains `,` is never a work id (`IdWithCommaNeverMember`).
- Adding an id that is already present appends a duplicate (`AddAppendsId`).
- Removing an id drops every copy of it (`RemoveDropsId`).
- Removing an absent id from a defined string leaves that string exactly as it
  was (`RemoveAbsentUnchanged`). This rests on `JsString.JoinSplit`.

## Model

| member | source | states |
|---|---|---|
| `JsString.Split` | settings.tsx:43 | `split` never returns an empty array: `"".split(",")` is `[""]` |
| `JsString.Join` | settings.tsx:63 | `[].join(sep)` is `""` and a single piece joins to itself; longer arrays put `sep` between neighbours, and `JoinSplit`, `JoinAppend` and `SplitJoin` state what that gives |
| `JsString.JoinSplit` | settings.tsx:67-70 | joining the pieces of `s.split(sep)` with `sep` gives back `s` exactly |
| `JsString.SplitLacksSeparator` | settings.tsx:42-44 | no piece of a split on a one-character separator contains that character |
| `JsString.SplitConcat` | settings.tsx:59-64 | splitting `a + "," + b` gives the pieces of `a` followed by the pieces of `b` |
| `JsString.SplitJoin` | settings.tsx:59-64 | splitting the join of a non-empty, comma-free array gives back that array |
| `JsArray.Filter` | settings.tsx:69 | `filter` returns a subsequence of the input: order is kept, an element is kept iff the callback accepts it, and every accepted element keeps its multiplicity |
| `JsArray.FilterKeepsAll` | settings.tsx:69 | filtering with a callback that accepts every element returns the input unchanged |
| `JsArray.AnyOf` | index.tsx:264 | `some` is true iff some index holds an element that satisfies the callback |
| `Settings.GetWorkIds` | settings.tsx:42-44 | `[]` when `workIds` is undefined; otherwise at least one piece, and the pieces join back to the stored string |
| `Settings.IsWorkModeId` | settings.tsx:46-48 | holds iff `id` is one of the pieces `getWorkIds()` returns (so it is false when `workIds` is undefined) |
| `Settings.IsNotWorkModeId` | settings.tsx:50-52 | holds iff `id` is not among the pieces of `getWorkIds()`, that is, exactly when `isWorkModeId(id)` is false |
| `Settings.PiecesLackComma` | settings.tsx:42-44 | no work id read from the store contains a comma |
| `Settings.IdWithCommaNeverMember` | settings.tsx:46-48 | an id containing `,` is never a work id, whatever the stored string is |
| `Settings.ReadBackJoined` | settings.tsx:63 | storing the join of comma-free pieces and reading it back gives those pieces, or `[""]` when there are none |
| `Settings.AddAppendsId` | settings.tsx:59-64 | after adding, the pieces are the old pieces in order followed by the pieces of `id`. For a comma-free `id` that is `id` alone as the last piece, even if `id` was already there, and `id` is then a work id |
| `Settings.RemoveDropsId` | settings.tsx:67-70 | after removing, the pieces are the old ones minus every piece equal to `id`, in order, or `[""]` when none is left. A non-empty `id` is no longer a work id |
| `Settings.RemoveKeepsOthers` | settings.tsx:67-70 | removing `id` does not change whether any other non-empty id is a work id |
| `Settings.RemoveAbsentUnchanged` | settings.tsx:67-70 | removing an id that is not a work id leaves a defined stored string exactly as it was |
| `Settings.RemoveIdempotent` | settings.tsx:67-70 | removing the same id a second time stores the same string as the first removal |
| `Settings.EmptyStoreHoldsEmptyId` | settings.tsx:25-30 | the default `""` reads back as `[""]`. The empty id is a work id there and no other id is, and removing `""` from `""` leaves `""` a work id |
| `Settings.ContextMenuFlipsMembership` | contextMenu.tsx:24-30 | for a non-empty comma-free id, choosing remove when it is a work id and add otherwise always flips its membership |
| `Settings.SettingsStore.constructor` | settings.tsx:10-31 | defaults are work mode off, pinned DMs not kept, and `workIds == ""` |
| `Settings.SettingsStore.ToggleWorkMode` | settings.tsx:55-57 | negates `workModeEnabled`, which is what `isEnabled()` (settings.tsx:38-40) returns, and leaves the other two fields unchanged |
| `Settings.SettingsStore.AddToWorkIds` | settings.tsx:59-64 | stores the join of the old pieces plus `id`, so the pieces grow by the pieces of `id`. A comma-free `id` is a work id afterwards. The flags are unchanged |
| `Settings.SettingsStore.RemoveFromWorkIds` | settings.tsx:67-70 | stores the join of the old pieces other than `id`. A non-empty `id` is no longer a work id, and membership of every other non-empty id is unchanged. The flags are unchanged |
| `Settings.ToggleTwice` | index.tsx:214-218 | pressing the toolbox toggle twice restores every field of the store |
| `WorkMode.CloneWithWorkChildren` | index.tsx:240-249 | the clone equals the root except for its children. It has children iff the root has them, and they are the root's work-guild children in their original order, each with its original multiplicity |
| `WorkMode.ClonedRoots` | index.tsx:240-249 | the `map` step: one clone per root, in the same order |
| `WorkMode.ShouldRenderFolder` | index.tsx:263-265 | a folder is rendered iff it has children and some child is a work id. This does not depend on the work-mode flag |
| `WorkMode.KeepFolderIsShouldRender` | index.tsx:254 | for a folder, the keep decision of `filterRoots` is exactly `shouldRenderFolder` applied to the clone |
| `WorkMode.KeepCloneIffKept` | index.tsx:250-255 | a clone passes the second `filter` iff its original is a work guild, or a folder with at least one work-guild child |
| `WorkMode.FilterRoots` | index.tsx:237-256 | off: returns the input. On: returns a subsequence of the clones in root order, and root i's clone is kept iff that root is kept; each kept clone appears as many times as among all clones. Every kept guild is a work id, every kept folder has at least one child, and all kept children are work ids |
| `WorkMode.FilterGuildFolders` | index.tsx:258-261 | keeps the item iff work mode is off, or the item is a bare guild id, or it is a folder with `guildIds` some of which is a work id (a folder without `guildIds` is dropped) |
| `WorkMode.HandleNotification` | index.tsx:267-271 | suppresses iff work mode is on and neither the channel id nor its guild id (when it has one) is a work id |
| `WorkMode.FilterUnreadDms` | index.tsx:273-277 | keeps iff work mode is off or the channel id is a work id |
| `WorkMode.FilterPrivateChannelIds` | index.tsx:295-299 | keeps iff work mode is off or the id is a work id |
| `WorkMode.FilterFriends` | index.tsx:301-305 | hides iff work mode is on and the user has no DM channel or that channel is not a work id |
| `WorkMode.PartyUserId` | index.tsx:310 | the user id is present iff the `--` split has at least two pieces, and then it is the second piece |
| `WorkMode.PartyUserIdOf` | index.tsx:310 | `prefix--user` and `prefix--user--rest` name `user` when neither `prefix` nor `user` contains `-`. A party id without `-` names nobody |
| `WorkMode.FilterNowPlayingCards` | index.tsx:307-314 | keeps iff work mode is off, or the card names no user or the empty user, or the named user's DM channel exists and is a work id |
| `WorkMode.FilterFriendRows` | index.tsx:316-320 | off: returns the input. Always the same number of rows. On: each row is a subsequence of its original, holding exactly the users whose DM channel is a work id, each as many times as in the original row |
| `WorkMode.HasWorkUnread` | index.tsx:334-336 | true iff some unread guild is a work id (the intersection with the work-id set is non-empty) |
| `WorkMode.WrapUpperBadge` | index.tsx:338-339 | gives the suitcase badge iff the id is present, non-empty and a work id, and the original badge otherwise. This does not depend on the work-mode flag |
| `WorkMode.FilterMutablePrivateChannels` | index.tsx:279-293 | off: returns the input. On: returns a sub-dictionary with values unchanged. A key stays iff it is a work id, or pinned DMs are kept and it is pinned |
| `WorkMode.ShouldIncrement` | index.tsx:322-332 | true iff work mode is off, or the guild id is a work id, or some key of `mentionCounts` is a work id |
| `WorkMode.DmNotificationMatchesDmLists` | index.tsx:267-299 | with work mode on, a DM notification (no guild) is suppressed iff that DM is filtered out of the unread-DM list, and the unread-DM and DM-id filters agree |

## Left out

- The `patches` array (index.tsx:65-206). These are regular-expression rewrites of the host's minified code, and their meaning depends on code outside this repository. This includes the `.filter(...)` call sites they add around the single-item filters. It also includes the patch that consults `hasWorkUnread` only while work mode is on.
- All rendering is left out: `addIconToToolBar`, the badge markup of `WrapUpperBadge`, `renderTooltip`, and the member-list decorator added in `start` and removed in `stop` (index.tsx:220-234, 338-371). components/WorkModeToggle.tsx is not part of this model.
- The menu injection in contextMenu.tsx is left out. Its choice between add and remove is modelled by `Settings.ContextMenuFlipsMembership`.
- `useWorkMode` and `settings.use` (settings.tsx:33-35) are re-render hooks of the host UI.
- `definePluginSettings` persistence (settings.tsx:10) belongs to the host's settings subsystem. Only the declared defaults are modelled.
- The internals of the host lookups are left out: `getDMFromUserId`, `isPinned` and `getMutableUnreadGuilds`. They are parameters.
- `WorkMode.HandleNotification` drops the `user` argument, which the source never reads.
- Host fields the filters never read are not modelled: `unreadByType` (type `any`), `voiceChannels`, and every channel field except `id` and the guild id that `getGuildId()` returns.
- `parentId` (type `any`) is modelled as an optional integer and only copied through.
- `WorkMode.FilterGuildFolders` and `WorkMode.ShouldRenderFolder`: the source returns `undefined` when `guildIds` or `children` is missing, and the model returns `false`. Both are falsy to `filter` and `if`.
- `WorkMode.FilterMutablePrivateChannels`: the keys are visited in an arbitrary order rather than the object's own key order. The result does not depend on the order.
- Mutation and aliasing are not modelled, because roots, rows and dictionaries are values. The guarantee that the input is left untouched therefore holds by construction. The sharing of nested objects between a shallow clone and its original is not represented.
- Characters are Unicode scalar values, not UTF-16 code units. The separators `,` and `--` are ASCII, so splitting is only affected for strings with unpaired surrogates.
