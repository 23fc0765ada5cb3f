/**
 * The plugin's filters: each cuts one of the host's collections down to the
 * work subset when work mode is on, and passes it through unchanged when it is
 * off. Every filter reads the settings store at the moment it runs; host
 * lookups are parameters.
 */
module WorkMode {

  import opened Wrappers
  import JsString
  import JsArray
  import opened Settings

  /** A guild in the sidebar (`type: "guild"`); its own children are guilds too. */
  datatype GuildRoot = GuildRoot(id: string, parentId: Option<int>, unavailable: bool, children: Option<seq<GuildRoot>>)

  /** `SidebarRoot = GuildRoot | FolderRoot`: a top-level guild or a folder of guilds. */
  datatype SidebarRoot =
    | Guild(id: string, parentId: Option<int>, unavailable: bool, children: Option<seq<GuildRoot>>)
    | Folder(folderId: int, parentId: Option<int>, name: string, color: int, expanded: bool,
             children: Option<seq<GuildRoot>>)

  /** An item of the guild-folder list: a bare guild id or a folder listing guild ids. */
  datatype GuildFolderItem =
    | GuildIdItem(guildId: string)
    | FolderItem(folderId: string, guildIds: Option<seq<string>>)

  /** The part of a host channel the filters look at; `guildId` is absent for a DM. */
  datatype Channel = Channel(id: string, guildId: Option<string>)

  datatype MentionCount = MentionCount(count: int, isMentionLowImportance: bool)

  /** `UnreadObj`: a guild's unread state; its mention counts are keyed by channel id. */
  datatype UnreadObj = UnreadObj(
    unread: bool,
    unreadChannelId: Option<string>,
    lowImportanceMentionCount: int,
    highImportanceMentionCount: int,
    mentionCounts: map<string, MentionCount>,
    ncMentionCount: int,
    sentinel: int)

  datatype Party = Party(id: Option<string>, isSpotifyActivity: bool, showPlayingMembers: bool)

  datatype NowPlayingCard = NowPlayingCard(cardType: string, party: Option<Party>)

  /** One user of a friends-list row. */
  datatype FriendRow = FriendRow(userId: string)

  /** What `WrapUpperBadge` hands back: the host's own badge, or the suitcase badge. */
  datatype UpperBadge<T> = OriginalBadge(original: Option<T>) | SuitcaseBadge

  /**
   * `isWorkModeId` applied to a lookup that may come back `undefined` or `null`:
   * `includes` finds no such value among the string pieces, so it is never a work id.
   */
  predicate IsWorkModeOptId(workIds: Option<string>, id: Option<string>)
  {
    id.Some? && IsWorkModeId(workIds, id.value)
  }

  /** The callback that accepts a child guild whose id is a work id, over a snapshot of the stored ids. */
  function IsWorkChild(workIds: Option<string>): GuildRoot -> bool
  {
    (child: GuildRoot) => IsWorkModeId(workIds, child.id)
  }

  /** The callback that accepts a work id. */
  function IsWorkId(workIds: Option<string>): string -> bool
  {
    (id: string) => IsWorkModeId(workIds, id)
  }

  /** The callback that accepts a friend whose DM channel, as the host looks it up, is a work id. */
  function HasWorkDm(workIds: Option<string>, dmFromUser: string -> Option<string>): FriendRow -> bool
  {
    (user: FriendRow) => IsWorkModeOptId(workIds, dmFromUser(user.userId))
  }

  /**
   * The first step of `filterRoots`: a shallow clone of the root whose children,
   * when present, are cut down to work guilds; every other field is copied.
   */
  function CloneWithWorkChildren(workIds: Option<string>, root: SidebarRoot): (clone: SidebarRoot)
    ensures clone == root.(children := clone.children)
    ensures clone.children.Some? <==> root.children.Some?
    ensures clone.children.Some? ==>
              JsArray.SubsequenceOf(clone.children.value, root.children.value) &&
              forall c :: c in clone.children.value <==> c in root.children.value && IsWorkModeId(workIds, c.id)
    ensures clone.children.Some? ==>
              forall c :: multiset(clone.children.value)[c] ==
                          if IsWorkModeId(workIds, c.id) then multiset(root.children.value)[c] else 0
  {
    match root.children
    case None => root
    case Some(cs) => root.(children := Some(JsArray.Filter(cs, IsWorkChild(workIds))))
  }

  /** The clones of all roots, in order. */
  function ClonedRoots(workIds: Option<string>, roots: seq<SidebarRoot>): (clones: seq<SidebarRoot>)
    ensures |clones| == |roots|
    ensures forall i :: 0 <= i < |roots| ==> clones[i] == CloneWithWorkChildren(workIds, roots[i])
  {
    seq(|roots|, i requires 0 <= i < |roots| => CloneWithWorkChildren(workIds, roots[i]))
  }

  /**
   * `shouldRenderFolder(folder)`: whether some child of the folder is a work
   * guild; a folder without children is not rendered. It does not look at the
   * work-mode flag.
   */
  function ShouldRenderFolder(store: SettingsStore, folder: SidebarRoot): (render: bool)
    reads store
    ensures render <==> folder.children.Some? &&
                        exists c :: c in folder.children.value && IsWorkModeId(store.workIds, c.id)
  {
    var w := store.workIds;
    match folder.children
    case None => false
    case Some(cs) =>
      var r := JsArray.AnyOf(cs, IsWorkChild(w));
      assert r ==> exists i :: 0 <= i < |cs| && IsWorkChild(w)(cs[i]);
      assert (exists c :: c in cs && IsWorkModeId(w, c.id)) ==> r by {
        if c :| c in cs && IsWorkModeId(w, c.id) {
          var i :| 0 <= i < |cs| && cs[i] == c;
          assert IsWorkChild(w)(cs[i]);
        }
      }
      r
  }

  /** The second step of `filterRoots`: a guild stays when it is a work id, a folder when it is rendered. */
  predicate KeepClonedRoot(workIds: Option<string>, clone: SidebarRoot)
  {
    match clone
    case Guild(id, _, _, _) => IsWorkModeId(workIds, id)
    case Folder(_, _, _, _, _, children) =>
      children.Some? && JsArray.AnyOf(children.value, IsWorkChild(workIds))
  }

  /** For a folder, the second step of `filterRoots` is exactly `shouldRenderFolder`. */
  lemma KeepFolderIsShouldRender(store: SettingsStore, clone: SidebarRoot)
    ensures clone.Folder? ==> (KeepClonedRoot(store.workIds, clone) <==> ShouldRenderFolder(store, clone))
  {
  }

  function KeepClonedRootBy(workIds: Option<string>): SidebarRoot -> bool
  {
    (clone: SidebarRoot) => KeepClonedRoot(workIds, clone)
  }

  /** Which roots of the original sidebar survive: work guilds, and folders with at least one work guild. */
  ghost predicate KeptInSidebar(store: SettingsStore, root: SidebarRoot)
    reads store
  {
    match root
    case Guild(id, _, _, _) => IsWorkModeId(store.workIds, id)
    case Folder(_, _, _, _, _, children) =>
      children.Some? && exists c :: c in children.value && IsWorkModeId(store.workIds, c.id)
  }

  /**
   * `filterRoots(roots)`. Off: the roots themselves. On: the clones of the
   * roots, in their original order, that are work guilds or folders with at
   * least one work guild; each kept folder has only work guilds as children.
   */
  function FilterRoots(store: SettingsStore, roots: seq<SidebarRoot>): (r: seq<SidebarRoot>)
    reads store
    ensures !store.workModeEnabled ==> r == roots
    ensures store.workModeEnabled ==> JsArray.SubsequenceOf(r, ClonedRoots(store.workIds, roots))
    ensures store.workModeEnabled ==>
              forall x :: multiset(r)[x] ==
                          if KeepClonedRoot(store.workIds, x) then multiset(ClonedRoots(store.workIds, roots))[x] else 0
    ensures store.workModeEnabled ==>
              forall i :: 0 <= i < |roots| ==>
                (CloneWithWorkChildren(store.workIds, roots[i]) in r <==> KeptInSidebar(store, roots[i]))
    ensures store.workModeEnabled ==>
              forall x :: x in r ==>
                (x.Guild? ==> IsWorkModeId(store.workIds, x.id)) &&
                (x.Folder? ==> x.children.Some? && |x.children.value| > 0) &&
                (x.children.Some? ==> forall c :: c in x.children.value ==> IsWorkModeId(store.workIds, c.id))
  {
    if !store.workModeEnabled then roots
    else
      var w := store.workIds;
      var clones := ClonedRoots(w, roots);
      var r := JsArray.Filter(clones, KeepClonedRootBy(w));
      assert forall i :: 0 <= i < |roots| ==>
               (KeepClonedRoot(w, clones[i]) <==> KeptInSidebar(store, roots[i])) by {
        forall i | 0 <= i < |roots|
          ensures KeepClonedRoot(w, clones[i]) <==> KeptInSidebar(store, roots[i])
        {
          KeepCloneIffKept(store, roots[i]);
        }
      }
      assert forall x :: x in r ==> x in clones && KeepClonedRoot(w, x);
      r
  }

  /** A clone passes the second step exactly when its original root is one the sidebar keeps. */
  lemma KeepCloneIffKept(store: SettingsStore, root: SidebarRoot)
    ensures KeepClonedRoot(store.workIds, CloneWithWorkChildren(store.workIds, root)) <==> KeptInSidebar(store, root)
  {
  }

  /**
   * `filterGuildFolders(item)`: off, or a bare guild id: kept. A folder item is
   * kept when some of its guild ids is a work id, and dropped when it has none
   * or no `guildIds` at all.
   */
  function FilterGuildFolders(store: SettingsStore, item: GuildFolderItem): (keep: bool)
    reads store
    ensures keep <==> !store.workModeEnabled || item.GuildIdItem? ||
                      (item.guildIds.Some? && exists id :: id in item.guildIds.value && id in GetWorkIds(store.workIds))
  {
    if !store.workModeEnabled || item.GuildIdItem? then true
    else
      var w := store.workIds;
      match item.guildIds
      case None => false
      case Some(ids) =>
        var r := JsArray.AnyOf(ids, IsWorkId(w));
        assert r ==> exists i :: 0 <= i < |ids| && IsWorkId(w)(ids[i]);
        assert (exists id :: id in ids && IsWorkModeId(w, id)) ==> r by {
          if id :| id in ids && IsWorkModeId(w, id) {
            var i :| 0 <= i < |ids| && ids[i] == id;
            assert IsWorkId(w)(ids[i]);
          }
        }
        r
  }

  /**
   * `handleNotification(user, channel)`: true means the notification is
   * suppressed. Off: nothing is suppressed. On: a notification is suppressed
   * exactly when neither the channel's guild nor the channel is a work id.
   */
  function HandleNotification(store: SettingsStore, channel: Channel): (suppress: bool)
    reads store
    ensures suppress <==> store.workModeEnabled && channel.id !in GetWorkIds(store.workIds) &&
                          (channel.guildId.None? || channel.guildId.value !in GetWorkIds(store.workIds))
  {
    if !store.workModeEnabled then false
    else !IsWorkModeOptId(store.workIds, channel.guildId) && IsNotWorkModeId(store.workIds, channel.id)
  }

  /** `filterUnreadDms(channelId)`: off, every unread DM stays; on, only work channels. */
  function FilterUnreadDms(store: SettingsStore, channelId: string): (keep: bool)
    reads store
    ensures keep <==> !store.workModeEnabled || channelId in GetWorkIds(store.workIds)
  {
    if !store.workModeEnabled then true
    else IsWorkModeId(store.workIds, channelId)
  }

  /** `filterPrivateChannelIds(id)`: off, every DM id stays; on, only work ids. */
  function FilterPrivateChannelIds(store: SettingsStore, id: string): (keep: bool)
    reads store
    ensures keep <==> !store.workModeEnabled || id in GetWorkIds(store.workIds)
  {
    if !store.workModeEnabled then true
    else IsWorkModeId(store.workIds, id)
  }

  /**
   * `filterFriends(userId)`: true means the friend is hidden. Off: nobody is.
   * On: a friend is hidden unless their DM channel exists and is a work id.
   */
  function FilterFriends(store: SettingsStore, userId: string, dmFromUser: string -> Option<string>): (hidden: bool)
    reads store
    ensures hidden <==> store.workModeEnabled &&
                        (dmFromUser(userId).None? || dmFromUser(userId).value !in GetWorkIds(store.workIds))
  {
    if !store.workModeEnabled then false
    else !IsWorkModeOptId(store.workIds, dmFromUser(userId))
  }

  /** The second `--`-separated piece of a party id, when the split has one. */
  function PartyUserId(partyId: string): (userId: Option<string>)
    ensures userId.Some? <==> |JsString.Split(partyId, "--")| >= 2
    ensures userId.Some? ==> userId.value == JsString.Split(partyId, "--")[1]
  {
    var pieces := JsString.Split(partyId, "--");
    if |pieces| > 1 then Some(pieces[1]) else None
  }

  /** The user id a now-playing card names; none when the card has no party or the party no id. */
  function CardUserId(card: NowPlayingCard): Option<string>
  {
    if card.party.Some? && card.party.value.id.Some? then PartyUserId(card.party.value.id.value)
    else None
  }

  /**
   * A party id of the form `prefix--user` or `prefix--user--rest`, with no `-`
   * in `prefix` or `user`, names `user`; a party id without `-` names nobody.
   */
  lemma PartyUserIdOf(prefix: string, user: string, rest: string)
    requires '-' !in prefix && '-' !in user
    ensures PartyUserId(prefix + "--" + user) == Some(user)
    ensures PartyUserId(prefix + "--" + user + "--" + rest) == Some(user)
    ensures PartyUserId(prefix) == None
  {
    var sep := "--";
    JsString.SplitWithoutSeparator(prefix, sep);
    // prefix--user
    JsString.SplitFromSkips(prefix, sep + user, sep, "");
    assert prefix + "--" + user == prefix + (sep + user);
    assert "" + prefix == prefix;
    assert sep <= sep + user && (sep + user)[|sep|..] == user;
    JsString.SplitWithoutSeparator(user, sep);
    // prefix--user--rest
    var tail := user + sep + rest;
    JsString.SplitFromSkips(prefix, sep + tail, sep, "");
    assert prefix + "--" + user + "--" + rest == prefix + (sep + tail);
    assert sep <= sep + tail && (sep + tail)[|sep|..] == tail;
    JsString.SplitFromSkips(user, sep + rest, sep, "");
    assert tail == user + (sep + rest);
    assert "" + user == user;
    assert sep <= sep + rest && (sep + rest)[|sep|..] == rest;
  }

  /**
   * `filterNowPlayingCards(card)`: off, every card stays. On: a card that names
   * no user, or the empty user, stays; otherwise it stays exactly when that
   * user's DM channel exists and is a work id.
   */
  function FilterNowPlayingCards(store: SettingsStore, card: NowPlayingCard, dmFromUser: string -> Option<string>): (keep: bool)
    reads store
    ensures keep <==> !store.workModeEnabled || CardUserId(card) == None || CardUserId(card) == Some("") ||
                      (dmFromUser(CardUserId(card).value).Some? &&
                       dmFromUser(CardUserId(card).value).value in GetWorkIds(store.workIds))
  {
    if !store.workModeEnabled then true
    else
      var userId := CardUserId(card);
      if userId.None? || userId.value == "" then true
      else IsWorkModeOptId(store.workIds, dmFromUser(userId.value))
  }

  /**
   * `filterFriendRows(rows)`. Off: the rows themselves. On: as many rows, in
   * order, each cut down, in order, to the users whose DM channel is a work id.
   */
  function FilterFriendRows(store: SettingsStore, rows: seq<seq<FriendRow>>, dmFromUser: string -> Option<string>): (r: seq<seq<FriendRow>>)
    reads store
    ensures !store.workModeEnabled ==> r == rows
    ensures |r| == |rows|
    ensures store.workModeEnabled ==>
              forall i :: 0 <= i < |rows| ==>
                JsArray.SubsequenceOf(r[i], rows[i]) &&
                forall u :: u in r[i] <==> u in rows[i] && IsWorkModeOptId(store.workIds, dmFromUser(u.userId))
    ensures store.workModeEnabled ==>
              forall i, u :: 0 <= i < |rows| ==>
                multiset(r[i])[u] == if IsWorkModeOptId(store.workIds, dmFromUser(u.userId)) then multiset(rows[i])[u] else 0
  {
    if !store.workModeEnabled then rows
    else
      var w := store.workIds;
      seq(|rows|, i requires 0 <= i < |rows| => JsArray.Filter(rows[i], HasWorkDm(w, dmFromUser)))
  }

  /**
   * `hasWorkUnread(unreadStore)`: whether the host's set of unread guilds meets
   * the set of work ids. It does not look at the work-mode flag.
   */
  function HasWorkUnread(store: SettingsStore, unreadGuilds: set<string>): (b: bool)
    reads store
    ensures b <==> exists g :: g in unreadGuilds && IsWorkModeId(store.workIds, g)
  {
    var common := unreadGuilds * (set id | id in GetWorkIds(store.workIds));
    assert (exists g :: g in unreadGuilds && IsWorkModeId(store.workIds, g)) ==> |common| > 0 by {
      if g :| g in unreadGuilds && IsWorkModeId(store.workIds, g) {
        assert g in common;
      }
    }
    |common| > 0
  }

  /**
   * The decision in `WrapUpperBadge(original, id)`: the suitcase badge for a
   * non-empty work id, the host's badge otherwise. It shows whether work mode
   * is on or off.
   */
  function WrapUpperBadge<T>(store: SettingsStore, original: Option<T>, id: Option<string>): (badge: UpperBadge<T>)
    reads store
    ensures badge.SuitcaseBadge? <==> id.Some? && id.value != "" && id.value in GetWorkIds(store.workIds)
    ensures badge.OriginalBadge? ==> badge.original == original
  {
    if id.None? || id.value == "" || IsNotWorkModeId(store.workIds, id.value) then OriginalBadge(original)
    else SuitcaseBadge
  }

  /**
   * `filterMutablePrivateChannels(channels)`. Off: the dictionary itself. On: a
   * copy holding every work-id entry, and a non-work entry only when pinned DMs
   * are kept and it is pinned; values are unchanged and the input is untouched.
   */
  method FilterMutablePrivateChannels<C>(store: SettingsStore, channels: map<string, C>, isPinned: string -> bool)
    returns (r: map<string, C>)
    ensures !store.workModeEnabled ==> r == channels
    ensures r.Keys <= channels.Keys
    ensures forall id :: id in r ==> r[id] == channels[id]
    ensures store.workModeEnabled ==>
              forall id :: id in channels ==>
                (id in r <==> IsWorkModeId(store.workIds, id) || (store.keepPinnedDms && isPinned(id)))
  {
    if !store.workModeEnabled {
      return channels;
    }
    var copy := channels;
    var pending := channels.Keys;
    while pending != {}
      invariant pending <= channels.Keys
      invariant copy.Keys <= channels.Keys
      invariant forall id :: id in copy ==> copy[id] == channels[id]
      invariant forall id :: id in pending ==> id in copy
      invariant forall id :: id in channels && id !in pending ==>
                  (id in copy <==> IsWorkModeId(store.workIds, id) || (store.keepPinnedDms && isPinned(id)))
      decreases pending
    {
      var id :| id in pending;
      if !IsWorkModeId(store.workIds, id) {
        if !(store.keepPinnedDms && isPinned(id)) {
          copy := copy - {id};
        }
      }
      pending := pending - {id};
    }
    return copy;
  }

  /**
   * `shouldIncrement(guildId, unread)`: whether a guild's mentions count
   * towards the total. True when work mode is off, when the guild is a work id,
   * or when some channel with mentions is a work id.
   */
  method ShouldIncrement(store: SettingsStore, guildId: string, unread: UnreadObj) returns (r: bool)
    ensures r <==> !store.workModeEnabled || IsWorkModeId(store.workIds, guildId) ||
                   exists id :: id in unread.mentionCounts && IsWorkModeId(store.workIds, id)
  {
    if !store.workModeEnabled {
      return true;
    }
    if IsWorkModeId(store.workIds, guildId) {
      return true;
    }
    var pending := unread.mentionCounts.Keys;
    while pending != {}
      invariant pending <= unread.mentionCounts.Keys
      invariant forall id :: id in unread.mentionCounts && id !in pending ==> !IsWorkModeId(store.workIds, id)
      decreases pending
    {
      var id :| id in pending;
      if IsWorkModeId(store.workIds, id) {
        return true;
      }
      pending := pending - {id};
    }
    return false;
  }

  /**
   * With work mode on, a DM notification (no guild) is suppressed exactly when
   * that DM is filtered out of the unread-DM list and the DM list.
   */
  lemma DmNotificationMatchesDmLists(store: SettingsStore, channel: Channel)
    requires store.workModeEnabled && channel.guildId.None?
    ensures HandleNotification(store, channel) <==> !FilterUnreadDms(store, channel.id)
    ensures FilterUnreadDms(store, channel.id) == FilterPrivateChannelIds(store, channel.id)
  {
  }
}
