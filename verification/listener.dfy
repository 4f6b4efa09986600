/** `DiscordSRVListener`: turns DiscordSRV link events and JDA member and user
    events into `updatePlayerData(uuid, name)` calls on the host's `Caller`.
    The listener keeps no state besides the caller, so each event is reduced
    on its own against the link table. */
module Listener {
  import opened Results
  import opened DiscordState
  import opened Providers

  /** A Bukkit `OfflinePlayer`: its UUID and its possibly-null name. */
  datatype OfflinePlayer = OfflinePlayer(id: Uuid, name: Option<string>)

  /** The events the listener handles. A JDA event's user is given by its id,
      `None` where `event.getUser()` is null. */
  datatype Event =
    | AccountLinked(player: OfflinePlayer)
    | AccountUnlinked(player: OfflinePlayer)
    | MemberRoleAdd(user: Option<DiscordId>)
    | MemberRoleRemove(user: Option<DiscordId>)
    | MemberUpdateNickname(user: Option<DiscordId>)
    | UserUpdateName(user: Option<DiscordId>)
    | MemberJoin(user: Option<DiscordId>)
    | MemberLeave(user: Option<DiscordId>)
    | UserUpdateDiscriminator(user: Option<DiscordId>)

  /** One `caller.updatePlayerData(uuid, name)` call. */
  datatype Notification = UpdatePlayerData(player: Uuid, name: Option<string>)

  /** `updateUser`: nothing for a null user or a Discord account no player has
      linked; otherwise one update for the linked player, named by
      `nameOf` (`Bukkit.getOfflinePlayer(uuid).getName()`). */
  function UpdateUser(user: Option<DiscordId>, links: LinkTable, nameOf: Uuid -> Option<string>): (out: seq<Notification>)
    ensures |out| <= 1
    ensures |out| == 1 <==> user.Some? && user.value in links.byDiscord
    ensures forall n :: n in out ==> n.player in links.byDiscord.Values && n.name == nameOf(n.player)
    ensures forall n :: n in out ==> links.byDiscord[user.value] == n.player
  {
    match user
    case None => []
    case Some(id) =>
      match Get(links.byDiscord, id)
      case None => []
      case Some(uuid) => [UpdatePlayerData(uuid, nameOf(uuid))]
  }

  /** The listener's reaction to one event. Link and unlink events name their
      player directly and consult neither the link table nor readiness; the
      seven JDA events all go through `updateUser`. */
  function Reduce(e: Event, links: LinkTable, nameOf: Uuid -> Option<string>): (out: seq<Notification>)
    ensures |out| <= 1
    ensures |out| == 1 <==> IsLinkEvent(e) || ConcernsLinkedUser(e, links)
    ensures IsLinkEvent(e) ==> out == [UpdatePlayerData(e.player.id, e.player.name)]
    ensures !IsLinkEvent(e) ==> out == UpdateUser(e.user, links, nameOf)
  {
    match e
    case AccountLinked(p) => [UpdatePlayerData(p.id, p.name)]
    case AccountUnlinked(p) => [UpdatePlayerData(p.id, p.name)]
    case MemberRoleAdd(u) => UpdateUser(u, links, nameOf)
    case MemberRoleRemove(u) => UpdateUser(u, links, nameOf)
    case MemberUpdateNickname(u) => UpdateUser(u, links, nameOf)
    case UserUpdateName(u) => UpdateUser(u, links, nameOf)
    case MemberJoin(u) => UpdateUser(u, links, nameOf)
    case MemberLeave(u) => UpdateUser(u, links, nameOf)
    case UserUpdateDiscriminator(u) => UpdateUser(u, links, nameOf)
  }

  predicate IsLinkEvent(e: Event) {
    e.AccountLinked? || e.AccountUnlinked?
  }

  /** The event is about a Discord user whose account some player has linked. */
  predicate ConcernsLinkedUser(e: Event, links: LinkTable) {
    !IsLinkEvent(e) && e.user.Some? && e.user.value in links.byDiscord
  }

  /** A link or unlink event yields exactly one update for its own player,
      whatever the link table says. */
  lemma LinkEventsNotifyTheirPlayer(e: Event, links: LinkTable, other: LinkTable, nameOf: Uuid -> Option<string>)
    requires IsLinkEvent(e)
    ensures Reduce(e, links, nameOf) == [UpdatePlayerData(e.player.id, e.player.name)]
    ensures Reduce(e, links, nameOf) == Reduce(e, other, nameOf)
  {
  }

  /** A JDA event yields one update exactly when its user is linked, and that
      update names the player the link table maps the user to. */
  lemma UserEventsNotifyLinkedPlayer(e: Event, links: LinkTable, nameOf: Uuid -> Option<string>)
    requires !IsLinkEvent(e)
    ensures |Reduce(e, links, nameOf)| <= 1
    ensures |Reduce(e, links, nameOf)| == 1 <==> ConcernsLinkedUser(e, links)
    ensures ConcernsLinkedUser(e, links) ==>
      Reduce(e, links, nameOf) == [UpdatePlayerData(links.byDiscord[e.user.value], nameOf(links.byDiscord[e.user.value]))]
  {
  }

  /** The seven JDA events are interchangeable: any two about the same user
      yield the same updates. */
  lemma UserEventsAgree(e1: Event, e2: Event, links: LinkTable, nameOf: Uuid -> Option<string>)
    requires !IsLinkEvent(e1) && !IsLinkEvent(e2) && e1.user == e2.user
    ensures Reduce(e1, links, nameOf) == Reduce(e2, links, nameOf)
  {
  }

  /** A stream of events, each reduced on its own, in delivery order. */
  function ReduceAll(events: seq<Event>, links: LinkTable, nameOf: Uuid -> Option<string>): (out: seq<Notification>)
    ensures |out| <= |events|
    ensures forall n :: n in out ==>
      n.player in links.byDiscord.Values || exists e :: e in events && IsLinkEvent(e) && e.player.id == n.player
    decreases |events|
  {
    if |events| == 0 then []
    else Reduce(events[0], links, nameOf) + ReduceAll(events[1..], links, nameOf)
  }

  /** Reducing a stream is reducing its parts: the listener carries nothing
      from one event to the next. */
  lemma {:induction false} ReduceAllAppend(a: seq<Event>, b: seq<Event>, links: LinkTable, nameOf: Uuid -> Option<string>)
    ensures ReduceAll(a + b, links, nameOf) == ReduceAll(a, links, nameOf) + ReduceAll(b, links, nameOf)
    decreases |a|
  {
    if |a| > 0 {
      assert (a + b)[1..] == a[1..] + b;
      ReduceAllAppend(a[1..], b, links, nameOf);
    } else {
      assert a + b == b;
    }
  }

  /** There is no deduplication: an event delivered twice is reported twice. */
  lemma RepeatedEventRepeatsUpdates(e: Event, links: LinkTable, nameOf: Uuid -> Option<string>)
    ensures ReduceAll([e, e], links, nameOf) == Reduce(e, links, nameOf) + Reduce(e, links, nameOf)
    ensures IsLinkEvent(e) ==> |ReduceAll([e, e], links, nameOf)| == 2
  {
    assert [e, e][1..] == [e];
  }

  /** With a consistent link table, the update for a JDA event goes to the
      player whose providers read that Discord account: when DiscordSRV is
      ready and the user is known, that player's `hasLinkedAccount` is true. */
  lemma UpdateTargetsLinkedAccount(s: State, e: Event, nameOf: Uuid -> Option<string>)
    requires Consistent(s.links) && !IsLinkEvent(e) && ConcernsLinkedUser(e, s.links)
    ensures s.links.byPlayer[Reduce(e, s.links, nameOf)[0].player] == e.user.value
    ensures s.ready && e.user.value in s.users ==>
      HasLinkedAccount(s, Reduce(e, s.links, nameOf)[0].player) == Ok(true)
  {
  }
}
