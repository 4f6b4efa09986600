/** The data providers whose code is the same in both DiscordSRV extension
    classes, each a function of one snapshot of the external state. A player
    provider also takes the player's UUID. */
module Providers {
  import opened Results
  import opened DiscordState
  import opened Resolvers
  import opened RolesFormat

  const NotLinkedText: string := "Not Linked"
  const NotMemberText: string := "Not a Member"

  /** The -1 that the date providers and `guildUsers` return for "absent". */
  const Missing: int := -1

  /** `hasLinkedAccount`: the player's link resolves to a user. */
  function HasLinkedAccount(s: State, player: Uuid): (r: Result<bool>)
    ensures r.NotReady? <==> !s.ready
    ensures r.Ok? ==> (r.value <==> Linked(s, player))
  {
    var user :- GetDiscordUser(s, player);
    Ok(user.Some?)
  }

  /** `accountCreated`: the linked user's creation time, or -1. */
  function AccountCreated(s: State, player: Uuid): (r: Result<int>)
    ensures r.NotReady? <==> !s.ready
    ensures r.Ok? && Linked(s, player) ==> r.value == LinkedUser(s, player).createdMillis
    ensures r.Ok? && !Linked(s, player) ==> r.value == Missing
  {
    var user :- GetDiscordUser(s, player);
    match user
    case Some(u) => Ok(u.createdMillis)
    case None => Ok(Missing)
  }

  /** `hasMember`: the player's linked user is in the main guild. */
  function HasMember(s: State, player: Uuid): (r: Result<bool>)
    ensures r.NotReady? <==> !s.ready
    ensures r.Ok? ==> (r.value <==> InMainGuild(s, player))
  {
    var member :- GetMember(s, player);
    Ok(member.Some?)
  }

  /** `nickName`: the member's nickname; "Not a Member" when there is no member
      and also when the member's nickname is null, because mapping an Optional
      to null empties it. */
  function NickName(s: State, player: Uuid): (r: Result<string>)
    ensures r.NotReady? <==> !s.ready
    ensures r.Ok? && InMainGuild(s, player) && GuildMember(s, player).nickname.Some?
      ==> r.value == GuildMember(s, player).nickname.value
    ensures r.Ok? && !(InMainGuild(s, player) && GuildMember(s, player).nickname.Some?)
      ==> r.value == NotMemberText
  {
    var member :- GetMember(s, player);
    match member
    case Some(Member(Some(nick), _, _)) => Ok(nick)
    case _ => Ok(NotMemberText)
  }

  /** `joinDate`: when the member joined the main guild, or -1. */
  function JoinDate(s: State, player: Uuid): (r: Result<int>)
    ensures r.NotReady? <==> !s.ready
    ensures r.Ok? && InMainGuild(s, player) ==> r.value == GuildMember(s, player).joinedMillis
    ensures r.Ok? && !InMainGuild(s, player) ==> r.value == Missing
  {
    var member :- GetMember(s, player);
    match member
    case Some(m) => Ok(m.joinedMillis)
    case None => Ok(Missing)
  }

  /** `roles`: the member's roles in the reference rendering `RolesText`, which
      `RenderRoles` (the StringBuilder loop) is proved to produce; a
      non-member has the empty role list, so "-". */
  function Roles(s: State, player: Uuid): (r: Result<string>)
    ensures r.NotReady? <==> !s.ready
    ensures r.Ok? && InMainGuild(s, player) ==> r.value == RolesText(GuildMember(s, player).roles)
    ensures r.Ok? && !InMainGuild(s, player) ==> r.value == NoRoles
  {
    var member :- GetMember(s, player);
    match member
    case Some(m) => Ok(RolesText(m.roles))
    case None => Ok(RolesText([]))
  }

  /** `accountsLinked`: how many Discord accounts are linked. */
  function AccountsLinked(s: State): (r: Result<int>)
    ensures r.NotReady? <==> !s.ready
    ensures r.Ok? ==> r.value == |s.links.byDiscord|
  {
    GetLinkedAccountCount(s)
  }

  /** `guildUsers`: the main guild's member count, or -1 without a main guild. */
  function GuildUsers(s: State): (r: Result<int>)
    ensures r.NotReady? <==> !s.ready
    ensures r.Ok? && s.mainGuild.Some? ==> r.value == |s.mainGuild.value.members|
    ensures r.Ok? && s.mainGuild.None? ==> r.value == Missing
  {
    GetGuildMemberCount(s)
  }

  /** `accountsLinkedPerMembers`: linked accounts over guild members through the
      zero-guarded ratio. Both counts are read, linked count first. */
  function AccountsLinkedPerMembers(s: State): (r: Result<real>)
    ensures r.NotReady? <==> !s.ready
    ensures r.Ok? && s.mainGuild.Some? && |s.links.byDiscord| > 0 && |s.mainGuild.value.members| > 0
      ==> r.value * (|s.mainGuild.value.members| as real) == |s.links.byDiscord| as real
    ensures r.Ok? && s.mainGuild.Some? ==> r.value >= 0.0
    ensures r.Ok? && (|s.links.byDiscord| == 0 || (s.mainGuild.Some? && |s.mainGuild.value.members| == 0))
      ==> r.value == 0.0
  {
    var linked :- GetLinkedAccountCount(s);
    match GetGuildMemberCount(s)
    case NotReady => NotReady
    case Ok(members) => Ok(CalculatePercentage(linked as real, members as real))
  }

  /** A true `hasMember` implies a true `hasLinkedAccount`: the member lookup
      goes through the user lookup, which is what makes it sound to declare
      `hasMember` conditional on `hasLinkedAccount`. */
  lemma HasMemberImpliesLinked(s: State, player: Uuid)
    requires HasMember(s, player) == Ok(true)
    ensures HasLinkedAccount(s, player) == Ok(true)
  {
  }

  /** Under a true `hasLinkedAccount` the creation date is the user's own, never
      the -1 fallback's stand-in. */
  lemma LinkedAccountHasCreationDate(s: State, player: Uuid)
    requires HasLinkedAccount(s, player) == Ok(true)
    ensures AccountCreated(s, player) == Ok(LinkedUser(s, player).createdMillis)
  {
  }

  /** Under a true `hasMember` the join date and roles are the member's own. */
  lemma MemberHasJoinDateAndRoles(s: State, player: Uuid)
    requires HasMember(s, player) == Ok(true)
    ensures JoinDate(s, player) == Ok(GuildMember(s, player).joinedMillis)
    ensures Roles(s, player) == Ok(RolesText(GuildMember(s, player).roles))
  {
  }

  /** A true `hasMember` does not keep `nickName` off its fallback: a member
      without a nickname is shown as "Not a Member". */
  lemma MemberWithoutNicknameShowsFallback()
    ensures exists s: State, player: Uuid ::
      HasMember(s, player) == Ok(true) && NickName(s, player) == Ok(NotMemberText)
  {
    var player := Uuid(0, 1);
    var id: DiscordId := "42";
    var member := Member(None, 0, []);
    var s := State(
      true,
      LinkTable(map[player := id], map[id := player]),
      map[id := User("Steve", "0001", "Steve#0001", 0)],
      Some(Guild(map[id := member])));
    assert InMainGuild(s, player);
    assert HasMember(s, player) == Ok(true) && NickName(s, player) == Ok(NotMemberText);
  }

  /** With a main guild the ratio is not bounded by one: linked users need not
      be guild members, so two linked accounts over one member give 2.0. */
  lemma PercentageCanExceedOne()
    ensures exists s: State ::
      s.mainGuild.Some? && AccountsLinkedPerMembers(s) == Ok(2.0)
  {
    var alex := Uuid(0, 1);
    var steve := Uuid(0, 2);
    var a: DiscordId := "1";
    var b: DiscordId := "2";
    var s := State(
      true,
      LinkTable(map[alex := a, steve := b], map[a := alex, b := steve]),
      map[],
      Some(Guild(map[a := Member(None, 0, [])])));
    assert |s.links.byDiscord| == 2 by {
      assert s.links.byDiscord.Keys == {a, b};
    }
    assert |s.mainGuild.value.members| == 1;
    assert AccountsLinkedPerMembers(s).value * 1.0 == 2.0;
  }

  /** Without a main guild the member count is the -1 sentinel, and the ratio
      divides by it: 0.0 with no linked accounts, minus the linked count
      otherwise. */
  lemma NoGuildPercentage(s: State)
    requires s.ready && s.mainGuild.None?
    ensures GuildUsers(s) == Ok(Missing)
    ensures |s.links.byDiscord| == 0 ==> AccountsLinkedPerMembers(s) == Ok(0.0)
    ensures |s.links.byDiscord| > 0 ==> AccountsLinkedPerMembers(s) == Ok(-(|s.links.byDiscord| as real))
  {
  }

  /** With a consistent link table, `accountsLinked` also counts the linked players. */
  lemma AccountsLinkedCountsPlayers(s: State)
    requires s.ready && Consistent(s.links)
    ensures AccountsLinked(s) == Ok(|s.links.byPlayer|)
  {
    LinkedCountMatches(s.links);
  }
}
