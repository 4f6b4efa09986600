/** The private helpers both DiscordSRV extension classes share: the readiness
    gate, the user and member resolvers, the two counts and the zero-guarded
    ratio. */
module Resolvers {
  import opened Results
  import opened DiscordState

  /** The player's link resolves to a user JDA can find. */
  predicate Linked(s: State, player: Uuid) {
    player in s.links.byPlayer && s.links.byPlayer[player] in s.users
  }

  function LinkedUser(s: State, player: Uuid): User
    requires Linked(s, player)
  {
    s.users[s.links.byPlayer[player]]
  }

  /** The player's linked user is a member of an existing main guild. */
  predicate InMainGuild(s: State, player: Uuid) {
    s.mainGuild.Some? && Linked(s, player) && s.links.byPlayer[player] in s.mainGuild.value.members
  }

  function GuildMember(s: State, player: Uuid): Member
    requires InMainGuild(s, player)
  {
    s.mainGuild.value.members[s.links.byPlayer[player]]
  }

  /** `ensureDiscordSRVisReady`: passes exactly when DiscordSRV is ready. */
  function EnsureReady(s: State): (r: Result<()>)
    ensures r.Ok? <==> s.ready
  {
    if s.ready then Ok(()) else NotReady
  }

  /** `getDiscordUser`: gate, then the linked id, then the user with that id;
      a missing link and an uncached user both give an empty Optional. */
  function GetDiscordUser(s: State, player: Uuid): (r: Result<Option<User>>)
    ensures r.NotReady? <==> !s.ready
    ensures r.Ok? ==> (r.value.Some? <==> Linked(s, player))
    ensures r.Ok? && r.value.Some? ==> r.value.value == LinkedUser(s, player)
  {
    var ok :- EnsureReady(s);
    match Get(s.links.byPlayer, player)
    case None => Ok(None)
    case Some(id) => Ok(Get(s.users, id))
  }

  /** `getMainGuild`: gate, then the possibly-null main guild. */
  function GetMainGuild(s: State): (r: Result<Option<Guild>>)
    ensures r.NotReady? <==> !s.ready
    ensures r.Ok? ==> r.value == s.mainGuild
  {
    var ok :- EnsureReady(s);
    Ok(s.mainGuild)
  }

  /** `getMember`: the main guild flat-mapped over the user, then the guild's
      member for that user; empty when any step is empty. */
  function GetMember(s: State, player: Uuid): (r: Result<Option<Member>>)
    ensures r.NotReady? <==> !s.ready
    ensures r.Ok? ==> (r.value.Some? <==> InMainGuild(s, player))
    ensures r.Ok? && r.value.Some? ==> r.value.value == GuildMember(s, player)
  {
    var guild :- GetMainGuild(s);
    match guild
    case None => Ok(None)
    case Some(g) =>
      match GetDiscordUser(s, player)
      case NotReady => NotReady
      case Ok(None) => Ok(None)
      case Ok(Some(_)) => Ok(Get(g.members, s.links.byPlayer[player]))
  }

  /** `getLinkedAccountCount`: gate, then the size of the linked-account map. */
  function GetLinkedAccountCount(s: State): (r: Result<int>)
    ensures r.NotReady? <==> !s.ready
    ensures r.Ok? ==> r.value == |s.links.byDiscord| && r.value >= 0
  {
    var ok :- EnsureReady(s);
    Ok(|s.links.byDiscord|)
  }

  /** `getGuildMemberCount`: the main guild's member count, or the sentinel -1
      when there is no main guild. */
  function GetGuildMemberCount(s: State): (r: Result<int>)
    ensures r.NotReady? <==> !s.ready
    ensures r.Ok? ==> (r.value == -1 <==> s.mainGuild.None?)
    ensures r.Ok? && s.mainGuild.Some? ==> r.value == |s.mainGuild.value.members|
  {
    var guild :- GetMainGuild(s);
    match guild
    case None => Ok(-1)
    case Some(g) => Ok(|g.members|)
  }

  /** `calculatePercentage`: 0.0 when either operand is zero, otherwise the
      quotient, which multiplied back by the divisor gives the dividend. */
  function CalculatePercentage(input1: real, input2: real): (r: real)
    ensures input1 == 0.0 || input2 == 0.0 ==> r == 0.0
    ensures input1 != 0.0 && input2 != 0.0 ==> r * input2 == input1 && r != 0.0
    ensures input1 >= 0.0 && input2 >= 0.0 ==> r >= 0.0
  {
    if input1 == 0.0 || input2 == 0.0 then 0.0 else input1 / input2
  }

  /** Every resolver and count fails with NotReady exactly when DiscordSRV is
      not ready: `getMember` and `getGuildMemberCount` inherit the gate from
      the helpers they call. */
  lemma GateGuardsEveryHelper(s: State, player: Uuid)
    ensures !s.ready <==> GetDiscordUser(s, player).NotReady?
    ensures !s.ready <==> GetMainGuild(s).NotReady?
    ensures !s.ready <==> GetMember(s, player).NotReady?
    ensures !s.ready <==> GetLinkedAccountCount(s).NotReady?
    ensures !s.ready <==> GetGuildMemberCount(s).NotReady?
  {
  }

  /** A member is only ever found for a player whose user resolves. */
  lemma MemberRequiresUser(s: State, player: Uuid)
    requires GetMember(s, player).Ok? && GetMember(s, player).value.Some?
    ensures GetDiscordUser(s, player) == Ok(Some(LinkedUser(s, player)))
    ensures GetMainGuild(s).Ok? && GetMainGuild(s).value.Some?
  {
  }
}
