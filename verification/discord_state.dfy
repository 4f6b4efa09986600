/** The external world the extension reads: DiscordSRV's readiness flag, its
    account link manager, JDA's user cache and the main guild. Every query reads
    one immutable snapshot of it. */
module DiscordState {
  import opened Results

  /** A player's `java.util.UUID`. */
  datatype Uuid = Uuid(mostSigBits: int, leastSigBits: int)

  /** A Discord snowflake id, which the link manager handles as a String. */
  type DiscordId = string

  /** A JDA user: name, four-digit discriminator, the opaque `getAsTag` text and
      the creation time in epoch milliseconds. */
  datatype User = User(name: string, discriminator: string, tag: string, createdMillis: int)

  datatype Role = Role(name: string)

  /** A guild member. `nickname` is `None` where JDA's `getNickname` is null;
      `roles` is in JDA's order. */
  datatype Member = Member(nickname: Option<string>, joinedMillis: int, roles: seq<Role>)

  /** The main guild, reduced to its member cache keyed by Discord id. */
  datatype Guild = Guild(members: map<DiscordId, Member>)

  /** The account link manager: `getDiscordId(uuid)` reads `byPlayer`,
      `getUuid(id)` and `getLinkedAccounts()` read `byDiscord`. */
  datatype LinkTable = LinkTable(byPlayer: map<Uuid, DiscordId>, byDiscord: map<DiscordId, Uuid>)

  /** `ready` is `DiscordSRV.isReady`; `users` is what `DiscordUtil.getUserById`
      finds; `mainGuild` is `None` where `getMainGuild()` is null. */
  datatype State = State(ready: bool, links: LinkTable, users: map<DiscordId, User>, mainGuild: Option<Guild>)

  /** The two directions of the link table describe the same set of links. */
  ghost predicate Consistent(links: LinkTable) {
    && (forall p :: p in links.byPlayer ==>
          links.byPlayer[p] in links.byDiscord && links.byDiscord[links.byPlayer[p]] == p)
    && (forall d :: d in links.byDiscord ==>
          links.byDiscord[d] in links.byPlayer && links.byPlayer[links.byDiscord[d]] == d)
  }

  /** In a consistent link table there are as many linked players as linked
      Discord accounts, so counting either side counts the links. */
  lemma {:induction false} LinkedCountMatches(links: LinkTable)
    requires Consistent(links)
    ensures |links.byPlayer| == |links.byDiscord|
    decreases |links.byPlayer|
  {
    if p :| p in links.byPlayer {
      var d := links.byPlayer[p];
      var smaller := LinkTable(links.byPlayer - {p}, links.byDiscord - {d});
      assert smaller.byPlayer.Keys == links.byPlayer.Keys - {p};
      assert smaller.byDiscord.Keys == links.byDiscord.Keys - {d};
      LinkedCountMatches(smaller);
    } else {
      forall d | d in links.byDiscord
        ensures links.byDiscord[d] in links.byPlayer
      {
      }
      assert links.byDiscord.Keys == {};
    }
  }
}
