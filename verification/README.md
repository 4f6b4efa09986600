# DiscordSRV data extension for Plan — verified model

This project models the DiscordSRV extension for the Plan analytics platform in Dafny. The extension exposes a player's linked Discord account to Plan:
- **Player providers:** whether the player has linked an account, the username, the account creation date, guild membership, the guild nickname, the guild join date and the roles.
- **Server providers:** the number of linked accounts, the number of main-guild users and their ratio.

The extension also listens to DiscordSRV and JDA events and asks Plan to refresh a player's data when something about them changes.

The source holds two near-duplicate extension classes and one listener:
- `com.djrapitops.extension.DiscordSRVExtension` ("djrapitops")
- `net.playeranalytics.extension.discordsrv.DiscordSRVExtension` ("playeranalytics")
- `com.djrapitops.extension.DiscordSRVListener`

The private helpers and nine of the providers have the same logic in both classes. The model defines them once.
- The helpers are at lines 62-99 of both files.
- The providers besides `username` and `notReadyNotice` are the same providers in both classes, at different line numbers. Two of them read their timestamps through differently named JDA accessors: `accountCreated` uses `getCreationTime` in the djrapitops class and `getTimeCreated` in the playeranalytics one, and `joinDate` uses `getJoinDate` against `getTimeJoined`. Both pairs yield the same epoch milliseconds, which the model keeps as `User.createdMillis` and `Member.joinedMillis`.
- The two classes differ in two ways. The djrapitops class has an always-available `notReadyNotice`. Its `username` is built from the name and discriminator, while the playeranalytics one uses JDA's `getAsTag`.

The external world is one immutable snapshot, `DiscordState.State`:
- **`ready`:** DiscordSRV's readiness flag.
- **`links`:** the link table, in both directions.
- **`users`:** the users JDA can find, keyed by Discord id.
- **`mainGuild`:** the optional main guild, with its members keyed by Discord id.

A provider is a pure function of the state and, for player providers, the player's UUID. It returns `Results.Result`, whose `NotReady` case stands for the `NotReadyException` thrown by the readiness gate. `java.util.Optional` becomes `Results.Option`.

Modules:
- **`Resolvers`:** the readiness gate, `getDiscordUser`, `getMainGuild`, `getMember`, the two counts and `calculatePercentage`. The ratio is over `real`.
- **`RolesFormat`:** the reference rendering of a role list and the provider's StringBuilder loop (`RenderRoles`), proved equal. It also has a `Split` that undoes the ", " join for role names that do not contain ", ".
- **`Providers`:** the providers both classes share, with lemmas relating conditions to their dependents.
- **`Registry`:** the provider annotations as data. A provider record holds its name, kind, scope, priority, published `conditionName` and `@Conditional` target. The module defines condition resolution and chain depth, and proves that a table whose chains all end has no cycle.
- **`Declarations`:** the annotation records the two classes share, and their well-formedness and depth lemmas.
- **`Dispatch`:** calls a shared provider by its declared name.
- **`DjrapitopsExtension`** and **`PlayerAnalyticsExtension`:** each class's own providers, its table and its dispatch. Their lemmas cover three things: the declarations against the methods, the readiness behaviour, and the soundness of the conditions.
- **`Listener`:** the event reducer. One event and the link table give zero or one `updatePlayerData(uuid, name)` notifications, and `ReduceAll` handles a stream of events.

Behaviour of the code worth knowing, all stated by the lemmas below:
- **Readiness.** Both extension classes throw `NotReadyException` when DiscordSRV is not ready. No variant silently returns 0 or false.
- **Nickname.** `hasMember` being true does not keep `nickName` off its fallback. A member with a null nickname is shown as "Not a Member" (`Providers.MemberWithoutNicknameShowsFallback`).
- **Roles.** A member with no roles shows "-", the same as a non-member.
- **Ratio without a main guild.** `getGuildMemberCount` returns -1 when there is no main guild. `accountsLinkedPerMembers` then divides by -1 and yields the negated linked count whenever some account is linked (`Providers.NoGuildPercentage`).
- **Ratio above one.** With a main guild the ratio is never negative. It can exceed 1, because linked users need not be guild members (`Providers.PercentageCanExceedOne`).

## Model

| member | source | states |
|---|---|---|
| DiscordState.LinkedCountMatches | src/main/java/com/djrapitops/extension/DiscordSRVExtension.java:84-87 | in a link table whose two directions agree, the number of linked Discord accounts (what `getLinkedAccounts().size()` counts) equals the number of linked players |
| Resolvers.EnsureReady | src/main/java/com/djrapitops/extension/DiscordSRVExtension.java:62-66 | the gate passes exactly when DiscordSRV is ready and fails with NotReady otherwise |
| Resolvers.GetDiscordUser | src/main/java/com/djrapitops/extension/DiscordSRVExtension.java:68-72 | NotReady exactly when not ready; otherwise a user is present iff the player has a link and JDA knows the linked id, and it is that user |
| Resolvers.GetMainGuild | src/main/java/com/djrapitops/extension/DiscordSRVExtension.java:74-78 | NotReady exactly when not ready; otherwise the possibly-absent main guild |
| Resolvers.GetMember | src/main/java/com/djrapitops/extension/DiscordSRVExtension.java:80-82 | NotReady exactly when not ready; otherwise a member is present iff there is a main guild, the player's user resolves and the guild has a member for that id |
| Resolvers.GetLinkedAccountCount | src/main/java/com/djrapitops/extension/DiscordSRVExtension.java:84-87 | gated; the non-negative size of the linked-account map |
| Resolvers.GetGuildMemberCount | src/main/java/com/djrapitops/extension/DiscordSRVExtension.java:89-91 | gated; -1 exactly when there is no main guild, else the guild's member count |
| Resolvers.CalculatePercentage | src/main/java/com/djrapitops/extension/DiscordSRVExtension.java:93-99 | 0.0 when either operand is 0; otherwise a non-zero quotient that multiplied by the divisor gives the dividend (no division by zero); non-negative for non-negative inputs |
| Resolvers.GateGuardsEveryHelper | src/main/java/com/djrapitops/extension/DiscordSRVExtension.java:62-91 | every resolver and count fails with NotReady iff DiscordSRV is not ready, including `getMember` and `getGuildMemberCount`, which reach the gate only through other helpers |
| Resolvers.MemberRequiresUser | src/main/java/com/djrapitops/extension/DiscordSRVExtension.java:80-82 | a member is found only when the user lookup succeeds with the linked user and a main guild exists |
| RolesFormat.JoinSnoc | src/main/java/com/djrapitops/extension/DiscordSRVExtension.java:202-208 | appending one role name to a non-empty list appends one ", " and that name to the joined text |
| RolesFormat.JoinSplitRoundTrip | src/main/java/com/djrapitops/extension/DiscordSRVExtension.java:200-209 | splitting the joined text at ", " gives back the names in order, for non-empty lists of names without ", " in them |
| RolesFormat.RolesTextRoundTrip | src/main/java/com/djrapitops/extension/DiscordSRVExtension.java:193-210 | the role text is "-" for no roles; for one or more roles it splits back into exactly the role names in list order (nothing leading, trailing or reordered) |
| RolesFormat.RenderRoles | src/main/java/com/djrapitops/extension/DiscordSRVExtension.java:193-210 | the StringBuilder loop, appending a separator after every name but the last, produces the reference role text |
| Providers.HasLinkedAccount | src/main/java/com/djrapitops/extension/DiscordSRVExtension.java:111-121 | NotReady iff not ready; otherwise true iff the player's link resolves to a user JDA knows |
| Providers.AccountCreated | src/main/java/com/djrapitops/extension/DiscordSRVExtension.java:137-148 | NotReady iff not ready; the linked user's creation time, or -1 when there is none |
| Providers.HasMember | src/main/java/com/djrapitops/extension/DiscordSRVExtension.java:150-158 | NotReady iff not ready; otherwise true iff the player's linked user is a member of the main guild |
| Providers.NickName | src/main/java/com/djrapitops/extension/DiscordSRVExtension.java:160-170 | NotReady iff not ready; the member's nickname, or "Not a Member" when there is no member or its nickname is null |
| Providers.JoinDate | src/main/java/com/djrapitops/extension/DiscordSRVExtension.java:172-183 | NotReady iff not ready; the member's join time, or -1 for a non-member |
| Providers.Roles | src/main/java/com/djrapitops/extension/DiscordSRVExtension.java:185-210 | NotReady iff not ready; the reference rendering of the member's roles, "-" for a non-member |
| Providers.AccountsLinked | src/main/java/com/djrapitops/extension/DiscordSRVExtension.java:212-221 | NotReady iff not ready; the number of linked Discord accounts |
| Providers.GuildUsers | src/main/java/com/djrapitops/extension/DiscordSRVExtension.java:223-232 | NotReady iff not ready; the main guild's member count, or -1 without a main guild |
| Providers.AccountsLinkedPerMembers | src/main/java/com/djrapitops/extension/DiscordSRVExtension.java:234-243 | NotReady iff not ready; with a main guild the ratio is non-negative and, when both counts are positive, times the member count equals the linked count; 0.0 when either count is 0 |
| Providers.HasMemberImpliesLinked | src/main/java/com/djrapitops/extension/DiscordSRVExtension.java:150-158 | a true `hasMember` implies a true `hasLinkedAccount`, which justifies conditioning the former on the latter |
| Providers.LinkedAccountHasCreationDate | src/main/java/com/djrapitops/extension/DiscordSRVExtension.java:146-147 | under a true `hasLinkedAccount`, `accountCreated` is the user's creation time, not the fallback |
| Providers.MemberHasJoinDateAndRoles | src/main/java/com/djrapitops/extension/DiscordSRVExtension.java:181-198 | under a true `hasMember`, `joinDate` and `roles` are the member's own join time and rendered roles |
| Providers.MemberWithoutNicknameShowsFallback | src/main/java/com/djrapitops/extension/DiscordSRVExtension.java:168-169 | some state has `hasMember` true while `nickName` still yields "Not a Member" (a member with a null nickname) |
| Providers.PercentageCanExceedOne | src/main/java/com/djrapitops/extension/DiscordSRVExtension.java:234-243 | some state with a main guild has a linked-per-member ratio of 2.0: the ratio is not capped at one, because linked accounts need not belong to the guild |
| Providers.NoGuildPercentage | src/main/java/com/djrapitops/extension/DiscordSRVExtension.java:230-243 | with no main guild, `guildUsers` is -1 and the ratio is 0.0 with no linked accounts and minus the linked count otherwise |
| Providers.AccountsLinkedCountsPlayers | src/main/java/com/djrapitops/extension/DiscordSRVExtension.java:219-221 | with a consistent link table, `accountsLinked` also equals the number of linked players |
| Declarations.SharedTableWellFormed | src/main/java/net/playeranalytics/extension/discordsrv/DiscordSRVExtension.java:103-237 | the shared annotations form a well-formed table: only booleans publish conditions; no two declarations (by position, so no record listed twice) publish the same condition or share a name within a scope; every `@Conditional` names a published condition of its scope; every chain ends within two steps |
| Declarations.SharedDepths | src/main/java/net/playeranalytics/extension/discordsrv/DiscordSRVExtension.java:103-182 | providers conditioned on "hasMember" are two deep, those on "hasLinkedAccount" one deep, unconditioned ones at depth 0 |
| Dispatch.SharedProvidersImplemented | src/main/java/com/djrapitops/extension/DiscordSRVExtension.java:111-243 | every shared declaration other than `username` has a method that yields a value of the declared kind, or NotReady exactly when not ready |
| Dispatch.SharedConditionsSound | src/main/java/com/djrapitops/extension/DiscordSRVExtension.java:150-158 | for every conditioned boolean declaration, a true value implies its resolved condition's value is true |
| DjrapitopsExtension.NotReadyNotice | src/main/java/com/djrapitops/extension/DiscordSRVExtension.java:101-109 | yields "DiscordSRV isn't ready yet, no data is available." in every state, including a not-ready one |
| DjrapitopsExtension.Username | src/main/java/com/djrapitops/extension/DiscordSRVExtension.java:123-135 | NotReady iff not ready; "@" + name + "#" + discriminator of the linked user, or "Not Linked" when the link does not resolve |
| DjrapitopsExtension.TableWellFormed | src/main/java/com/djrapitops/extension/DiscordSRVExtension.java:101-243 | the class's annotations, notice included, form a well-formed table (no two positions share a name in a scope or publish the same condition) whose condition chains end and are at most two deep |
| DjrapitopsExtension.TableAcyclic | src/main/java/com/djrapitops/extension/DiscordSRVExtension.java:111-192 | no chain of condition references returns to the provider it started from |
| Registry.NoCycle | src/main/java/com/djrapitops/extension/DiscordSRVExtension.java:111-192 | in any table whose condition chains all end (as both classes' tables are proved to), no chain of condition references returns to the provider it started from |
| DjrapitopsExtension.EveryProviderImplemented | src/main/java/com/djrapitops/extension/DiscordSRVExtension.java:101-243 | every declared provider has a method of its scope whose successful value has the declared kind |
| DjrapitopsExtension.NotReadyFailsAllButNotice | src/main/java/com/djrapitops/extension/DiscordSRVExtension.java:62-109 | when not ready every declared provider except the notice yields NotReady, and the notice yields its text |
| DjrapitopsExtension.ConditionsAreSound | src/main/java/com/djrapitops/extension/DiscordSRVExtension.java:150-158 | over the whole table, a conditioned boolean provider is true only where its condition is true |
| DjrapitopsExtension.LinkedAccountAvoidsFallbacks | src/main/java/com/djrapitops/extension/DiscordSRVExtension.java:123-148 | under a true `hasLinkedAccount`, `username` succeeds and is not "Not Linked", and `accountCreated` is the user's own |
| PlayerAnalyticsExtension.Username | src/main/java/net/playeranalytics/extension/discordsrv/DiscordSRVExtension.java:115-127 | NotReady iff not ready; "@" + the user's opaque tag, or "Not Linked" when the link does not resolve |
| PlayerAnalyticsExtension.TableWellFormed | src/main/java/net/playeranalytics/extension/discordsrv/DiscordSRVExtension.java:103-182 | well-formed table (uniqueness by position), chains end, so `Registry.NoCycle` rules out cycles; depth at most 2, with `nickName`, `joinDate`, `roles` exactly 2 deep and `hasMember` 1 deep |
| PlayerAnalyticsExtension.EveryProviderImplemented | src/main/java/net/playeranalytics/extension/discordsrv/DiscordSRVExtension.java:101-237 | every declared provider has a method of its scope whose successful value has the declared kind |
| PlayerAnalyticsExtension.NotReadyFailsAll | src/main/java/net/playeranalytics/extension/discordsrv/DiscordSRVExtension.java:62-237 | when not ready every declared provider, `hasLinkedAccount` included, yields NotReady: nothing is exempt |
| PlayerAnalyticsExtension.ConditionsAreSound | src/main/java/net/playeranalytics/extension/discordsrv/DiscordSRVExtension.java:142-150 | over the whole table, a conditioned boolean provider is true only where its condition is true |
| PlayerAnalyticsExtension.ConditionsAvoidFallbacks | src/main/java/net/playeranalytics/extension/discordsrv/DiscordSRVExtension.java:111-175 | under a true `hasLinkedAccount`, `username` is not "Not Linked" and `accountCreated` is the user's; under a true `hasMember`, `joinDate` is the member's |
| Listener.UpdateUser | src/main/java/com/djrapitops/extension/DiscordSRVListener.java:59-71 | at most one notification; one exactly when the user is non-null and linked; it names the player the link table maps the user to, with that player's name |
| Listener.Reduce | src/main/java/com/djrapitops/extension/DiscordSRVListener.java:73-120 | at most one notification per event; one exactly for a link or unlink event or a JDA event about a linked user; a link event notifies its own player, and the seven JDA events all reduce to `updateUser` of their user |
| Listener.LinkEventsNotifyTheirPlayer | src/main/java/com/djrapitops/extension/DiscordSRVListener.java:73-85 | a link or unlink event yields exactly one notification with the event player's UUID and name, independent of the link table |
| Listener.UserEventsNotifyLinkedPlayer | src/main/java/com/djrapitops/extension/DiscordSRVListener.java:87-120 | each JDA event yields one notification iff its user is linked, naming the reverse-linked player; none for a null or unlinked user |
| Listener.UserEventsAgree | src/main/java/com/djrapitops/extension/DiscordSRVListener.java:87-120 | any two of the seven JDA events about the same user yield identical output |
| Listener.ReduceAll | src/main/java/com/djrapitops/extension/DiscordSRVListener.java:53-85 | a stream yields at most one notification per event, each for a linked player or for the player of a link event in the stream |
| Listener.ReduceAllAppend | src/main/java/com/djrapitops/extension/DiscordSRVListener.java:53-57 | the listener carries no state between events: reducing a concatenation is concatenating the reductions |
| Listener.RepeatedEventRepeatsUpdates | src/main/java/com/djrapitops/extension/DiscordSRVListener.java:59-85 | an event delivered twice is reported twice (no deduplication); a repeated link event gives two notifications |
| Listener.UpdateTargetsLinkedAccount | src/main/java/com/djrapitops/extension/DiscordSRVListener.java:64-70 | with a consistent link table, the notified player is linked to the event's Discord user, and (when ready and the user is known) that player's `hasLinkedAccount` is true |

## Left out

- The host's evaluation of the annotations. This covers evaluating conditions, dropping providers whose condition is false, ordering by priority, and hidden providers. It is Plan's code and is not part of this model. Only the declared table is modelled, with lemmas relating its conditions to the methods' values.
- Display metadata: text, description, icon, colour, `FormatType`, `showInPlayerTable`, `hidden`. The constant `callExtensionMethodsOn` list is also left out. None of these affect any value.
- JDA and DiscordSRV internals. `DiscordUtil.getUserById`, `Guild.getMember` and `Guild.getMembers` are maps in the state. `getAsTag` is an opaque field of the user. `OffsetDateTime` to epoch milliseconds is already-converted integer fields.
- `Bukkit.getOfflinePlayer(uuid).getName()` is the parameter `nameOf`, a total function to a possibly-absent name.
- IEEE double arithmetic in `calculatePercentage`. The ratio is over `real`; its inputs are integers.
- Java `int`/`long` widths. Counts and timestamps are unbounded integers, because collection sizes and epoch milliseconds stay far inside their Java types.
- Event-bus registration (`@Subscribe`, `ListenerAdapter` dispatch), the listener's constructor and the threads callbacks arrive on. The `Caller` is replaced by the returned list of notifications.
