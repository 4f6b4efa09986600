/** Calls a shared provider method by its declared name and scope, so that
    the declarations can be related to what the methods yield. */
module Dispatch {
  import opened Results
  import opened DiscordState
  import opened Providers
  import opened Registry
  import opened Declarations

  /** The value of the shared provider `name` of `scope`; `None` for a name the
      shared code does not define (`username` differs between the two classes).
      Server providers ignore the player. */
  function EvaluateShared(name: string, scope: Scope, s: State, player: Uuid): Option<Result<Value>> {
    match scope
    case ServerScope =>
      if name == "accountsLinked" then Some(NumberResult(AccountsLinked(s)))
      else if name == "guildUsers" then Some(NumberResult(GuildUsers(s)))
      else if name == "accountsLinkedPerMembers" then Some(PercentageResult(AccountsLinkedPerMembers(s)))
      else None
    case PlayerScope =>
      if name == "hasLinkedAccount" then Some(BoolResult(HasLinkedAccount(s, player)))
      else if name == "accountCreated" then Some(NumberResult(AccountCreated(s, player)))
      else if name == "hasMember" then Some(BoolResult(HasMember(s, player)))
      else if name == "nickName" then Some(StringResult(NickName(s, player)))
      else if name == "joinDate" then Some(NumberResult(JoinDate(s, player)))
      else if name == "roles" then Some(StringResult(Roles(s, player)))
      else None
  }

  /** Every shared declaration but `username` has a method that yields a value
      of the declared kind, or NotReady exactly when DiscordSRV is not ready. */
  lemma SharedProvidersImplemented(s: State, player: Uuid)
    ensures forall p :: p in SharedTable && p != UsernameDecl ==>
      && EvaluateShared(p.name, p.scope, s, player).Some?
      && (EvaluateShared(p.name, p.scope, s, player).value.NotReady? <==> !s.ready)
      && (EvaluateShared(p.name, p.scope, s, player).value.Ok? ==>
            KindOf(EvaluateShared(p.name, p.scope, s, player).value.value) == p.kind)
  {
    forall p | p in SharedTable && p != UsernameDecl
      ensures EvaluateShared(p.name, p.scope, s, player).Some?
      ensures EvaluateShared(p.name, p.scope, s, player).value.NotReady? <==> !s.ready
      ensures EvaluateShared(p.name, p.scope, s, player).value.Ok? ==>
        KindOf(EvaluateShared(p.name, p.scope, s, player).value.value) == p.kind
    {
      SharedMembers(p);
    }
  }

  /** The one conditioned boolean, `hasMember`, is true only where its
      condition `hasLinkedAccount` is true. */
  lemma SharedConditionsSound(s: State, player: Uuid)
    ensures forall p, q ::
      p in SharedTable && DependsOn(SharedTable, p, q) && p.kind == BooleanKind &&
      EvaluateShared(p.name, p.scope, s, player) == Some(Ok(BoolValue(true)))
      ==> EvaluateShared(q.name, q.scope, s, player) == Some(Ok(BoolValue(true)))
  {
    ResolvesLinked();
    forall p, q | p in SharedTable && DependsOn(SharedTable, p, q) && p.kind == BooleanKind &&
      EvaluateShared(p.name, p.scope, s, player) == Some(Ok(BoolValue(true)))
      ensures EvaluateShared(q.name, q.scope, s, player) == Some(Ok(BoolValue(true)))
    {
      SharedMembers(p);
      assert p == HasMemberDecl;
      assert q == HasLinkedAccountDecl;
      HasMemberImpliesLinked(s, player);
    }
  }
}
