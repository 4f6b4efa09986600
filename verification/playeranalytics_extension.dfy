/** The DiscordSRV extension of package `net.playeranalytics.extension.discordsrv`:
    the shared providers, a username built from JDA's opaque tag, and no
    notice, so nothing is exempt from the readiness gate. */
module PlayerAnalyticsExtension {
  import opened Results
  import opened DiscordState
  import opened Resolvers
  import opened Providers
  import opened Registry
  import opened Declarations
  import opened Dispatch

  /** `username`: "@" followed by the linked user's `getAsTag`, or "Not Linked". */
  function Username(s: State, player: Uuid): (r: Result<string>)
    ensures r.NotReady? <==> !s.ready
    ensures r.Ok? && Linked(s, player) ==> r.value == "@" + LinkedUser(s, player).tag
    ensures r.Ok? && !Linked(s, player) ==> r.value == NotLinkedText
  {
    var user :- GetDiscordUser(s, player);
    match user
    case Some(u) => Ok("@" + u.tag)
    case None => Ok(NotLinkedText)
  }

  /** All annotations of the class, in declaration order. */
  const Table: seq<Provider> := SharedTable

  /** Calls the provider method `name` of `scope`; `None` when the class has no
      such method. */
  function Evaluate(name: string, scope: Scope, s: State, player: Uuid): Option<Result<Value>> {
    if scope == PlayerScope && name == "username" then Some(StringResult(Username(s, player)))
    else EvaluateShared(name, scope, s, player)
  }

  /** The declarations are well formed, and no provider sits more than two
      conditions deep: `hasLinkedAccount` above `hasMember` above `nickName`,
      `joinDate` and `roles`. */
  lemma TableWellFormed()
    ensures WellFormed(Table) && ChainsEnd(Table)
    ensures forall p :: p in Table ==> Depth(Table, p) <= 2
    ensures Depth(Table, NickNameDecl) == 2 && Depth(Table, JoinDateDecl) == 2 && Depth(Table, RolesDecl) == 2
    ensures Depth(Table, HasMemberDecl) == 1
  {
    SharedTableWellFormed();
    SharedDepths();
  }

  /** Every declared provider names a method of its scope, and what that
      method yields has the declared kind. */
  lemma EveryProviderImplemented(s: State, player: Uuid)
    ensures forall p :: p in Table ==> Evaluate(p.name, p.scope, s, player).Some?
    ensures forall p :: p in Table && Evaluate(p.name, p.scope, s, player).value.Ok? ==>
      KindOf(Evaluate(p.name, p.scope, s, player).value.value) == p.kind
  {
    SharedProvidersImplemented(s, player);
    forall p | p in Table
      ensures Evaluate(p.name, p.scope, s, player).Some?
      ensures Evaluate(p.name, p.scope, s, player).value.Ok? ==>
        KindOf(Evaluate(p.name, p.scope, s, player).value.value) == p.kind
    {
      if p != UsernameDecl {
        assert p.name != "username" by {
          SharedMembers(p);
        }
      }
    }
  }

  /** While DiscordSRV is not ready every provider of this class fails with
      NotReady, `hasLinkedAccount` included: none is exempt. */
  lemma NotReadyFailsAll(s: State, player: Uuid)
    requires !s.ready
    ensures forall p :: p in Table ==> Evaluate(p.name, p.scope, s, player) == Some(NotReady)
  {
    SharedProvidersImplemented(s, player);
    forall p | p in Table
      ensures Evaluate(p.name, p.scope, s, player) == Some(NotReady)
    {
      SharedMembers(p);
    }
  }

  /** A conditional boolean provider is true only where its condition is true. */
  lemma ConditionsAreSound(s: State, player: Uuid)
    ensures forall p, q ::
      p in Table && DependsOn(Table, p, q) && p.kind == BooleanKind &&
      Evaluate(p.name, p.scope, s, player) == Some(Ok(BoolValue(true)))
      ==> Evaluate(q.name, q.scope, s, player) == Some(Ok(BoolValue(true)))
  {
    SharedConditionsSound(s, player);
    forall p, q | p in Table && DependsOn(Table, p, q) && p.kind == BooleanKind &&
      Evaluate(p.name, p.scope, s, player) == Some(Ok(BoolValue(true)))
      ensures Evaluate(q.name, q.scope, s, player) == Some(Ok(BoolValue(true)))
    {
      SharedMembers(p);
    }
  }

  /** Where a condition holds its dependents take the subject's values: under
      `hasLinkedAccount` the username is never "Not Linked" and the creation
      date is the user's; under `hasMember` the join date is the member's. */
  lemma ConditionsAvoidFallbacks(s: State, player: Uuid)
    ensures HasLinkedAccount(s, player) == Ok(true) ==>
      && Username(s, player).Ok? && Username(s, player).value != NotLinkedText
      && AccountCreated(s, player) == Ok(LinkedUser(s, player).createdMillis)
    ensures HasMember(s, player) == Ok(true) ==>
      JoinDate(s, player) == Ok(GuildMember(s, player).joinedMillis)
  {
    if HasLinkedAccount(s, player) == Ok(true) {
      var text := Username(s, player).value;
      assert text[0] == '@';
      assert NotLinkedText[0] == 'N';
    }
  }
}
