/** The DiscordSRV extension of package `com.djrapitops.extension`: the shared
    providers plus an always-available notice and a username built from the
    user's name and discriminator. */
module DjrapitopsExtension {
  import opened Results
  import opened DiscordState
  import opened Resolvers
  import opened Providers
  import opened Registry
  import opened Declarations
  import opened Dispatch

  const NoticeText: string := "DiscordSRV isn't ready yet, no data is available."

  /** `notReadyNotice`: the one provider that never consults the readiness
      gate, so it yields its text even while DiscordSRV is not ready. */
  function NotReadyNotice(s: State): (r: Result<string>)
    ensures r.Ok? && r.value == NoticeText
  {
    Ok(NoticeText)
  }

  /** `username`: "@" + name + "#" + discriminator of the linked user, or
      "Not Linked". */
  function Username(s: State, player: Uuid): (r: Result<string>)
    ensures r.NotReady? <==> !s.ready
    ensures r.Ok? && Linked(s, player) ==>
      r.value == "@" + LinkedUser(s, player).name + "#" + LinkedUser(s, player).discriminator
    ensures r.Ok? && !Linked(s, player) ==> r.value == NotLinkedText
  {
    var user :- GetDiscordUser(s, player);
    match user
    case Some(u) => Ok("@" + u.name + "#" + u.discriminator)
    case None => Ok(NotLinkedText)
  }

  /** The notice is declared first, as a server string provider without a
      priority or condition. */
  const NoticeDecl := Provider("notReadyNotice", StringKind, ServerScope, 0, None, None)

  /** All annotations of the class, in declaration order. */
  const Table: seq<Provider> := [NoticeDecl] + SharedTable

  lemma TableMembers(p: Provider)
    requires p in Table
    ensures p == NoticeDecl || p in SharedTable
  {
  }

  /** Calls the provider method `name` of `scope`; `None` when the class has no
      such method. */
  function Evaluate(name: string, scope: Scope, s: State, player: Uuid): Option<Result<Value>> {
    if scope == ServerScope && name == "notReadyNotice" then Some(StringResult(NotReadyNotice(s)))
    else if scope == PlayerScope && name == "username" then Some(StringResult(Username(s, player)))
    else EvaluateShared(name, scope, s, player)
  }

  /** The declarations are well formed, and no provider sits more than two
      conditions deep. */
  lemma TableWellFormed()
    ensures WellFormed(Table) && ChainsEnd(Table)
    ensures forall p :: p in Table ==> Depth(Table, p) <= 2
  {
    SharedTableWellFormed();
    forall q | q in SharedTable && q.scope == ServerScope
      ensures q.name != NoticeDecl.name
    {
      SharedMembers(q);
    }
    PrependIndependent(NoticeDecl, SharedTable);
    forall p | p in Table
      ensures Depth(Table, p) <= 2
    {
      TableMembers(p);
    }
  }

  /** No chain of conditions in the table returns to where it started. */
  lemma TableAcyclic(path: seq<Provider>)
    requires |path| >= 2 && path[0] in Table && IsChain(Table, path)
    ensures path[|path| - 1] != path[0]
  {
    TableWellFormed();
    NoCycle(Table, path);
  }

  /** Every declared provider names a method of its scope, and what that
      method yields has the declared kind. */
  lemma EveryProviderImplemented(s: State, player: Uuid)
    ensures forall p :: p in Table ==> Evaluate(p.name, p.scope, s, player).Some?
    ensures forall p :: p in Table && Evaluate(p.name, p.scope, s, player).value.Ok? ==>
      KindOf(Evaluate(p.name, p.scope, s, player).value.value) == p.kind
  {
    SharedProvidersImplemented(s, player);
    forall p | p in Table
      ensures Evaluate(p.name, p.scope, s, player).Some?
      ensures Evaluate(p.name, p.scope, s, player).value.Ok? ==>
        KindOf(Evaluate(p.name, p.scope, s, player).value.value) == p.kind
    {
      TableMembers(p);
      if p != NoticeDecl && p != UsernameDecl {
        assert p in SharedTable;
        assert p.name != "username" && p.name != "notReadyNotice" by {
          SharedMembers(p);
        }
      }
    }
  }

  /** While DiscordSRV is not ready every provider fails with NotReady except
      the notice, which still yields its text. */
  lemma NotReadyFailsAllButNotice(s: State, player: Uuid)
    requires !s.ready
    ensures forall p :: p in Table && p != NoticeDecl ==> Evaluate(p.name, p.scope, s, player) == Some(NotReady)
    ensures Evaluate(NoticeDecl.name, NoticeDecl.scope, s, player) == Some(Ok(StringValue(NoticeText)))
  {
    SharedProvidersImplemented(s, player);
    forall p | p in Table && p != NoticeDecl
      ensures Evaluate(p.name, p.scope, s, player) == Some(NotReady)
    {
      SharedMembers(p);
    }
  }

  /** A conditional boolean provider is true only where its condition is true,
      so hiding it behind that condition never hides a true value. */
  lemma ConditionsAreSound(s: State, player: Uuid)
    ensures forall p, q ::
      p in Table && DependsOn(Table, p, q) && p.kind == BooleanKind &&
      Evaluate(p.name, p.scope, s, player) == Some(Ok(BoolValue(true)))
      ==> Evaluate(q.name, q.scope, s, player) == Some(Ok(BoolValue(true)))
  {
    SharedConditionsSound(s, player);
    forall p, q | p in Table && DependsOn(Table, p, q) && p.kind == BooleanKind &&
      Evaluate(p.name, p.scope, s, player) == Some(Ok(BoolValue(true)))
      ensures Evaluate(q.name, q.scope, s, player) == Some(Ok(BoolValue(true)))
    {
      PrependResolve(NoticeDecl, SharedTable, p.conditional.value);
      SharedMembers(p);
    }
  }

  /** Under a true `hasLinkedAccount` the username is the user's tag text,
      never "Not Linked", and the creation date is the user's own. */
  lemma LinkedAccountAvoidsFallbacks(s: State, player: Uuid)
    requires HasLinkedAccount(s, player) == Ok(true)
    ensures Username(s, player).Ok? && Username(s, player).value != NotLinkedText
    ensures AccountCreated(s, player) == Ok(LinkedUser(s, player).createdMillis)
  {
    var text := Username(s, player).value;
    assert text[0] == '@';
    assert NotLinkedText[0] == 'N';
  }
}
