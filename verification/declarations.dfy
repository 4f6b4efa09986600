/** The provider annotations the two extension classes have in common: the
    player providers with their conditions and the three server providers. */
module Declarations {
  import opened Results
  import opened Registry

  const HasLinkedAccountDecl := Provider("hasLinkedAccount", BooleanKind, PlayerScope, 101, Some("hasLinkedAccount"), None)
  const UsernameDecl := Provider("username", StringKind, PlayerScope, 100, None, Some("hasLinkedAccount"))
  const AccountCreatedDecl := Provider("accountCreated", NumberKind, PlayerScope, 99, None, Some("hasLinkedAccount"))
  const HasMemberDecl := Provider("hasMember", BooleanKind, PlayerScope, 0, Some("hasMember"), Some("hasLinkedAccount"))
  const NickNameDecl := Provider("nickName", StringKind, PlayerScope, 98, None, Some("hasMember"))
  const JoinDateDecl := Provider("joinDate", NumberKind, PlayerScope, 97, None, Some("hasMember"))
  const RolesDecl := Provider("roles", StringKind, PlayerScope, 96, None, Some("hasMember"))
  const AccountsLinkedDecl := Provider("accountsLinked", NumberKind, ServerScope, 100, None, None)
  const GuildUsersDecl := Provider("guildUsers", NumberKind, ServerScope, 99, None, None)
  const PerMembersDecl := Provider("accountsLinkedPerMembers", PercentageKind, ServerScope, 97, None, None)

  /** The shared declarations in source order. */
  const SharedTable: seq<Provider> := [
    HasLinkedAccountDecl, UsernameDecl, AccountCreatedDecl, HasMemberDecl,
    NickNameDecl, JoinDateDecl, RolesDecl, AccountsLinkedDecl, GuildUsersDecl, PerMembersDecl
  ]

  lemma SharedMembers(p: Provider)
    requires p in SharedTable
    ensures || p == HasLinkedAccountDecl || p == UsernameDecl || p == AccountCreatedDecl
            || p == HasMemberDecl || p == NickNameDecl || p == JoinDateDecl || p == RolesDecl
            || p == AccountsLinkedDecl || p == GuildUsersDecl || p == PerMembersDecl
  {
  }

  lemma ResolvesLinked()
    ensures Resolve(SharedTable, "hasLinkedAccount") == Some(HasLinkedAccountDecl)
  {
    ResolveAt(SharedTable, "hasLinkedAccount", 0, 0);
  }

  lemma ResolvesMember()
    ensures Resolve(SharedTable, "hasMember") == Some(HasMemberDecl)
  {
    ResolveAt(SharedTable, "hasMember", 3, 0);
  }

  lemma LinkedDepth(fuel: nat)
    requires fuel >= 1
    ensures ChainDepth(SharedTable, Some("hasLinkedAccount"), fuel) == Some(1)
  {
    ResolvesLinked();
  }

  lemma MemberDepth(fuel: nat)
    requires fuel >= 2
    ensures ChainDepth(SharedTable, Some("hasMember"), fuel) == Some(2)
  {
    ResolvesMember();
    LinkedDepth(fuel - 1);
    assert ChainDepth(SharedTable, HasMemberDecl.conditional, fuel - 1) == Some(1);
  }

  /** The position of each shared declaration, recovered from its name. */
  function NameIndex(name: string): int {
    if name == "hasLinkedAccount" then 0
    else if name == "username" then 1
    else if name == "accountCreated" then 2
    else if name == "hasMember" then 3
    else if name == "nickName" then 4
    else if name == "joinDate" then 5
    else if name == "roles" then 6
    else if name == "accountsLinked" then 7
    else if name == "guildUsers" then 8
    else if name == "accountsLinkedPerMembers" then 9
    else -1
  }

  /** A name determines its position, so no two declarations share it. */
  lemma NamesLocate()
    ensures forall i :: 0 <= i < |SharedTable| ==> NameIndex(SharedTable[i].name) == i
  {
  }

  /** Only `hasLinkedAccount` (first) and `hasMember` (fourth) publish a
      condition, both booleans, under different names. */
  lemma SharedConditionNames()
    ensures forall p :: p in SharedTable && p.conditionName.Some? ==> p.kind == BooleanKind
    ensures forall i, j :: 0 <= i < j < |SharedTable| && SharedTable[i].conditionName.Some? ==>
      SharedTable[j].conditionName != SharedTable[i].conditionName
  {
    forall p | p in SharedTable && p.conditionName.Some?
      ensures p.kind == BooleanKind
    {
      SharedMembers(p);
    }
    forall i, j | 0 <= i < j < |SharedTable| && SharedTable[i].conditionName.Some?
      ensures SharedTable[j].conditionName != SharedTable[i].conditionName
    {
      assert i == 0 || i == 3;
    }
  }

  /** Every `@Conditional` names a condition published in the same scope. */
  lemma SharedConditionalsResolve()
    ensures forall p :: p in SharedTable && p.conditional.Some? ==>
      Resolve(SharedTable, p.conditional.value).Some? &&
      Resolve(SharedTable, p.conditional.value).value.scope == p.scope
  {
    ResolvesLinked();
    ResolvesMember();
    forall p | p in SharedTable && p.conditional.Some?
      ensures Resolve(SharedTable, p.conditional.value).Some?
      ensures Resolve(SharedTable, p.conditional.value).value.scope == p.scope
    {
      SharedMembers(p);
    }
  }

  /** No two shared declarations have the same name, in any scope. */
  lemma SharedNamesUnique()
    ensures forall i, j :: 0 <= i < j < |SharedTable| ==> SharedTable[i].name != SharedTable[j].name
  {
    NamesLocate();
  }

  /** Every condition chain ends; `nickName`, `joinDate` and `roles` sit two
      conditions deep, the other conditioned providers one, the rest none. */
  lemma SharedDepths()
    ensures ChainsEnd(SharedTable)
    ensures forall p :: p in SharedTable ==> Depth(SharedTable, p) <= 2
    ensures forall p :: p in SharedTable && p.conditional == Some("hasMember") ==> Depth(SharedTable, p) == 2
    ensures forall p :: p in SharedTable && p.conditional == Some("hasLinkedAccount") ==> Depth(SharedTable, p) == 1
    ensures forall p :: p in SharedTable && p.conditional.None? ==> Depth(SharedTable, p) == 0
  {
    LinkedDepth(|SharedTable|);
    MemberDepth(|SharedTable|);
    forall p | p in SharedTable
      ensures ChainDepth(SharedTable, p.conditional, |SharedTable|).Some?
      ensures ChainDepth(SharedTable, p.conditional, |SharedTable|).value <= 2
    {
      SharedMembers(p);
    }
  }

  /** The shared declarations form a well-formed condition graph of depth at
      most two. */
  lemma SharedTableWellFormed()
    ensures WellFormed(SharedTable) && ChainsEnd(SharedTable)
    ensures forall p :: p in SharedTable ==> Depth(SharedTable, p) <= 2
  {
    SharedConditionNames();
    SharedConditionalsResolve();
    SharedNamesUnique();
    SharedDepths();
  }
}
