/** The provider declarations an extension class carries as annotations, as
    data: one record per provider method, and the condition graph they form. */
module Registry {
  import opened Results

  /** `@BooleanProvider`, `@StringProvider`, `@NumberProvider`, `@PercentageProvider`. */
  datatype Kind = BooleanKind | StringKind | NumberKind | PercentageKind

  /** A method taking the player's UUID is a player provider; one without
      parameters is a server provider. */
  datatype Scope = PlayerScope | ServerScope

  /** A provided value, tagged with its kind. */
  datatype Value = BoolValue(b: bool) | StringValue(s: string) | NumberValue(n: int) | PercentageValue(p: real)

  function BoolResult(r: Result<bool>): Result<Value> {
    match r case Ok(b) => Ok(BoolValue(b)) case NotReady => NotReady
  }

  function StringResult(r: Result<string>): Result<Value> {
    match r case Ok(t) => Ok(StringValue(t)) case NotReady => NotReady
  }

  function NumberResult(r: Result<int>): Result<Value> {
    match r case Ok(n) => Ok(NumberValue(n)) case NotReady => NotReady
  }

  function PercentageResult(r: Result<real>): Result<Value> {
    match r case Ok(x) => Ok(PercentageValue(x)) case NotReady => NotReady
  }

  function KindOf(v: Value): Kind {
    match v
    case BoolValue(_) => BooleanKind
    case StringValue(_) => StringKind
    case NumberValue(_) => NumberKind
    case PercentageValue(_) => PercentageKind
  }

  /** One provider method: its name, kind, scope and priority, the
      `conditionName` it publishes (boolean providers only) and the condition
      named by its `@Conditional`. An unset priority is the annotation's 0. */
  datatype Provider = Provider(
    name: string,
    kind: Kind,
    scope: Scope,
    priority: int,
    conditionName: Option<string>,
    conditional: Option<string>)

  /** `p` is a boolean provider publishing condition `c`. */
  predicate Declares(p: Provider, c: string) {
    p.kind == BooleanKind && p.conditionName == Some(c)
  }

  /** The first provider at or after position `from` that publishes condition `c`. */
  function ResolveFrom(table: seq<Provider>, c: string, from: nat): (r: Option<Provider>)
    requires from <= |table|
    ensures r.Some? ==> r.value in table && Declares(r.value, c)
    ensures r.None? ==> forall j :: from <= j < |table| ==> !Declares(table[j], c)
    decreases |table| - from
  {
    if from == |table| then None
    else if Declares(table[from], c) then Some(table[from])
    else ResolveFrom(table, c, from + 1)
  }

  /** The first provider of the table that publishes condition `c`, the one a
      `@Conditional(c)` refers to. */
  function Resolve(table: seq<Provider>, c: string): (r: Option<Provider>)
    ensures r.Some? ==> r.value in table && Declares(r.value, c)
    ensures r.None? ==> forall q :: q in table ==> !Declares(q, c)
  {
    ResolveFrom(table, c, 0)
  }

  /** `Resolve` finds the first declaration of `c`, wherever it sits. */
  lemma {:induction false} ResolveAt(table: seq<Provider>, c: string, i: nat, from: nat)
    requires from <= i < |table| && Declares(table[i], c)
    requires forall j :: from <= j < i ==> !Declares(table[j], c)
    ensures ResolveFrom(table, c, from) == Some(table[i])
    decreases i - from
  {
    if from < i {
      ResolveAt(table, c, i, from + 1);
    }
  }

  /** How many conditions stand above a provider whose own condition is `c`,
      following each condition to the provider publishing it; `None` when a
      condition does not resolve or the chain is longer than `fuel`. */
  function ChainDepth(table: seq<Provider>, c: Option<string>, fuel: nat): Option<nat>
    decreases fuel
  {
    match c
    case None => Some(0)
    case Some(name) =>
      if fuel == 0 then None
      else
        match Resolve(table, name)
        case None => None
        case Some(q) =>
          match ChainDepth(table, q.conditional, fuel - 1)
          case None => None
          case Some(d) => Some(d + 1)
  }

  /** Every provider's condition chain resolves and ends within |table| steps. */
  predicate ChainsEnd(table: seq<Provider>) {
    forall p :: p in table ==> ChainDepth(table, p.conditional, |table|).Some?
  }

  function Depth(table: seq<Provider>, p: Provider): nat
    requires ChainsEnd(table) && p in table
  {
    ChainDepth(table, p.conditional, |table|).value
  }

  /** The declarations the host relies on: only boolean providers publish
      conditions, no two declarations publish the same condition, every
      `@Conditional` names a published condition of the same scope, and no
      two declarations share a name within a scope. Uniqueness is stated by
      position, so a table listing one record twice is not well formed. */
  predicate WellFormed(table: seq<Provider>) {
    && (forall p :: p in table && p.conditionName.Some? ==> p.kind == BooleanKind)
    && (forall i, j :: 0 <= i < j < |table| && table[i].conditionName.Some? ==>
          table[j].conditionName != table[i].conditionName)
    && (forall p :: p in table && p.conditional.Some? ==>
          Resolve(table, p.conditional.value).Some? && Resolve(table, p.conditional.value).value.scope == p.scope)
    && (forall i, j :: 0 <= i < j < |table| ==>
          !(table[i].scope == table[j].scope && table[i].name == table[j].name))
  }

  /** `q` is the provider publishing the condition `p` depends on. */
  predicate DependsOn(table: seq<Provider>, p: Provider, q: Provider) {
    p.conditional.Some? && Resolve(table, p.conditional.value) == Some(q)
  }

  /** Consecutive providers of `path` are linked by `DependsOn`. */
  ghost predicate IsChain(table: seq<Provider>, path: seq<Provider>) {
    forall k :: 0 <= k < |path| - 1 ==> DependsOn(table, path[k], path[k + 1])
  }

  /** More fuel never changes a chain depth that has been found. */
  lemma {:induction false} ChainDepthMonotone(table: seq<Provider>, c: Option<string>, fuel: nat, more: nat)
    requires fuel <= more
    requires ChainDepth(table, c, fuel).Some?
    ensures ChainDepth(table, c, more) == ChainDepth(table, c, fuel)
    decreases fuel
  {
    match c
    case None =>
    case Some(name) =>
      var q := Resolve(table, name).value;
      ChainDepthMonotone(table, q.conditional, fuel - 1, more - 1);
  }

  /** Following a condition goes exactly one level up. */
  lemma DepthStep(table: seq<Provider>, p: Provider, q: Provider)
    requires ChainsEnd(table) && p in table && DependsOn(table, p, q)
    ensures q in table
    ensures Depth(table, q) + 1 == Depth(table, p)
  {
    ChainDepthMonotone(table, q.conditional, |table| - 1, |table|);
  }

  /** Along a chain the depth drops by one per step. */
  lemma {:induction false} ChainsDescend(table: seq<Provider>, path: seq<Provider>)
    requires ChainsEnd(table) && |path| >= 1 && path[0] in table && IsChain(table, path)
    ensures path[|path| - 1] in table
    ensures Depth(table, path[|path| - 1]) + |path| - 1 == Depth(table, path[0])
    decreases |path|
  {
    if |path| > 1 {
      DepthStep(table, path[0], path[1]);
      assert IsChain(table, path[1..]) by {
        forall k | 0 <= k < |path[1..]| - 1
          ensures DependsOn(table, path[1..][k], path[1..][k + 1])
        {
          assert DependsOn(table, path[k + 1], path[k + 2]);
        }
      }
      ChainsDescend(table, path[1..]);
    }
  }

  /** A table whose condition chains all end has no cycle: no chain of one or
      more steps returns to where it started. */
  lemma NoCycle(table: seq<Provider>, path: seq<Provider>)
    requires ChainsEnd(table) && |path| >= 2 && path[0] in table && IsChain(table, path)
    ensures path[|path| - 1] != path[0]
  {
    ChainsDescend(table, path);
  }

  lemma {:induction false} ResolveFromPrepend(p: Provider, table: seq<Provider>, c: string, from: nat)
    requires from <= |table|
    ensures ResolveFrom([p] + table, c, from + 1) == ResolveFrom(table, c, from)
    decreases |table| - from
  {
    if from < |table| {
      assert ([p] + table)[from + 1] == table[from];
      ResolveFromPrepend(p, table, c, from + 1);
    }
  }

  /** A provider that publishes no condition does not change what any
      condition resolves to. */
  lemma PrependResolve(p: Provider, table: seq<Provider>, c: string)
    requires p.conditionName.None?
    ensures Resolve([p] + table, c) == Resolve(table, c)
  {
    ResolveFromPrepend(p, table, c, 0);
  }

  lemma {:induction false} ChainDepthPrepend(p: Provider, table: seq<Provider>, c: Option<string>, fuel: nat)
    requires p.conditionName.None?
    ensures ChainDepth([p] + table, c, fuel) == ChainDepth(table, c, fuel)
    decreases fuel
  {
    match c
    case None =>
    case Some(name) =>
      if fuel > 0 {
        PrependResolve(p, table, name);
        match Resolve(table, name)
        case None =>
        case Some(q) => ChainDepthPrepend(p, table, q.conditional, fuel - 1);
      }
  }

  /** Declaring one more provider that neither publishes nor uses a condition,
      under a fresh name, keeps a table well formed and leaves every depth as
      it was. */
  lemma PrependIndependent(p: Provider, table: seq<Provider>)
    requires WellFormed(table) && ChainsEnd(table)
    requires p.conditionName.None? && p.conditional.None?
    requires forall q :: q in table && q.scope == p.scope ==> q.name != p.name
    ensures WellFormed([p] + table) && ChainsEnd([p] + table)
    ensures Depth([p] + table, p) == 0
    ensures forall q :: q in table ==> Depth([p] + table, q) == Depth(table, q)
  {
    var t := [p] + table;
    forall q | q in t
      ensures q == p || q in table
    {
    }
    forall c
      ensures Resolve(t, c) == Resolve(table, c)
    {
      PrependResolve(p, table, c);
    }
    forall q | q in table
      ensures ChainDepth(t, q.conditional, |t|) == ChainDepth(table, q.conditional, |table|)
    {
      ChainDepthPrepend(p, table, q.conditional, |t|);
      ChainDepthMonotone(table, q.conditional, |table|, |t|);
    }
    forall i, j | 0 <= i < j < |t|
      ensures !(t[i].scope == t[j].scope && t[i].name == t[j].name)
      ensures t[i].conditionName.Some? ==> t[j].conditionName != t[i].conditionName
    {
      assert t[j] == table[j - 1];
      if i > 0 {
        assert t[i] == table[i - 1];
      }
    }
  }
}
