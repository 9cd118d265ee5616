/** The tables that hang off conversations, and SQL statements that fail when they would break a foreign key. */
module Database {
  import opened JsMaps

  type Id = string

  datatype Conversation = Conversation(tenantId: Id)
  datatype Message = Message(conversationId: Id, tenantId: Id, content: string)
  /** A row that may name a conversation: the column is nullable. */
  datatype Child<+D> = Child(conversationId: Option<Id>, tenantId: Id, data: D)
  datatype Memory = Memory(tenantId: Id, content: string)
  datatype Usage = Usage(model: string, costMicros: int)

  datatype Tables = Tables(
    conversations: map<Id, Conversation>,
    messages: map<Id, Message>,
    usageRecords: map<Id, Child<Usage>>,
    agentRuns: map<Id, Child<string>>,
    agentDelegations: map<Id, Child<string>>,
    execAuditLog: map<Id, Child<string>>,
    memoryEntries: map<Id, Memory>)

  predicate Refers<D>(row: Child<D>, cids: set<Id>) {
    row.conversationId.Some? && row.conversationId.value in cids
  }

  ghost predicate RefersInside<D>(m: map<Id, Child<D>>, cids: set<Id>) {
    forall id :: id in m && m[id].conversationId.Some? ==> m[id].conversationId.value in cids
  }

  /** The foreign keys to conversations; agent_runs.conversation_id is not one. */
  ghost predicate ForeignKeys(t: Tables) {
    && (forall id :: id in t.messages ==> t.messages[id].conversationId in t.conversations.Keys)
    && RefersInside(t.usageRecords, t.conversations.Keys)
    && RefersInside(t.agentDelegations, t.conversations.Keys)
    && RefersInside(t.execAuditLog, t.conversations.Keys)
  }

  datatype Statement =
    | ReleaseUsage(cids: set<Id>)
    | ReleaseRuns(cids: set<Id>)
    | ReleaseDelegations(cids: set<Id>)
    | ReleaseExec(cids: set<Id>)
    | DeleteMessagesIn(cids: set<Id>)
    | DeleteConversations(cids: set<Id>)
    // the reset's statements select by tenant, through the conversations the tenant has at that moment
    | DropDelegations(tenant: Id)
    | DropExec(tenant: Id)
    | DropUsage(tenant: Id)
    | DropMessages(tenant: Id)
    | DropConversations(tenant: Id)
    | DropMemory(tenant: Id)
    | DropTenantUsage(tenant: Id)
    | DropTenantExec(tenant: Id)

  /** UPDATE ... SET conversation_id = NULL WHERE conversation_id IN cids. */
  function Release<D>(m: map<Id, Child<D>>, cids: set<Id>): map<Id, Child<D>> {
    map id | id in m :: if Refers(m[id], cids) then m[id].(conversationId := None) else m[id]
  }

  function Unreferring<D>(m: map<Id, Child<D>>, cids: set<Id>): map<Id, Child<D>> {
    map id | id in m && !Refers(m[id], cids) :: m[id]
  }

  function NotOf<D>(m: map<Id, Child<D>>, tenant: Id): map<Id, Child<D>> {
    map id | id in m && m[id].tenantId != tenant :: m[id]
  }

  /** SELECT id FROM conversations WHERE tenant_id = tenant. */
  function Owned(t: Tables, tenant: Id): set<Id> {
    set id | id in t.conversations && t.conversations[id].tenantId == tenant
  }

  function MessagesOutside(m: map<Id, Message>, cids: set<Id>): map<Id, Message> {
    map id | id in m && m[id].conversationId !in cids :: m[id]
  }

  /** What a statement does to the tables if nothing stops it. */
  function Effect(t: Tables, s: Statement): Tables {
    match s
    case ReleaseUsage(cids) => t.(usageRecords := Release(t.usageRecords, cids))
    case ReleaseRuns(cids) => t.(agentRuns := Release(t.agentRuns, cids))
    case ReleaseDelegations(cids) => t.(agentDelegations := Release(t.agentDelegations, cids))
    case ReleaseExec(cids) => t.(execAuditLog := Release(t.execAuditLog, cids))
    case DeleteMessagesIn(cids) => t.(messages := MessagesOutside(t.messages, cids))
    case DeleteConversations(cids) => t.(conversations := t.conversations - cids)
    case DropDelegations(tenant) => t.(agentDelegations := Unreferring(t.agentDelegations, Owned(t, tenant)))
    case DropExec(tenant) => t.(execAuditLog := Unreferring(t.execAuditLog, Owned(t, tenant)))
    case DropUsage(tenant) => t.(usageRecords := Unreferring(t.usageRecords, Owned(t, tenant)))
    case DropMessages(tenant) => t.(messages := MessagesOutside(t.messages, Owned(t, tenant)))
    case DropConversations(tenant) => t.(conversations := t.conversations - Owned(t, tenant))
    case DropMemory(tenant) =>
      t.(memoryEntries := map id | id in t.memoryEntries && t.memoryEntries[id].tenantId != tenant :: t.memoryEntries[id])
    case DropTenantUsage(tenant) => t.(usageRecords := NotOf(t.usageRecords, tenant))
    case DropTenantExec(tenant) => t.(execAuditLog := NotOf(t.execAuditLog, tenant))
  }

  /** Runs statements one after the other; the first that breaks a foreign key fails the rest. */
  ghost function RunAll(t: Tables, statements: seq<Statement>): Option<Tables>
    decreases |statements|
  {
    if statements == [] then Some(t)
    else if !ForeignKeys(Effect(t, statements[0])) then None
    else RunAll(Effect(t, statements[0]), statements[1..])
  }

  // ---- deleteConversationsCascade ----

  /** conversationIds.filter(Boolean) */
  function NonEmpty(ids: seq<Id>): seq<Id> {
    if ids == [] then [] else NonEmpty(ids[..|ids| - 1]) + (if ids[|ids| - 1] == "" then [] else [ids[|ids| - 1]])
  }

  function SetOf(ids: seq<Id>): set<Id> {
    set id | id in ids
  }

  /** The conversations a list of ids names. */
  function Named(ids: seq<Id>): set<Id> {
    set id | id in ids && id != ""
  }

  /** The places of the list that name one. */
  function NamingPlaces(ids: seq<Id>): set<int> {
    set i | 0 <= i < |ids| && ids[i] != ""
  }

  lemma {:induction false} NonEmptyCounts(ids: seq<Id>, id: Id)
    ensures multiset(NonEmpty(ids))[id] == if id == "" then 0 else multiset(ids)[id]
  {
    if ids != [] {
      var front, last := ids[..|ids| - 1], ids[|ids| - 1];
      NonEmptyCounts(front, id);
      assert ids == front + [last];
    }
  }

  lemma {:induction false} NonEmptyPlaces(ids: seq<Id>)
    ensures |NonEmpty(ids)| == |NamingPlaces(ids)|
  {
    if ids != [] {
      var front, last := ids[..|ids| - 1], ids[|ids| - 1];
      NonEmptyPlaces(front);
      assert NamingPlaces(ids) == NamingPlaces(front) + if last != "" then {|ids| - 1} else {};
    }
  }

  lemma NonEmptyNames(ids: seq<Id>)
    ensures SetOf(NonEmpty(ids)) == Named(ids)
  {
    forall id ensures id in NonEmpty(ids) <==> id in ids && id != "" {
      NonEmptyCounts(ids, id);
      assert id in NonEmpty(ids) <==> id in multiset(NonEmpty(ids));
      assert id in ids <==> id in multiset(ids);
    }
  }

  /** The order is kept. */
  lemma {:induction false} NonEmptyConcat(a: seq<Id>, b: seq<Id>)
    ensures NonEmpty(a + b) == NonEmpty(a) + NonEmpty(b)
  {
    if b == [] {
      assert a + b == a;
    } else {
      assert (a + b)[..|a + b| - 1] == a + b[..|b| - 1];
      NonEmptyConcat(a, b[..|b| - 1]);
    }
  }

  function CascadeStatements(cids: set<Id>): seq<Statement> {
    [ReleaseUsage(cids), ReleaseRuns(cids), ReleaseDelegations(cids), ReleaseExec(cids), DeleteMessagesIn(cids),
     DeleteConversations(cids)]
  }

  /** What is left once the conversations are gone: the kept tables lose only the reference. */
  function Cascaded(t: Tables, cids: set<Id>): Tables {
    t.(conversations := t.conversations - cids,
       messages := MessagesOutside(t.messages, cids),
       usageRecords := Release(t.usageRecords, cids),
       agentRuns := Release(t.agentRuns, cids),
       agentDelegations := Release(t.agentDelegations, cids),
       execAuditLog := Release(t.execAuditLog, cids))
  }

  /** The `k`-th statement goes through. */
  lemma RunOne(t: Tables, all: seq<Statement>, k: nat)
    requires k < |all| && ForeignKeys(Effect(t, all[k]))
    ensures RunAll(t, all[k..]) == RunAll(Effect(t, all[k]), all[k + 1..])
  {
    assert all[k..][1..] == all[k + 1..];
  }

  lemma RunNone(t: Tables, all: seq<Statement>)
    ensures RunAll(t, all[|all|..]) == Some(t)
  {
  }

  /** Releasing references and deleting messages never breaks a foreign key. */
  lemma ReleasingIsSafe(t: Tables, s: Statement)
    requires ForeignKeys(t)
    requires s.ReleaseUsage? || s.ReleaseRuns? || s.ReleaseDelegations? || s.ReleaseExec? || s.DeleteMessagesIn?
    ensures ForeignKeys(Effect(t, s))
  {
  }

  /** The six statements, in this order, never meet a foreign key error, from any consistent database. */
  lemma CascadeSucceeds(t: Tables, cids: set<Id>)
    requires ForeignKeys(t)
    ensures RunAll(t, CascadeStatements(cids)) == Some(Cascaded(t, cids)) && ForeignKeys(Cascaded(t, cids))
  {
    hide RunAll, ForeignKeys, Release, MessagesOutside;
    var all := CascadeStatements(cids);
    var t1 := Effect(t, all[0]);
    var t2 := Effect(t1, all[1]);
    var t3 := Effect(t2, all[2]);
    var t4 := Effect(t3, all[3]);
    var t5 := Effect(t4, all[4]);
    ReleasingIsSafe(t, all[0]);
    ReleasingIsSafe(t1, all[1]);
    ReleasingIsSafe(t2, all[2]);
    ReleasingIsSafe(t3, all[3]);
    ReleasingIsSafe(t4, all[4]);
    CascadeEnds(t, cids);
    assert all[0..] == all;
    RunOne(t, all, 0);
    RunOne(t1, all, 1);
    RunOne(t2, all, 2);
    RunOne(t3, all, 3);
    RunOne(t4, all, 4);
    RunOne(t5, all, 5);
    RunNone(Cascaded(t, cids), all);
  }

  lemma CascadeEnds(t: Tables, cids: set<Id>)
    requires ForeignKeys(t)
    ensures ForeignKeys(Cascaded(t, cids))
  {
  }

  /** The conversations are gone and the others stay; so for the messages in them; the kept tables have the same rows with
      everything but the reference unchanged; and no row names a conversation that is gone, in the runs table either. */
  ghost predicate Released(t: Tables, r: Tables, cids: set<Id>) {
    && r.conversations.Keys == t.conversations.Keys - cids
    && (forall id :: id in r.conversations ==> r.conversations[id] == t.conversations[id])
    && (forall id :: id in r.messages <==> id in t.messages && t.messages[id].conversationId !in cids)
    && (forall id :: id in r.messages ==> r.messages[id] == t.messages[id])
    && Kept(t.usageRecords, r.usageRecords, cids) && Kept(t.agentRuns, r.agentRuns, cids)
    && Kept(t.agentDelegations, r.agentDelegations, cids) && Kept(t.execAuditLog, r.execAuditLog, cids)
    && r.memoryEntries == t.memoryEntries
  }

  /** The cascade leaves exactly that. */
  lemma CascadeReleases(t: Tables, r: Tables, cids: set<Id>)
    ensures Released(t, r, cids) <==> r == Cascaded(t, cids)
  {
    ReleaseIsKept(t.usageRecords, cids);
    ReleaseIsKept(t.agentRuns, cids);
    ReleaseIsKept(t.agentDelegations, cids);
    ReleaseIsKept(t.execAuditLog, cids);
    hide Release, Kept;
    if Released(t, r, cids) {
      KeptIsReleased(t.usageRecords, r.usageRecords, cids);
      KeptIsReleased(t.agentRuns, r.agentRuns, cids);
      KeptIsReleased(t.agentDelegations, r.agentDelegations, cids);
      KeptIsReleased(t.execAuditLog, r.execAuditLog, cids);
      assert r.conversations == t.conversations - cids;
      assert r.messages == MessagesOutside(t.messages, cids);
    }
  }

  lemma ReleaseIsKept<D(!new)>(m: map<Id, Child<D>>, cids: set<Id>)
    ensures Kept(m, Release(m, cids), cids)
  {
  }

  lemma KeptIsReleased<D(!new)>(before: map<Id, Child<D>>, after: map<Id, Child<D>>, cids: set<Id>)
    requires Kept(before, after, cids)
    ensures after == Release(before, cids)
  {
  }

  ghost predicate Kept<D(!new)>(before: map<Id, Child<D>>, after: map<Id, Child<D>>, cids: set<Id>) {
    && after.Keys == before.Keys
    && forall id :: id in after ==>
      && !Refers(after[id], cids) && (Refers(before[id], cids) ==> after[id].conversationId.None?)
      && after[id].tenantId == before[id].tenantId && after[id].data == before[id].data
      && (!Refers(before[id], cids) ==> after[id] == before[id])
  }

  // ---- billing outlives the chat ----

  ghost function TotalCost(m: map<Id, Child<Usage>>): int
    decreases |m|
  {
    if m == map[] then 0
    else
      var id :| id in m;
      m[id].data.costMicros + TotalCost(m - {id})
  }

  lemma {:induction false} TotalCostTakes(m: map<Id, Child<Usage>>, k: Id)
    requires k in m
    ensures TotalCost(m) == m[k].data.costMicros + TotalCost(m - {k})
    decreases |m|
  {
    var id :| id in m && TotalCost(m) == m[id].data.costMicros + TotalCost(m - {id});
    if id != k {
      TotalCostTakes(m - {id}, k);
      TotalCostTakes(m - {k}, id);
      assert m - {id} - {k} == m - {k} - {id};
    }
  }

  lemma {:induction false} SameDataSameCost(a: map<Id, Child<Usage>>, b: map<Id, Child<Usage>>)
    requires a.Keys == b.Keys && forall id :: id in a ==> a[id].data == b[id].data
    ensures TotalCost(a) == TotalCost(b)
    decreases |a|
  {
    if a == map[] {
      assert b == map[];
    } else {
      var id :| id in a;
      TotalCostTakes(a, id);
      TotalCostTakes(b, id);
      SameDataSameCost(a - {id}, b - {id});
    }
  }

  /** Deleting chats never changes what was billed, in total or for any tenant. */
  lemma CascadeKeepsCost(t: Tables, cids: set<Id>)
    ensures TotalCost(Cascaded(t, cids).usageRecords) == TotalCost(t.usageRecords)
    ensures forall tenant ::
      TotalCost(OfTenant(Cascaded(t, cids).usageRecords, tenant)) == TotalCost(OfTenant(t.usageRecords, tenant))
  {
    SameDataSameCost(Cascaded(t, cids).usageRecords, t.usageRecords);
    var after := Cascaded(t, cids).usageRecords;
    forall tenant ensures TotalCost(OfTenant(after, tenant)) == TotalCost(OfTenant(t.usageRecords, tenant)) {
      SameDataSameCost(OfTenant(after, tenant), OfTenant(t.usageRecords, tenant));
    }
  }

  function OfTenant(m: map<Id, Child<Usage>>, tenant: Id): map<Id, Child<Usage>> {
    map id | id in m && m[id].tenantId == tenant :: m[id]
  }

  // ---- resetTenantWorkspace ----

  datatype Scope = Chat | MemoryToo | All

  datatype Counts = Counts(conversations: nat, messages: nat, memoryEntries: nat, usageRecords: nat, execAuditLog: nat)

  function ChatStatements(tenant: Id): seq<Statement> {
    [DropDelegations(tenant), DropExec(tenant), DropUsage(tenant), DropMessages(tenant), DropConversations(tenant)]
  }

  function AfterChat(tenant: Id, scope: Scope): seq<Statement> {
    if scope == Chat then []
    else [DropMemory(tenant)] + if scope == All then [DropTenantUsage(tenant), DropTenantExec(tenant)] else []
  }

  function ResetStatements(tenant: Id, scope: Scope): seq<Statement> {
    ChatStatements(tenant) + AfterChat(tenant, scope)
  }

  /** What the reset leaves, by scope. */
  function Reset(t: Tables, tenant: Id, scope: Scope): Tables {
    var owned := Owned(t, tenant);
    var usage, exec := Unreferring(t.usageRecords, owned), Unreferring(t.execAuditLog, owned);
    t.(conversations := t.conversations - owned,
       messages := MessagesOutside(t.messages, owned),
       agentDelegations := Unreferring(t.agentDelegations, owned),
       usageRecords := if scope == All then NotOf(usage, tenant) else usage,
       execAuditLog := if scope == All then NotOf(exec, tenant) else exec,
       memoryEntries := if scope == Chat then t.memoryEntries
         else map id | id in t.memoryEntries && t.memoryEntries[id].tenantId != tenant :: t.memoryEntries[id])
  }

  /** Deleting child rows and memory never breaks a foreign key either. */
  lemma DroppingIsSafe(t: Tables, s: Statement)
    requires ForeignKeys(t)
    requires
      || s.DropDelegations? || s.DropExec? || s.DropUsage? || s.DropMessages?
      || s.DropMemory? || s.DropTenantUsage? || s.DropTenantExec?
    ensures ForeignKeys(Effect(t, s)) && Effect(t, s).conversations == t.conversations
  {
  }

  /** With its children gone, a tenant's conversations can go. */
  lemma ChatEnds(t: Tables, tenant: Id)
    requires ForeignKeys(t)
    ensures ForeignKeys(Reset(t, tenant, Chat))
  {
  }

  lemma SameOwned(t: Tables, r: Tables, tenant: Id)
    requires r.conversations == t.conversations
    ensures Owned(r, tenant) == Owned(t, tenant)
  {
  }

  lemma ChatSucceeds(t: Tables, tenant: Id, rest: seq<Statement>)
    requires ForeignKeys(t)
    ensures RunAll(t, ChatStatements(tenant) + rest) == RunAll(Reset(t, tenant, Chat), rest)
    ensures ForeignKeys(Reset(t, tenant, Chat))
  {
    hide RunAll, ForeignKeys, Owned, Unreferring, MessagesOutside, NotOf;
    var all := ChatStatements(tenant) + rest;
    var t1 := Effect(t, all[0]);
    var t2 := Effect(t1, all[1]);
    var t3 := Effect(t2, all[2]);
    var t4 := Effect(t3, all[3]);
    var t5 := Effect(t4, all[4]);
    DroppingIsSafe(t, all[0]);
    DroppingIsSafe(t1, all[1]);
    DroppingIsSafe(t2, all[2]);
    DroppingIsSafe(t3, all[3]);
    SameOwned(t, t1, tenant);
    SameOwned(t, t2, tenant);
    SameOwned(t, t3, tenant);
    SameOwned(t, t4, tenant);
    ChatEnds(t, tenant);
    assert t5 == Reset(t, tenant, Chat);
    assert all[0..] == all && all[5..] == rest;
    RunOne(t, all, 0);
    RunOne(t1, all, 1);
    RunOne(t2, all, 2);
    RunOne(t3, all, 3);
    RunOne(t4, all, 4);
  }

  /** No statement of a reset, of any scope, meets a foreign key error from a consistent database. */
  lemma ResetSucceeds(t: Tables, tenant: Id, scope: Scope)
    requires ForeignKeys(t)
    ensures RunAll(t, ResetStatements(tenant, scope)) == Some(Reset(t, tenant, scope))
    ensures ForeignKeys(Reset(t, tenant, scope))
  {
    hide RunAll, ForeignKeys, Owned, Unreferring, MessagesOutside, NotOf, ChatStatements;
    var rest := AfterChat(tenant, scope);
    ChatSucceeds(t, tenant, rest);
    var t5 := Reset(t, tenant, Chat);
    assert rest[0..] == rest;
    if scope == Chat {
      RunNone(t5, rest);
    } else {
      var t6 := Effect(t5, rest[0]);
      DroppingIsSafe(t5, rest[0]);
      RunOne(t5, rest, 0);
      if scope == All {
        var t7 := Effect(t6, rest[1]);
        var t8 := Effect(t7, rest[2]);
        DroppingIsSafe(t6, rest[1]);
        DroppingIsSafe(t7, rest[2]);
        RunOne(t6, rest, 1);
        RunOne(t7, rest, 2);
        RunNone(t8, rest);
      } else {
        RunNone(t6, rest);
      }
    }
  }

  /** `after` has exactly the rows of `before` whose ids are in `kept`, unchanged. */
  ghost predicate IsPart<R(!new)>(before: map<Id, R>, after: map<Id, R>, kept: set<Id>) {
    after.Keys == kept && kept <= before.Keys && forall id :: id in kept ==> after[id] == before[id]
  }

  /** The conversation is there and belongs to the tenant. */
  predicate Owns(t: Tables, tenant: Id, conversation: Id) {
    conversation in t.conversations && t.conversations[conversation].tenantId == tenant
  }

  predicate HangsOff<D>(t: Tables, tenant: Id, row: Child<D>) {
    row.conversationId.Some? && Owns(t, tenant, row.conversationId.value)
  }

  /** Which rows a reset keeps: conversations and messages of conversations of other tenants; delegations that hang off no
      conversation of the tenant, whoever they belong to; usage records and exec-log rows likewise, and for the largest scope
      only those of other tenants; memory of other tenants, or all of it for the smallest scope; and every run. */
  ghost predicate Remains(t: Tables, r: Tables, tenant: Id, scope: Scope) {
    && IsPart(t.conversations, r.conversations, set id | id in t.conversations && t.conversations[id].tenantId != tenant)
    && IsPart(t.messages, r.messages, set id | id in t.messages && !Owns(t, tenant, t.messages[id].conversationId))
    && IsPart(t.agentDelegations, r.agentDelegations,
              set id | id in t.agentDelegations && !HangsOff(t, tenant, t.agentDelegations[id]))
    && IsPart(t.usageRecords, r.usageRecords,
              set id | id in t.usageRecords && !HangsOff(t, tenant, t.usageRecords[id])
                       && (scope == All ==> t.usageRecords[id].tenantId != tenant))
    && IsPart(t.execAuditLog, r.execAuditLog,
              set id | id in t.execAuditLog && !HangsOff(t, tenant, t.execAuditLog[id])
                       && (scope == All ==> t.execAuditLog[id].tenantId != tenant))
    && IsPart(t.memoryEntries, r.memoryEntries,
              set id | id in t.memoryEntries && (scope != Chat ==> t.memoryEntries[id].tenantId != tenant))
    && r.agentRuns == t.agentRuns
  }

  lemma HangsOffIs<D>(t: Tables, tenant: Id, row: Child<D>)
    ensures HangsOff(t, tenant, row) <==> Refers(row, Owned(t, tenant))
  {
  }

  lemma ChildrenKept<D(!new)>(t: Tables, m: map<Id, Child<D>>, tenant: Id, all: bool)
    ensures var chat := Unreferring(m, Owned(t, tenant));
      IsPart(m, if all then NotOf(chat, tenant) else chat,
             set id | id in m && !HangsOff(t, tenant, m[id]) && (all ==> m[id].tenantId != tenant))
  {
    hide HangsOff, Owned;
    forall id | id in m ensures HangsOff(t, tenant, m[id]) <==> Refers(m[id], Owned(t, tenant)) {
      HangsOffIs(t, tenant, m[id]);
    }
  }

  lemma DelegationsKept<D(!new)>(t: Tables, m: map<Id, Child<D>>, tenant: Id)
    ensures IsPart(m, Unreferring(m, Owned(t, tenant)), set id | id in m && !HangsOff(t, tenant, m[id]))
  {
    hide HangsOff, Owned;
    forall id | id in m ensures HangsOff(t, tenant, m[id]) <==> Refers(m[id], Owned(t, tenant)) {
      HangsOffIs(t, tenant, m[id]);
    }
  }

  lemma MessagesKept(t: Tables, tenant: Id)
    ensures IsPart(t.messages, MessagesOutside(t.messages, Owned(t, tenant)),
                   set id | id in t.messages && !Owns(t, tenant, t.messages[id].conversationId))
  {
  }

  lemma ResetRemains(t: Tables, tenant: Id, scope: Scope)
    ensures Remains(t, Reset(t, tenant, scope), tenant, scope)
  {
    hide HangsOff, Owns, Unreferring, NotOf, MessagesOutside;
    ChildrenKept(t, t.usageRecords, tenant, scope == All);
    ChildrenKept(t, t.execAuditLog, tenant, scope == All);
    DelegationsKept(t, t.agentDelegations, tenant);
    MessagesKept(t, tenant);
  }

  lemma RemainsIsUnique(t: Tables, r: Tables, v: Tables, tenant: Id, scope: Scope)
    requires Remains(t, r, tenant, scope) && Remains(t, v, tenant, scope)
    ensures r == v
  {
    hide HangsOff, Owns;
  }

  /** A reset leaves exactly the rows described. */
  lemma ResetExactly(t: Tables, r: Tables, tenant: Id, scope: Scope)
    ensures Remains(t, r, tenant, scope) <==> r == Reset(t, tenant, scope)
  {
    hide Remains, Reset;
    ResetRemains(t, tenant, scope);
    if Remains(t, r, tenant, scope) { RemainsIsUnique(t, r, Reset(t, tenant, scope), tenant, scope); }
  }

  // ---- scopes and tenants ----

  ghost predicate Within(r: Tables, t: Tables) {
    && r.conversations.Items <= t.conversations.Items && r.messages.Items <= t.messages.Items
    && r.usageRecords.Items <= t.usageRecords.Items && r.agentRuns == t.agentRuns
    && r.agentDelegations.Items <= t.agentDelegations.Items && r.execAuditLog.Items <= t.execAuditLog.Items
    && r.memoryEntries.Items <= t.memoryEntries.Items
  }

  /** Each scope deletes everything the previous one deletes, and no scope changes a row or touches agent_runs. */
  lemma ScopesNest(t: Tables, tenant: Id)
    ensures Within(Reset(t, tenant, Chat), t)
    ensures Within(Reset(t, tenant, MemoryToo), Reset(t, tenant, Chat))
    ensures Within(Reset(t, tenant, All), Reset(t, tenant, MemoryToo))
  {
  }

  /** The rows of other tenants. */
  ghost predicate OthersKept(t: Tables, r: Tables, tenant: Id) {
    && (forall id :: id in t.conversations && t.conversations[id].tenantId != tenant ==> id in r.conversations)
    && (forall id :: id in t.messages && t.messages[id].tenantId != tenant ==> id in r.messages)
    && (forall id :: id in t.usageRecords && t.usageRecords[id].tenantId != tenant ==> id in r.usageRecords)
    && (forall id :: id in t.agentDelegations && t.agentDelegations[id].tenantId != tenant ==> id in r.agentDelegations)
    && (forall id :: id in t.execAuditLog && t.execAuditLog[id].tenantId != tenant ==> id in r.execAuditLog)
    && (forall id :: id in t.memoryEntries && t.memoryEntries[id].tenantId != tenant ==> id in r.memoryEntries)
  }

  ghost predicate SameTenant<D>(m: map<Id, Child<D>>, cids: set<Id>, tenant: Id) {
    forall id :: id in m && Refers(m[id], cids) ==> m[id].tenantId == tenant
  }

  /** Every row that hangs off one of the tenant's conversations carries the tenant's id itself. */
  ghost predicate ChildrenShareTenant(t: Tables, tenant: Id) {
    var owned := Owned(t, tenant);
    && (forall id :: id in t.messages && t.messages[id].conversationId in owned ==> t.messages[id].tenantId == tenant)
    && SameTenant(t.usageRecords, owned, tenant)
    && SameTenant(t.agentDelegations, owned, tenant)
    && SameTenant(t.execAuditLog, owned, tenant)
  }

  /** A reset crosses tenants exactly when some row of another tenant hangs off one of this tenant's
      conversations: the children are selected by conversation, not by their own tenant. */
  lemma CrossesTenantsExactly(t: Tables, tenant: Id, scope: Scope)
    ensures OthersKept(t, Reset(t, tenant, scope), tenant) <==> ChildrenShareTenant(t, tenant)
  {
  }

  // ---- the reported counts ----

  function OwnedMessages(t: Tables, tenant: Id): set<Id> {
    set id | id in t.messages && t.messages[id].conversationId in Owned(t, tenant)
  }

  function OwnedMemory(t: Tables, tenant: Id): set<Id> {
    set id | id in t.memoryEntries && t.memoryEntries[id].tenantId == tenant
  }

  function TenantRows<D>(m: map<Id, Child<D>>, tenant: Id): set<Id> {
    set id | id in m && m[id].tenantId == tenant
  }

  /** The numbers the count queries return, each run when the source runs it. */
  function Reported(t: Tables, tenant: Id, scope: Scope): Counts {
    var chat := Reset(t, tenant, Chat);
    Counts(|Owned(t, tenant)|, |OwnedMessages(t, tenant)|,
           if scope == Chat then 0 else |OwnedMemory(t, tenant)|,
           if scope == All then |TenantRows(chat.usageRecords, tenant)| else 0,
           if scope == All then |TenantRows(chat.execAuditLog, tenant)| else 0)
  }

  function Referring<D>(m: map<Id, Child<D>>, cids: set<Id>): set<Id> {
    set id | id in m && Refers(m[id], cids)
  }

  /** Conversations, messages and memory are reported as deleted. */
  lemma CountsAreRows(t: Tables, tenant: Id, scope: Scope)
    ensures var r, c := Reset(t, tenant, scope), Reported(t, tenant, scope);
      && c.conversations == |t.conversations.Keys - r.conversations.Keys|
      && c.messages == |t.messages.Keys - r.messages.Keys|
      && c.memoryEntries == |t.memoryEntries.Keys - r.memoryEntries.Keys|
  {
    var r := Reset(t, tenant, scope);
    assert t.conversations.Keys - r.conversations.Keys == Owned(t, tenant);
    assert t.messages.Keys - r.messages.Keys == OwnedMessages(t, tenant);
    assert t.memoryEntries.Keys - r.memoryEntries.Keys == if scope == Chat then {} else OwnedMemory(t, tenant);
  }

  lemma RowsRemoved<D>(m: map<Id, Child<D>>, cids: set<Id>, tenant: Id, all: bool)
    ensures var chat := Unreferring(m, cids); var r := if all then NotOf(chat, tenant) else chat;
      |m.Keys - r.Keys| == |Referring(m, cids)| + if all then |TenantRows(chat, tenant)| else 0
  {
    var chat := Unreferring(m, cids);
    var r := if all then NotOf(chat, tenant) else chat;
    var last := if all then TenantRows(chat, tenant) else {};
    assert m.Keys - r.Keys == Referring(m, cids) + last;
    assert Referring(m, cids) !! last;
  }

  /** Usage records and the exec log are under-reported by the rows that went with the conversations, so their
      counts are the rows deleted exactly when no such row hung off one of the tenant's conversations. */
  lemma UsageAndExecCounts(t: Tables, tenant: Id, scope: Scope)
    ensures var r, c, owned := Reset(t, tenant, scope), Reported(t, tenant, scope), Owned(t, tenant);
      && |t.usageRecords.Keys - r.usageRecords.Keys| == c.usageRecords + |Referring(t.usageRecords, owned)|
      && |t.execAuditLog.Keys - r.execAuditLog.Keys| == c.execAuditLog + |Referring(t.execAuditLog, owned)|
      && (c.usageRecords == |t.usageRecords.Keys - r.usageRecords.Keys| <==> Referring(t.usageRecords, owned) == {})
      && (c.execAuditLog == |t.execAuditLog.Keys - r.execAuditLog.Keys| <==> Referring(t.execAuditLog, owned) == {})
  {
    RowsRemoved(t.usageRecords, Owned(t, tenant), tenant, scope == All);
    RowsRemoved(t.execAuditLog, Owned(t, tenant), tenant, scope == All);
  }

  // ---- databases for which the reset does not do what its comment says ----

  const NoRows := Tables(map[], map[], map[], map[], map[], map[], map[])

  /** A message of tenant B in a conversation of tenant A. */
  const Shared := NoRows.(conversations := map["c" := Conversation("A")], messages := map["m" := Message("c", "B", "hello")])

  /** Resetting tenant A, at the smallest scope, deletes the message of tenant B. */
  lemma AResetCanCrossTenants()
    ensures ForeignKeys(Shared) && Shared.messages["m"].tenantId == "B"
    ensures "m" !in Reset(Shared, "A", Chat).messages && !OthersKept(Shared, Reset(Shared, "A", Chat), "A")
  {
    assert Shared.messages["m"].conversationId in Owned(Shared, "A");
  }

  /** A usage record that hangs off a conversation of its own tenant. */
  const Billed :=
    NoRows.(conversations := map["c" := Conversation("A")], usageRecords := map["u" := Child(Some("c"), "A", Usage("gpt", 5))])

  /** A full reset deletes the record and reports none. */
  lemma ACountCanBeShort()
    ensures ForeignKeys(Billed) && Reported(Billed, "A", All).usageRecords == 0
    ensures |Billed.usageRecords.Keys - Reset(Billed, "A", All).usageRecords.Keys| == 1
  {
    var chat := Reset(Billed, "A", Chat);
    assert Refers(Billed.usageRecords["u"], Owned(Billed, "A"));
    assert TenantRows(chat.usageRecords, "A") == {};
    assert Billed.usageRecords.Keys - Reset(Billed, "A", All).usageRecords.Keys == {"u"};
  }
}
