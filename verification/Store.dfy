/** The two deletion routines as they run: table by table, statement by statement, on one shared store. */
module Store {
  import opened JsMaps
  import opened Database

  class Db {
    var conversations: map<Id, Conversation>
    var messages: map<Id, Message>
    var usageRecords: map<Id, Child<Usage>>
    var agentRuns: map<Id, Child<string>>
    var agentDelegations: map<Id, Child<string>>
    var execAuditLog: map<Id, Child<string>>
    var memoryEntries: map<Id, Memory>

    ghost function View(): Tables
      reads this
    {
      Tables(conversations, messages, usageRecords, agentRuns, agentDelegations, execAuditLog, memoryEntries)
    }

    /** One statement; a foreign key error leaves the tables alone. */
    method Execute(s: Statement) returns (ok: bool)
      requires ForeignKeys(View())
      modifies this
      ensures ok <==> ForeignKeys(Effect(old(View()), s))
      ensures View() == if ok then Effect(old(View()), s) else old(View())
    {
      var t := Tables(conversations, messages, usageRecords, agentRuns, agentDelegations, execAuditLog, memoryEntries);
      var r := Effect(t, s);
      ok := Consistent(r);
      if ok {
        conversations, messages, usageRecords := r.conversations, r.messages, r.usageRecords;
        agentRuns, agentDelegations, execAuditLog := r.agentRuns, r.agentDelegations, r.execAuditLog;
        memoryEntries := r.memoryEntries;
      }
    }

    method FilterNonEmpty(ids: seq<Id>) returns (cids: seq<Id>)
      ensures cids == NonEmpty(ids)
      ensures forall id :: multiset(cids)[id] == if id == "" then 0 else multiset(ids)[id]
    {
      forall id ensures multiset(NonEmpty(ids))[id] == if id == "" then 0 else multiset(ids)[id] { NonEmptyCounts(ids, id); }
      cids := [];
      for i := 0 to |ids|
        invariant cids == NonEmpty(ids[..i])
      {
        assert ids[..i + 1][..i] == ids[..i];
        if ids[i] != "" { cids := cids + [ids[i]]; }
      }
      assert ids[..|ids|] == ids;
    }

    /** Deletes the conversations; every statement goes through and leaves the foreign keys valid. The result is
        the number of non-empty ids given, duplicates and unknown ids included. */
    method DeleteConversationsCascade(ids: seq<Id>) returns (deleted: Option<nat>)
      requires ForeignKeys(View())
      modifies this
      ensures deleted == Some(|NamingPlaces(ids)|)
      ensures Released(old(View()), View(), Named(ids)) && ForeignKeys(View())
    {
      hide Effect, ForeignKeys, Cascaded, Released, NonEmpty, SetOf, Named, NamingPlaces;
      ghost var t := View();
      NonEmptyPlaces(ids);
      NonEmptyNames(ids);
      CascadeReleases(t, Cascaded(t, Named(ids)), Named(ids));
      var list := FilterNonEmpty(ids);
      var cids := SetOf(list);
      if |list| == 0 {
        assert list == [];
        NothingCascades(t);
        return Some(0);
      }
      var statements := CascadeStatements(cids);
      CascadeSucceeds(t, cids);
      var ok := RunStatements(statements);
      deleted := Some(|list|);
    }

    method RunStatements(statements: seq<Statement>) returns (ok: bool)
      requires ForeignKeys(View())
      modifies this
      ensures ok <==> RunAll(old(View()), statements).Some?
      ensures ok ==> View() == RunAll(old(View()), statements).value
      ensures ForeignKeys(View())
    {
      hide Effect, ForeignKeys;
      ok := true;
      var i := 0;
      while i < |statements| && ok
        invariant i <= |statements| && ForeignKeys(View())
        invariant ok ==> RunAll(View(), statements[i..]) == RunAll(old(View()), statements)
        invariant !ok ==> RunAll(old(View()), statements).None?
        decreases |statements| - i, ok
      {
        assert statements[i..][1..] == statements[i + 1..];
        ok := Execute(statements[i]);
        if ok { i := i + 1; }
      }
    }

    /** One transaction: it always commits, and its counts are the ones its queries saw. */
    method ResetTenantWorkspace(tenant: Id, scope: Scope) returns (counts: Counts)
      requires ForeignKeys(View())
      modifies this
      ensures View() == Reset(old(View()), tenant, scope) && ForeignKeys(View())
      ensures counts == Reported(old(View()), tenant, scope)
    {
      hide Effect, ForeignKeys, Reset, Owned, OwnedMessages, OwnedMemory, TenantRows;
      ghost var t := View();
      ResetKeeps(t, tenant);
      counts := CountChat(tenant);
      DropChat(tenant);
      if scope != Chat {
        var ownedMemory := CountMemory(tenant);
        counts := counts.(memoryEntries := ownedMemory);
        MemoryEqualsReset(t, tenant);
        var ok := Execute(DropMemory(tenant));
      }
      if scope == All {
        counts := counts.(usageRecords := |TenantRows(usageRecords, tenant)|, execAuditLog := |TenantRows(execAuditLog, tenant)|);
        DropBilling(t, tenant);
      }
    }

    method CountChat(tenant: Id) returns (counts: Counts)
      ensures counts == Counts(|Owned(View(), tenant)|, |OwnedMessages(View(), tenant)|, 0, 0, 0)
    {
      var owned := set id | id in conversations && conversations[id].tenantId == tenant;
      var ownedMessages := set id | id in messages && messages[id].conversationId in owned;
      assert owned == Owned(View(), tenant) && ownedMessages == OwnedMessages(View(), tenant);
      counts := Counts(|owned|, |ownedMessages|, 0, 0, 0);
    }

    method CountMemory(tenant: Id) returns (n: nat)
      ensures n == |OwnedMemory(View(), tenant)|
    {
      var owned := set id | id in memoryEntries && memoryEntries[id].tenantId == tenant;
      assert owned == OwnedMemory(View(), tenant);
      n := |owned|;
    }

    method DropChat(tenant: Id)
      requires ForeignKeys(View())
      modifies this
      ensures View() == Reset(old(View()), tenant, Chat) && ForeignKeys(View())
    {
      hide Effect, ForeignKeys, Reset, RunAll, ChatStatements;
      ChatEqualsReset(View(), tenant);
      var ok := RunStatements(ChatStatements(tenant));
    }

    method DropBilling(ghost t: Tables, tenant: Id)
      requires ForeignKeys(t) && View() == Reset(t, tenant, MemoryToo) && ForeignKeys(View())
      modifies this
      ensures View() == Reset(t, tenant, All) && ForeignKeys(View())
    {
      hide Effect, ForeignKeys, Reset;
      AllEqualsReset(t, tenant);
      var ok := Execute(DropTenantUsage(tenant));
      ok := Execute(DropTenantExec(tenant));
    }
  }

  /** The check a database makes. */
  predicate Consistent(t: Tables)
    ensures Consistent(t) <==> ForeignKeys(t)
  {
    && (forall id | id in t.messages :: t.messages[id].conversationId in t.conversations.Keys)
    && (forall id | id in t.usageRecords :: NullOrIn(t.usageRecords[id].conversationId, t.conversations.Keys))
    && (forall id | id in t.agentDelegations :: NullOrIn(t.agentDelegations[id].conversationId, t.conversations.Keys))
    && (forall id | id in t.execAuditLog :: NullOrIn(t.execAuditLog[id].conversationId, t.conversations.Keys))
  }

  predicate NullOrIn(id: Option<Id>, ids: set<Id>) {
    id.None? || id.value in ids
  }

  lemma NothingCascades(t: Tables)
    ensures Cascaded(t, SetOf([])) == t
  {
  }

  /** The memory a scope counts and the billing rows it counts are still those of the start and of the chat part. */
  lemma ResetKeeps(t: Tables, tenant: Id)
    ensures OwnedMemory(Reset(t, tenant, Chat), tenant) == OwnedMemory(t, tenant)
    ensures var chat, memory := Reset(t, tenant, Chat), Reset(t, tenant, MemoryToo);
      memory.usageRecords == chat.usageRecords && memory.execAuditLog == chat.execAuditLog
  {
    hide Owned, Unreferring, MessagesOutside, NotOf;
  }

  lemma ChatEqualsReset(t: Tables, tenant: Id)
    requires ForeignKeys(t)
    ensures RunAll(t, ChatStatements(tenant)) == Some(Reset(t, tenant, Chat))
  {
    ResetSucceeds(t, tenant, Chat);
    assert ResetStatements(tenant, Chat) == ChatStatements(tenant);
  }

  lemma MemoryEqualsReset(t: Tables, tenant: Id)
    requires ForeignKeys(t)
    ensures Effect(Reset(t, tenant, Chat), DropMemory(tenant)) == Reset(t, tenant, MemoryToo)
    ensures ForeignKeys(Reset(t, tenant, MemoryToo))
  {
    ResetSucceeds(t, tenant, MemoryToo);
  }

  lemma AllEqualsReset(t: Tables, tenant: Id)
    requires ForeignKeys(t)
    ensures var s := Effect(Reset(t, tenant, MemoryToo), DropTenantUsage(tenant));
      ForeignKeys(s) && Effect(s, DropTenantExec(tenant)) == Reset(t, tenant, All) && ForeignKeys(Reset(t, tenant, All))
  {
    ResetSucceeds(t, tenant, All);
  }
}
