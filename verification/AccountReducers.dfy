/** The reducers as the slice runs them: each works on a draft of its group and commits the draft
    at the end, so a reducer that throws leaves the state as it was. */
module AccountReducers {
  import opened Sorting
  import opened Wrappers
  import opened AccountSlice

  // ---------- what an observer of the state sees ----------

  /** No group but this one is touched. */
  ghost predicate OthersKept(before: map<GroupId, GroupState>, after: map<GroupId, GroupState>, group: GroupId) {
    && (forall g :: g != group ==> (g in after <==> g in before))
    && (forall g :: g != group && g in before && g in after ==> after[g] == before[g])
  }

  /** Looking up any other account gives what it gave before. */
  ghost predicate LookupKept(before: GroupState, after: GroupState, touched: set<Id>) {
    forall x :: x !in touched ==> SelectAccountById(after, x) == SelectAccountById(before, x)
  }

  // ---------- the helpers ----------

  method AddTo(t: Table, account: Account) returns (r: Table)
    ensures r == AddEntity(t, account)
    ensures account.id in r.byId && r.byId[account.id] == account
    ensures forall x :: x != account.id ==> (x in r.byId <==> x in t.byId) && (x in t.byId ==> r.byId[x] == t.byId[x])
    ensures t.ids <= r.ids && |r.ids| == if account.id in t.byId then |t.ids| else |t.ids| + 1
    ensures Matches(t) ==> Matches(r) && (DuplicateFree(t.ids) ==> DuplicateFree(r.ids))
  {
    if Matches(t) {
      AddEntityKeeps(t, account);
    }
    r := t;
    if account.id !in r.byId {
      r := r.(ids := r.ids + [account.id]);
    }
    r := r.(byId := r.byId[account.id := account]);
  }

  /** `r` is the table without the entity and without any occurrence of its id; all other ids stay, as
      often as before and in their order. */
  ghost predicate Removed(t: Table, id: Id, r: Table) {
    && id !in r.byId && (id in t.byId ==> !Has(r.ids, id))
    && (forall x :: x != id ==> (x in r.byId <==> x in t.byId) && (x in t.byId ==> r.byId[x] == t.byId[x]))
    && (forall x :: x != id ==> (Has(r.ids, x) <==> Has(t.ids, x)) && multiset(r.ids)[x] == multiset(t.ids)[x])
    && Subsequence(r.ids, t.ids)
    && (Matches(t) ==> Matches(r) && (DuplicateFree(t.ids) ==> DuplicateFree(r.ids)))
  }

  lemma RemoveEntityRemoves(t: Table, id: Id)
    ensures Removed(t, id, RemoveEntity(t, id))
  {
    hide Subsequence, Matches, Has, DuplicateFree, Without;
    WithoutMembers(t.ids, id);
    WithoutInOrder(t.ids, id);
    WholeIsSubsequence(t.ids);
    forall x ensures multiset(Without(t.ids, id))[x] == if x == id then 0 else multiset(t.ids)[x] {
      WithoutCount(t.ids, id, x);
    }
    if Matches(t) {
      RemoveEntityKeeps(t, id);
    }
  }

  method RemoveFrom(t: Table, id: Id) returns (r: Table)
    ensures r == RemoveEntity(t, id) && Removed(t, id, r)
  {
    hide Removed;
    RemoveEntityRemoves(t, id);
    if id !in t.byId {
      return t;
    }
    r := t.(byId := t.byId - {id});
    var ids := [];
    for i := 0 to |t.ids|
      invariant ids == Without(t.ids[..i], id)
    {
      assert t.ids[..i + 1][..i] == t.ids[..i];
      if t.ids[i] != id {
        ids := ids + [t.ids[i]];
      }
    }
    assert t.ids[..|t.ids|] == t.ids;
    r := r.(ids := ids);
  }

  /** moveAccountToWip; None when the account does not exist, where the source throws. */
  method MoveToWip(s: GroupState, id: Id) returns (moved: Option<GroupState>)
    ensures id in s.wip.byId ==> moved == Some(s)
    ensures id !in s.wip.byId && id in s.accounts.byId ==>
              moved == Some(s.(wip := Table(s.wip.byId[id := ToWip(s.accounts.byId[id])], s.wip.ids + [id])))
    ensures moved.None? <==> id !in s.wip.byId && id !in s.accounts.byId
  {
    if id !in s.wip.byId {
      if id !in s.accounts.byId {
        return None;
      }
      var account := s.accounts.byId[id];
      var wip := s.wip.(byId := s.wip.byId[id := account.(isWip := true)]);
      wip := wip.(ids := wip.ids + [id]);
      return Some(s.(wip := wip));
    }
    return Some(s);
  }

  /** If an id occurs more than once the last account wins. */
  ghost predicate LastOf(fetched: seq<Account>, i: nat) {
    i < |fetched| && forall j :: i < j < |fetched| ==> fetched[j].id != fetched[i].id
  }

  lemma {:induction false} FetchedEntry(fetched: seq<Account>, i: nat)
    requires LastOf(fetched, i)
    ensures fetched[i].id in Fetched(fetched) && Fetched(fetched)[fetched[i].id] == fetched[i].(isWip := false)
  {
    var n := |fetched| - 1;
    if i < n {
      assert fetched[n].id != fetched[i].id;
      FetchedEntry(fetched[..n], i);
    }
  }

  /** The table holds the fetched accounts in their order. */
  ghost predicate HoldsFetched(t: Table, fetched: seq<Account>) {
    && Matches(t) && |t.ids| == |fetched|
    && (forall i :: 0 <= i < |fetched| ==> t.ids[i] == fetched[i].id)
    && (forall i: nat :: LastOf(fetched, i) ==>
                           fetched[i].id in t.byId && t.byId[fetched[i].id] == fetched[i].(isWip := false))
  }

  lemma FetchedIsHeld(fetched: seq<Account>)
    ensures HoldsFetched(Table(Fetched(fetched), IdsOf(fetched)), fetched)
  {
    hide Fetched, Matches;
    FetchedMatches(fetched);
    forall i: nat | LastOf(fetched, i)
      ensures fetched[i].id in Fetched(fetched) && Fetched(fetched)[fetched[i].id] == fetched[i].(isWip := false)
    {
      FetchedEntry(fetched, i);
    }
  }

  lemma FetchedPush(fetched: seq<Account>, i: nat)
    requires i < |fetched|
    ensures Fetched(fetched[..i + 1]) == Fetched(fetched[..i])[fetched[i].id := fetched[i].(isWip := false)]
    ensures IdsOf(fetched[..i + 1]) == IdsOf(fetched[..i]) + [fetched[i].id]
  {
    assert fetched[..i + 1][..i] == fetched[..i];
  }

  method FetchedTable(fetched: seq<Account>) returns (t: Table)
    ensures t == Table(Fetched(fetched), IdsOf(fetched)) && HoldsFetched(t, fetched)
  {
    hide HoldsFetched;
    var byId := map[];
    var ids := [];
    for i := 0 to |fetched|
      invariant byId == Fetched(fetched[..i]) && ids == IdsOf(fetched[..i])
    {
      FetchedPush(fetched, i);
      byId := byId[fetched[i].id := fetched[i].(isWip := false)];
      ids := ids + [fetched[i].id];
    }
    assert fetched[..|fetched|] == fetched;
    t := Table(byId, ids);
    FetchedIsHeld(fetched);
  }

  class Slice {
    var byGroupId: map<GroupId, GroupState>
    var nextLocalAccountId: int

    ghost function Current(): State
      reads this
    {
      State(byGroupId, nextLocalAccountId)
    }

    constructor ()
      ensures Current() == INITIAL
    {
      byGroupId := map[];
      nextLocalAccountId := -1;
    }

    method Commit(group: GroupId, s: GroupState)
      modifies this`byGroupId
      ensures byGroupId == old(byGroupId)[group := s]
    {
      byGroupId := byGroupId[group := s];
    }

    method CopyAccount(group: GroupId, id: Id) returns (thrown: bool)
      modifies this
      ensures Current() == Reduce(old(Current()), Action.CopyAccount(group, id))
      ensures thrown <==> Throws(old(Current()), Action.CopyAccount(group, id))
      ensures thrown <==> group !in old(byGroupId)
      ensures thrown ==> Current() == old(Current())
      ensures !thrown ==>
                group in old(byGroupId) && group in byGroupId && OthersKept(old(byGroupId), byGroupId, group)
      ensures !thrown ==>
                var before, after := old(byGroupId)[group], byGroupId[group];
                var source := SelectAccountById(before, id);
                if source.None? then after == before && nextLocalAccountId == old(nextLocalAccountId)
                else
                  && nextLocalAccountId == old(nextLocalAccountId) - 1 && after.accounts == before.accounts
                  && SelectAccountById(after, old(nextLocalAccountId)) ==
                     Some(source.value.(id := old(nextLocalAccountId), isWip := true, name := source.value.name + " - Copy"))
                  && LookupKept(before, after, {old(nextLocalAccountId)})
    {
      if group !in byGroupId {
        return true;
      }
      var s := byGroupId[group];
      var account := SelectAccountById(s, id);
      if account.None? {
        return false;
      }
      var newAccountId := nextLocalAccountId;
      nextLocalAccountId := nextLocalAccountId - 1;
      var copy := account.value.(name := account.value.name + " - Copy", id := newAccountId, isWip := true);
      var wip := AddTo(s.wip, copy);
      Commit(group, s.(wip := wip));
      return false;
    }

    /** The synchronous part of the thunk: takes the next id and dispatches advanceNextLocalAccountId. */
    method StartCreateAccount() returns (accountId: Id)
      modifies this
      ensures Current() == Reduce(old(Current()), CreateAccountStarted)
      ensures Some(accountId) == HandedOut(old(Current()), CreateAccountStarted)
      ensures accountId == old(nextLocalAccountId) && nextLocalAccountId == accountId - 1
      ensures byGroupId == old(byGroupId)
    {
      accountId := nextLocalAccountId;
      nextLocalAccountId := nextLocalAccountId - 1;
    }

    method AccountAdded(account: Account) returns (thrown: bool)
      modifies this
      ensures Current() == Reduce(old(Current()), Action.AccountAdded(account))
      ensures thrown <==> Throws(old(Current()), Action.AccountAdded(account))
      ensures thrown <==> account.group !in old(byGroupId)
      ensures thrown ==> Current() == old(Current())
      ensures nextLocalAccountId == old(nextLocalAccountId)
      ensures !thrown ==>
                account.group in old(byGroupId) && account.group in byGroupId && OthersKept(old(byGroupId), byGroupId, account.group)
      ensures !thrown ==>
                var before, after := old(byGroupId)[account.group], byGroupId[account.group];
                && after.wip == before.wip && account.id in after.accounts.byId
                && (account.id in before.accounts.byId ==> after == before)
                && (account.id !in before.accounts.byId ==> after.accounts.byId[account.id] == account)
                && LookupKept(before, after, {account.id})
    {
      if account.group !in byGroupId {
        return true;
      }
      var s := byGroupId[account.group];
      if account.id !in s.accounts.byId {
        var accounts := AddTo(s.accounts, account);
        s := s.(accounts := accounts);
      }
      Commit(account.group, s);
      return false;
    }

    method AccountEditStarted(group: GroupId, id: Id) returns (thrown: bool)
      modifies this
      ensures Current() == Reduce(old(Current()), Action.AccountEditStarted(group, id))
      ensures thrown <==> Throws(old(Current()), Action.AccountEditStarted(group, id))
      ensures thrown <==> group !in old(byGroupId)
      ensures thrown ==> Current() == old(Current())
      ensures nextLocalAccountId == old(nextLocalAccountId)
      ensures !thrown ==>
                group in old(byGroupId) && group in byGroupId && OthersKept(old(byGroupId), byGroupId, group)
      ensures !thrown ==>
                var before, after := old(byGroupId)[group], byGroupId[group];
                && after.accounts == before.accounts && LookupKept(before, after, {id})
                && (SelectAccountById(before, id).Some? ==> id in after.wip.byId)
                && (id in before.wip.byId || id !in before.accounts.byId ==> after == before)
    {
      if group !in byGroupId {
        return true;
      }
      var s := byGroupId[group];
      if id !in s.wip.byId && id in s.accounts.byId {
        var moved := MoveToWip(s, id);
        s := moved.value;
      }
      Commit(group, s);
      return false;
    }

    /** Pushes the id of an account that is not being edited, and then moves it, which pushes the id
        once more. */
    method WipAccountUpdated(u: Update) returns (thrown: bool)
      modifies this
      ensures Current() == Reduce(old(Current()), Action.WipAccountUpdated(u))
      ensures thrown <==> Throws(old(Current()), Action.WipAccountUpdated(u))
      ensures thrown <==> || u.group !in old(byGroupId)
                          || (u.id !in old(byGroupId)[u.group].wip.byId && u.id !in old(byGroupId)[u.group].accounts.byId)
      ensures thrown ==> Current() == old(Current())
      ensures nextLocalAccountId == old(nextLocalAccountId)
      ensures !thrown ==>
                u.group in old(byGroupId) && u.group in byGroupId && OthersKept(old(byGroupId), byGroupId, u.group)
      ensures !thrown ==>
                var before, after := old(byGroupId)[u.group], byGroupId[u.group];
                && after.accounts == before.accounts && LookupKept(before, after, {u.id})
                && SelectAccountById(before, u.id).Some?
                && u.id in after.wip.byId
                && (u.deleted.Some? ==> after.wip.byId[u.id].deleted == u.deleted.value)
                && (u.deleted.None? ==> after.wip.byId[u.id].deleted == SelectAccountById(before, u.id).value.deleted)
                && (u.name.Some? ==> after.wip.byId[u.id].name == u.name.value)
                && (u.name.None? ==> after.wip.byId[u.id].name == SelectAccountById(before, u.id).value.name)
                && |after.wip.ids| == |before.wip.ids| + if u.id in before.wip.byId then 0 else 2
    {
      if u.group !in byGroupId {
        return true;
      }
      var s := byGroupId[u.group];
      if u.id !in s.wip.byId {
        s := s.(wip := s.wip.(ids := s.wip.ids + [u.id]));
      }
      var moved := MoveToWip(s, u.id);
      if moved.None? {
        return true;
      }
      s := moved.value;
      s := s.(wip := s.wip.(byId := s.wip.byId[u.id := Merge(s.wip.byId[u.id], u)]));
      ghost var before := byGroupId[u.group];
      if u.id !in before.wip.byId {
        assert s.wip.byId == before.wip.byId[u.id := Merge(ToWip(before.accounts.byId[u.id]), u)];
      }
      assert UpdateWip(before, u) == Some(s);
      Commit(u.group, s);
      return false;
    }

    method DiscardAccountChange(group: GroupId, id: Id) returns (thrown: bool)
      modifies this
      ensures Current() == Reduce(old(Current()), Action.DiscardAccountChange(group, id))
      ensures thrown <==> Throws(old(Current()), Action.DiscardAccountChange(group, id))
      ensures thrown <==> group !in old(byGroupId)
      ensures thrown ==> Current() == old(Current())
      ensures nextLocalAccountId == old(nextLocalAccountId)
      ensures !thrown ==>
                group in old(byGroupId) && group in byGroupId && OthersKept(old(byGroupId), byGroupId, group)
      ensures !thrown ==>
                var before, after := old(byGroupId)[group], byGroupId[group];
                && after.accounts == before.accounts && LookupKept(before, after, {id})
                && SelectAccountById(after, id) ==
                   if id in before.accounts.byId then Some(before.accounts.byId[id]) else None
    {
      hide Removed;
      if group !in byGroupId {
        return true;
      }
      var wip := RemoveFrom(byGroupId[group].wip, id);
      Commit(group, byGroupId[group].(wip := wip));
      return false;
    }

    method FetchAccountsPending(group: GroupId)
      modifies this
      ensures Current() == Reduce(old(Current()), Action.FetchAccountsPending(group))
      ensures nextLocalAccountId == old(nextLocalAccountId)
      ensures group in byGroupId && OthersKept(old(byGroupId), byGroupId, group)
      ensures byGroupId[group] == if group in old(byGroupId) then old(byGroupId)[group] else InitialGroup()
    {
      if group !in byGroupId {
        Commit(group, InitialGroup());
      }
    }

    method FetchAccountsRejected(group: GroupId) returns (thrown: bool)
      modifies this
      ensures Current() == Reduce(old(Current()), Action.FetchAccountsRejected(group))
      ensures thrown <==> Throws(old(Current()), Action.FetchAccountsRejected(group))
      ensures thrown <==> group !in old(byGroupId)
      ensures thrown ==> Current() == old(Current())
      ensures nextLocalAccountId == old(nextLocalAccountId)
      ensures !thrown ==>
                group in old(byGroupId) && group in byGroupId && OthersKept(old(byGroupId), byGroupId, group)
      ensures !thrown ==> byGroupId[group] == old(byGroupId)[group].(status := Failed)
    {
      if group !in byGroupId {
        return true;
      }
      Commit(group, byGroupId[group].(status := Failed));
      return false;
    }

    method FetchAccountsFulfilled(group: GroupId, fetched: seq<Account>)
      modifies this
      ensures Current() == Reduce(old(Current()), Action.FetchAccountsFulfilled(group, fetched))
      ensures nextLocalAccountId == old(nextLocalAccountId)
      ensures group in byGroupId && OthersKept(old(byGroupId), byGroupId, group)
      ensures var after := byGroupId[group];
              && after.status == Initialized
              && after.wip == (if group in old(byGroupId) then old(byGroupId)[group].wip else EMPTY_TABLE)
              && HoldsFetched(after.accounts, fetched)
    {
      var s := if group in byGroupId then byGroupId[group] else InitialGroup();
      var accounts := FetchedTable(fetched);
      Commit(group, s.(accounts := accounts, status := Initialized));
    }

    method FetchAccountFulfilled(account: Account) returns (thrown: bool)
      modifies this
      ensures Current() == Reduce(old(Current()), Action.FetchAccountFulfilled(account))
      ensures thrown <==> Throws(old(Current()), Action.FetchAccountFulfilled(account))
      ensures thrown <==> account.group !in old(byGroupId)
      ensures thrown ==> Current() == old(Current())
      ensures nextLocalAccountId == old(nextLocalAccountId)
      ensures !thrown ==>
                account.group in old(byGroupId) && account.group in byGroupId && OthersKept(old(byGroupId), byGroupId, account.group)
      ensures !thrown ==>
                var before, after := old(byGroupId)[account.group], byGroupId[account.group];
                && after.wip == before.wip && LookupKept(before, after, {account.id})
                && account.id in after.accounts.byId && after.accounts.byId[account.id] == account
    {
      if account.group !in byGroupId {
        return true;
      }
      var accounts := AddTo(byGroupId[account.group].accounts, account);
      Commit(account.group, byGroupId[account.group].(accounts := accounts));
      return false;
    }

    method SaveAccountFulfilled(group: GroupId, account: Account, oldAccountId: Id) returns (thrown: bool)
      modifies this
      ensures Current() == Reduce(old(Current()), Action.SaveAccountFulfilled(group, account, oldAccountId))
      ensures thrown <==> Throws(old(Current()), Action.SaveAccountFulfilled(group, account, oldAccountId))
      ensures thrown <==> group !in old(byGroupId)
      ensures thrown ==> Current() == old(Current())
      ensures nextLocalAccountId == old(nextLocalAccountId)
      ensures !thrown ==>
                group in old(byGroupId) && group in byGroupId && OthersKept(old(byGroupId), byGroupId, group)
      ensures !thrown ==>
                var before, after := old(byGroupId)[group], byGroupId[group];
                && LookupKept(before, after, {account.id, oldAccountId})
                && account.id in after.accounts.byId && after.accounts.byId[account.id] == account.(isWip := false)
                && oldAccountId !in after.wip.byId
    {
      hide Removed;
      if group !in byGroupId {
        return true;
      }
      var accounts := AddTo(byGroupId[group].accounts, account.(isWip := false));
      var wip := RemoveFrom(byGroupId[group].wip, oldAccountId);
      Commit(group, byGroupId[group].(accounts := accounts, wip := wip));
      return false;
    }

    method CreateAccountFulfilled(group: GroupId, account: Account) returns (thrown: bool)
      modifies this
      ensures Current() == Reduce(old(Current()), Action.CreateAccountFulfilled(group, account))
      ensures thrown <==> Throws(old(Current()), Action.CreateAccountFulfilled(group, account))
      ensures thrown <==> group !in old(byGroupId)
      ensures thrown ==> Current() == old(Current())
      ensures nextLocalAccountId == old(nextLocalAccountId)
      ensures !thrown ==>
                group in old(byGroupId) && group in byGroupId && OthersKept(old(byGroupId), byGroupId, group)
      ensures !thrown ==>
                var before, after := old(byGroupId)[group], byGroupId[group];
                && after.accounts == before.accounts && LookupKept(before, after, {account.id})
                && SelectAccountById(after, account.id) == Some(account)
    {
      if group !in byGroupId {
        return true;
      }
      var wip := AddTo(byGroupId[group].wip, account);
      Commit(group, byGroupId[group].(wip := wip));
      return false;
    }

    method DeleteAccountFulfilled(group: GroupId, id: Id, result: Option<Account>) returns (thrown: bool)
      modifies this
      ensures Current() == Reduce(old(Current()), Action.DeleteAccountFulfilled(group, id, result))
      ensures thrown <==> Throws(old(Current()), Action.DeleteAccountFulfilled(group, id, result))
      ensures thrown <==> group !in old(byGroupId)
      ensures thrown ==> Current() == old(Current())
      ensures nextLocalAccountId == old(nextLocalAccountId)
      ensures !thrown ==>
                group in old(byGroupId) && group in byGroupId && OthersKept(old(byGroupId), byGroupId, group)
      ensures !thrown ==>
                var before, after := old(byGroupId)[group], byGroupId[group];
                && LookupKept(before, after, {id} + if result.Some? then {result.value.id} else {})
                && id !in after.wip.byId
                && (result.None? ==> after.accounts == before.accounts)
                && (result.Some? ==> result.value.id in after.accounts.byId &&
                                     after.accounts.byId[result.value.id] == result.value)
    {
      hide Removed;
      if group !in byGroupId {
        return true;
      }
      var accounts := byGroupId[group].accounts;
      if result.Some? {
        accounts := AddTo(accounts, result.value);
      }
      var wip := RemoveFrom(byGroupId[group].wip, id);
      Commit(group, byGroupId[group].(accounts := accounts, wip := wip));
      return false;
    }

    method LeaveGroupFulfilled(group: GroupId)
      modifies this
      ensures Current() == Reduce(old(Current()), Action.LeaveGroupFulfilled(group))
      ensures nextLocalAccountId == old(nextLocalAccountId)
      ensures group !in byGroupId && OthersKept(old(byGroupId), byGroupId, group)
    {
      byGroupId := byGroupId - {group};
    }
  }
}
